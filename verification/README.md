# Cache coherence replay and page placement, verified

The repository evaluates a shared memory machine of sixteen sockets with a memory pool on a CXL island. Two programs do
the work, and a third one is a small relative of the first. This project models what they compute and proves what they
rely on.

**The coherence replay** (`proc_scripts/coh_replay`) replays memory traces against sixteen set-associative caches kept
coherent by a MESI directory, and counts the traffic. `Mesi` describes one access to one cache set, branch by branch;
`Agreement` proves the invariant that ties the directory to the caches; `Effects` says what one access does to every copy
and every directory entry. `Replay` puts the sets together and proves that every reachable state is consistent and that
sets do not influence each other. `FlatMemory` lets every counted transfer move data, and proves that the machine then
behaves like one flat memory. `Accounting` proves the conservation laws of the counters; `Recency`, `Inclusion` and `Ties`
are about LRU replacement under invalidations by other sockets; `SetIndex` about the bit mask that selects a set.
`CoherenceReplay` is the program itself, with its arrays, maps and counters updated in place; every assertion the program
makes is proved at its place.

**The placement study** (`modified_anand/omp_pp_trace.cpp`) processes one phase of the traces at a time. Each thread
counts its accesses (`Sampling`), the threads merge their counts under locks (`LockedMerge`), counts are consolidated per
socket and sorted into candidates (`Consolidation`), histograms are filled (`Totals`, `Histograms`, `HistogramLaws`,
`HistogramCells`), new pages get owners and hot pages move (`Placement`). `Pool`, `PlacementRuns`, `PassedCursor`,
`Island` and `Greedy` prove what the reassignment loop does and guarantees, within a phase and over whole runs;
`PageMigration` is the loop itself on page maps updated in place; and `ProcessPhase` runs whole phases from traces to page
maps.

**The metadata cache** (`proc_scripts/coh_replay/cache_dummy.cpp`) is an LRU cache with a queue per set: `LruQueue` for
one set, `MetadataCache` for the whole cache and its counters.

Sockets, sets and ways of the replay are parameters. `rand()` is an oracle: a phase brings arbitrary numbers, of which
the program uses remainders. The traces are sequences of records.

Three results differ from what one would first expect of the code.

* More ways never lose a hit if timestamps grow between a socket's accesses to different lines of a set. Accesses to the
  same line may share a timestamp. If different lines share one, which a trace may well have, more ways can lose a hit:
  `Ties.TiesLoseHits` has such a trace for every number of ways above two, against every smaller number from two.
* The sampled count of a page is the number of sampling windows in which it is touched, except that an instruction count
  of 0 is indistinguishable from "never sampled", and that the last window before the 64-bit wrap-around is never
  recognised. `Sampling.SamplingCountsWindows` has the exact condition. The bound of five samples that the program asserts
  therefore fails for some traces: `Sampling.BoundHoldsExactlyIf` says for which. Two families break it, touches at
  instruction count 0 (`Sampling.ZeroCountsBreakTheBound`) and touches over more than a billion instructions
  (`Sampling.LongPhaseBreaksTheBound`); within a billion instructions from a positive count it always holds.
* The eviction cursor, which moves on from one eviction to the next, finds the victim of a full rescan exactly if the
  visit has not passed the cursor. `PassedCursor` has a run in which it has, and in which the victims differ; every such
  eviction raises the "hot" flag.

## Model

| member | source | states |
|---|---|---|
| Mesi.LastInvalid | proc_scripts/coh_replay/coherence_replay.hpp:282-293 | A miss fills the last invalid way, since the scan goes on after an invalid one |
| Mesi.LruWay | proc_scripts/coh_replay/coherence_replay.hpp:276-298 | When all ways are valid the victim is the first way with the smallest timestamp |
| Agreement.InitInv | proc_scripts/coh_replay/coherence_replay.hpp:90-113 | The state left by `init_caches`, with fresh directory entries, satisfies the agreement invariant |
| Agreement.UpdateEntry | proc_scripts/coh_replay/coherence_replay.hpp:115-260 | After a directory update the line is M on a write, and on a read E from I, unchanged for a sharer and S otherwise; the requester is sharer and owner, other sharers stay on a read and go on a write; no other entry changes |
| Agreement.EvictEntry | proc_scripts/coh_replay/coherence_replay.hpp:322-367 | Eviction removes the socket from the sharers; the line becomes I from E or M, and S or E from S according to the sharers left; memory is written exactly if it was M |
| Agreement.EvictOwner | proc_scripts/coh_replay/coherence_replay.hpp:347-356 | After an eviction from S the last remaining sharer is the owner; from E and M the owner stays named |
| Agreement.AccessInv | proc_scripts/coh_replay/coherence_replay.hpp:263-396 | Every access, hit or miss, read or write, keeps directory and caches in agreement |
| Effects.HitIsSharer | proc_scripts/coh_replay/coherence_replay.hpp:282-292 | A socket hits a line exactly if the directory lists it as a sharer |
| Effects.AccessViews | proc_scripts/coh_replay/coherence_replay.hpp:263-396 | Every socket's copy of every line after an access: state, dirty bit and timestamp of the requester, invalidation or downgrade of the others, the evicted line gone, all else unchanged |
| Effects.AccessEntry | proc_scripts/coh_replay/coherence_replay.hpp:115-393 | The MESI transition and the new owner of the accessed line's directory entry; of the other lines only an evicted one changes, and how |
| Effects.AccessStats | proc_scripts/coh_replay/coherence_replay.hpp:118-252 | The counters of one access, from the directory state before it: a hit moves no data, a miss is served once, a modified line is written back when it is evicted or read by another socket |
| Replay.ReachableStatesAgree | proc_scripts/coh_replay/coherence_replay.hpp:90-396 | In every state reachable from `init_caches`: sharers are exactly the sockets with one valid way for the line, in the right set; a way's state is the directory's; dirty means M; I has no sharer, E and M only the owner, S at least two with the owner |
| Replay.SetDecomposition | proc_scripts/coh_replay/coherence_replay.hpp:263-396 | Every set ends a replay as if only its own references had been replayed, and the counters are the sums over the sets |
| Replay.OrderWithinSetsIsEnough | proc_scripts/coh_replay/coherence_replay.cpp:57-90 | Two traces with the same order within every set end in the same machine state and counters |
| Replay.DifferentSetsCommute | proc_scripts/coh_replay/coherence_replay.hpp:115-116 | References to different sets commute |
| FlatMemory.EveryAccessSeesTheLastWrite | proc_scripts/coh_replay/coherence_replay.hpp:115-260 | When every counted transfer moves data, every access of every replay sees the value last written to its line by any socket |
| FlatMemory.MemoryIsCurrentUnlessModified | proc_scripts/coh_replay/coherence_replay.hpp:322-388 | In every reachable state memory holds the last written value of every line that is not M, and every valid copy is current |
| Accounting.AccessTraffic | proc_scripts/coh_replay/coherence_replay.hpp:118-252 | How often one access counts each event: a hit moves no data; a miss reads memory if the line was I or S, and is served by the owner otherwise; a write to a shared line invalidates; a modified line is written back when another socket reads it or when it is evicted |
| Accounting.MissTrafficConservation | proc_scripts/coh_replay/coherence_replay.hpp:118-252 | Over every replay `total_m_insts` = hits + misses and misses = `m_reads` + `c_block_trans` |
| Accounting.DirtyWaysAreModifiedLines | proc_scripts/coh_replay/coherence_replay.hpp:326-336 | In a consistent set dirty ways and modified lines correspond one to one |
| Accounting.AccessModified | proc_scripts/coh_replay/coherence_replay.hpp:150-253 | Modified lines of the set after an access + its write-backs = modified lines before + 1 if it took its line to M |
| Accounting.WriteBackAccounting | proc_scripts/coh_replay/coherence_replay.hpp:150-170 | Over every replay, dirty ways + `m_writes` + `m_writes_from_coh` is the number of accesses that took a line to M from another state |
| Inclusion.VictimIsLast | proc_scripts/coh_replay/coherence_replay.hpp:276-298 | The way with the smallest timestamp holds the last line of the recency list |
| Inclusion.WaysAreLists | proc_scripts/coh_replay/coherence_replay.hpp:277-317 | If timestamps grow between a socket's references to different lines of a set, the socket's lines in the set are its recency list, whatever the other sockets invalidate |
| Inclusion.FewerWaysHoldAPrefix | proc_scripts/coh_replay/coherence_replay.hpp:277-317 | Under the same condition, replaying with fewer ways every socket holds the most recent part of what it holds with more ways, in every reachable state |
| Inclusion.MoreWaysNeverLoseHits | proc_scripts/coh_replay/coherence_replay.hpp:303-313 | Under the same condition, more ways never lower `llc_hits` |
| Ties.TiesLoseHits | proc_scripts/coh_replay/coherence_replay.hpp:276-298 | For every number of ways above two there is a trace with non-decreasing timestamps in which that many ways have fewer hits than every smaller number from two |
| SetIndex.IsPowerOfTwoExactly | proc_scripts/coh_replay/coherence_replay.hpp:447-449 | `isPowerOfTwo` accepts exactly the powers of two, hence not 0 |
| SetIndex.IndexIsRemainder | proc_scripts/coh_replay/coherence_replay.hpp:265-267 | For every accepted number of sets, masking a line address is taking the remainder |
| CoherenceReplay.Replayer.constructor | proc_scripts/coh_replay/coherence_replay.hpp:76-113 | A new machine is the initial machine of the specification and satisfies the invariant |
| CoherenceReplay.Replayer.InitCaches | proc_scripts/coh_replay/coherence_replay.hpp:90-113 | Whatever the ways held, the machine ends in its initial state when the directory is empty |
| CoherenceReplay.Replayer.RecolourWay | proc_scripts/coh_replay/coherence_replay.hpp:137-144 | The way loop that changes another socket's copy; the assertions about its state and dirty bit hold |
| CoherenceReplay.Replayer.DropWay | proc_scripts/coh_replay/coherence_replay.hpp:213-223 | The way loop that invalidates another socket's copy; the assertions about it hold |
| CoherenceReplay.Replayer.ReadCases | proc_scripts/coh_replay/coherence_replay.hpp:118-175 | The read cases of the directory update do what the specification says, and their assertions hold |
| CoherenceReplay.Replayer.InvalidateSharers | proc_scripts/coh_replay/coherence_replay.hpp:188-203 | The socket loop invalidates the copies of all other sharers and of nobody else |
| CoherenceReplay.Replayer.WriteCases | proc_scripts/coh_replay/coherence_replay.hpp:176-253 | The write cases of the directory update do what the specification says, and their assertions hold |
| CoherenceReplay.Replayer.UpdateEntry | proc_scripts/coh_replay/coherence_replay.hpp:115-260 | The whole directory update, in place, equals the specification; other sets are untouched |
| CoherenceReplay.Replayer.Scan | proc_scripts/coh_replay/coherence_replay.hpp:270-298 | The way scan finds the hit, or the last invalid way, or the LRU way |
| CoherenceReplay.Replayer.CountSharers | proc_scripts/coh_replay/coherence_replay.hpp:349-355 | The sharer loop counts the remaining sharers and finds the last of them |
| CoherenceReplay.Replayer.EvictLine | proc_scripts/coh_replay/coherence_replay.hpp:322-367 | Eviction, in place, equals the specification; its assertions hold |
| CoherenceReplay.Replayer.Hits | proc_scripts/coh_replay/coherence_replay.hpp:303-313 | A hit, in place, equals the specification |
| CoherenceReplay.Replayer.Fills | proc_scripts/coh_replay/coherence_replay.hpp:372-393 | Filling a way, in place, equals the specification; the assertions after it hold |
| CoherenceReplay.Replayer.AccessCache | proc_scripts/coh_replay/coherence_replay.hpp:263-396 | One access to the mutable machine is one step of the specified machine, and keeps the invariant; no assertion can fail |
| CoherenceReplay.RoundsAre | proc_scripts/coh_replay/coherence_replay.cpp:57-87 | The references of the rounds are exactly the records that are no marks, round by round and thread by thread; each is of the line of 64 bytes around its address, a write exactly at an odd address, from the socket of four threads, stamped with its instruction count |
| CoherenceReplay.Replayer.ReplayTraces | proc_scripts/coh_replay/coherence_replay.cpp:57-90 | The main loop, round by round over the threads, skips marks, stops after the first round with the last mark, and is the run of the specified machine over all references of these rounds |
| Sampling.SamePeriodIs | modified_anand/omp_pp_trace.hpp:231-248 | In 64-bit arithmetic, two touches are in the same period exactly if the first is not at instruction count 0, their windows are equal, and the window is not the last one before the wrap-around |
| Sampling.SampledIs | modified_anand/omp_pp_trace.cpp:286-290 | For instruction counts in order, the sampled count is the number of windows with a recognisable touch plus the number of unrecognisable touches |
| Sampling.SamplingCountsWindows | modified_anand/omp_pp_trace.cpp:286-290 | The sampled count is the number of distinct windows if and only if the page is touched at most once in the last window, and at most once at count 0 and then not again in the first window |
| Sampling.TouchedIsSampled | modified_anand/omp_pp_trace.cpp:436-437 | Exactly the touched pages are sampled, in any order of instruction counts |
| Sampling.BoundHoldsExactlyIf | modified_anand/omp_pp_trace.cpp:289 | The asserted bound of five samples holds for a page if and only if its clear windows, its touches at instruction count 0 and its touches in the last window are at most five together |
| Sampling.SampledWithinPhase | modified_anand/omp_pp_trace.cpp:286-290 | Within a billion instructions the bound holds if and only if clear windows and touches at count 0 are at most five together; a trace that starts later than 0 has no such touches, and a page without them is sampled once in each of its windows, at most five times |
| Sampling.LongPhaseBreaksTheBound | modified_anand/omp_pp_trace.cpp:289 | One touch in each of n consecutive windows, all at positive counts, is sampled n times, so that a longer phase breaks the bound |
| Sampling.ZeroCountsBreakTheBound | modified_anand/omp_pp_trace.hpp:232-234 | Touches at instruction count 0 are all sampled although they share one window, so that six of them break the asserted bound |
| Sampling.AccessesAre | modified_anand/omp_pp_trace.cpp:211-228 | The accesses of a phase are exactly the lines before the first mark at or after its end that are no marks, in their order |
| Sampling.WritesAreOdd | modified_anand/omp_pp_trace.cpp:230-234 | The writes of page p are the accesses at odd addresses from 4096 p up to 4096 (p + 1), the reads those at even addresses |
| Sampling.ReadTrace | modified_anand/omp_pp_trace.cpp:199-297 | The trace loop of a thread: all counts of all pages are those of the accesses of the phase, writes at odd and reads at even addresses of the page |
| Sampling.Record | modified_anand/omp_pp_trace.cpp:228-290 | Counting and sampling one access extends all counts by exactly that access, as a write at an odd address and as a read at an even one |
| LockedMerge.BehaviorKeeps | modified_anand/omp_pp_trace.cpp:315-328 | In every state of every interleaving only the lock's holder is between load and store, a loaded value is current, shared count + counts still to be stored = the threads' counts, and the table has exactly the pages stored |
| LockedMerge.EveryInterleavingSums | modified_anand/omp_pp_trace.cpp:315-328 | Every interleaving of the threads ends with every page's shared count equal to the sum of the threads' counts |
| LockedMerge.InterleavingsAgree | modified_anand/omp_pp_trace.cpp:315-328 | All interleavings that come to an end leave the same table |
| LockedMerge.EveryInterleavingEnds | modified_anand/omp_pp_trace.cpp:315-328 | No interleaving has more than four steps for each page of each thread; one that cannot go on has exactly that many, and nothing is left to store |
| LockedMerge.Merge | modified_anand/omp_pp_trace.cpp:315-328 | Threads that run in any order end with a complete interleaving |
| Consolidation.Consolidate | modified_anand/omp_pp_trace.cpp:333-344 | The consolidation loop gives every socket the sums of its four threads and the pages they know, and keeps the total |
| Consolidation.ConsolidationConserves | modified_anand/omp_pp_trace.cpp:333-344 | For every page the sockets' counts add up to the threads' counts |
| Consolidation.SharedTableIsSocketSums | modified_anand/omp_pp_trace.cpp:315-344 | The shared table, however the threads interleave, agrees with the sockets' sums of any tables that count the same |
| Consolidation.Join | modified_anand/omp_pp_trace.cpp:466-471 | The joined counts are the sums over all sockets, for exactly the touched pages |
| Consolidation.SortCandidates | modified_anand/omp_pp_trace.cpp:473-482 | The candidates are all counted pages, each once, with their counts, hottest first |
| Consolidation.PhaseIsGood | modified_anand/omp_pp_trace.cpp:418-482 | What the counting builds is what the reassignment loop relies on |
| Consolidation.BuildPhase | modified_anand/omp_pp_trace.cpp:333-482 | From the threads' sampled counts to the candidates, whose counts are the sums over all threads |
| Totals.MassRegroup | modified_anand/omp_pp_trace.cpp:501-609 | Two labellings that select the same pages have the same mass, the reason why the histograms agree |
| Histograms.Family.Count | modified_anand/omp_pp_trace.cpp:556-562 | Counting a page's accesses of one kind updates the histograms by sharers and by both distances in the cells of their labels only |
| Histograms.Tables.CountPage | modified_anand/omp_pp_trace.cpp:505-606 | Counting one page of one socket keeps every table equal to the mass of its labels |
| Histograms.Tables.Populate | modified_anand/omp_pp_trace.cpp:501-609 | The histogram loops fill every cell of every table with the mass of its label, in whatever order pages come |
| HistogramLaws.AccessesAreWritesAndReads | modified_anand/omp_pp_trace.cpp:513-520 | For every number of sharers: accesses = writes + reads of written pages + reads of pages only read |
| HistogramLaws.DistancesAddUp | modified_anand/omp_pp_trace.cpp:553-596 | For every kind and number of sharers the four distances add up to the accesses, in the baseline and with the island, and no baseline access is at distance 3 |
| HistogramLaws.EveryAccessIsCounted | modified_anand/omp_pp_trace.cpp:501-514 | The access histogram sums to all accesses of all sockets |
| HistogramLaws.IslandTraffic | modified_anand/omp_pp_trace.cpp:588-601 | The accesses at distance 3 are the traffic to the island |
| HistogramCells.EveryCell | modified_anand/omp_pp_trace.cpp:501-606 | Every cell of every table holds exactly the counts of its pages: by number of sharers and by distance from the owners of the baseline and of the island, with reads of written pages apart from reads of pages only read; and each socket's traffic is what it has of pages on the island |
| Pool.BusiestIs | modified_anand/omp_pp_trace.cpp:689-701 | The socket loop finds the first socket with the highest sampled count |
| Pool.SharersAreTouchers | modified_anand/omp_pp_trace.cpp:418-426 | The sharers of a page are the sockets that touched it, each once, in ascending order |
| Pool.NewOwnerIs | modified_anand/omp_pp_trace.cpp:679-702 | A new owner is a socket, never the invalid owner: below eight sharers the lowest-numbered one with the highest sampled count, from eight on the drawn one |
| Pool.EvictedOwnerIs | modified_anand/omp_pp_trace.cpp:763-784 | An evicted page goes to the lowest-numbered socket with the highest sampled count if one to seven sockets touched it, and to the drawn one otherwise |
| Pool.FirstTouchOwners | modified_anand/omp_pp_trace.cpp:526-552 | First touch gives exactly the touched pages without an owner the same first owner in both maps, and leaves the others alone |
| Pool.FirstOwnerIs | modified_anand/omp_pp_trace.cpp:532-545 | The first owner of a page is, of the sockets that touched it in ascending order, the one that the draw selects |
| Pool.VictimFound | modified_anand/omp_pp_trace.cpp:744-756 | In a full pool the cursor always finds a page of the pool, and if that is colder than the inserted page no candidate behind it is in the pool |
| Pool.CursorIsRescan | proc_scripts/past_scripts/0810_omp_pp_trace.cpp:579-585 | The cursor finds the victim of a full rescan if and only if the visit has not passed the cursor |
| PassedCursor.CursorIsNotAlwaysRescan | modified_anand/omp_pp_trace.cpp:741-751 | A run of two phases from no pages in which the visit has passed the cursor, a page enters the full pool, and cursor and rescan find different victims |
| Pool.LoopKeeps | modified_anand/omp_pp_trace.cpp:676-823 | The loop invariant: pool within its capacity, owners valid, cursor and budgets as described, after any number of candidates |
| PlacementRuns.PhasesKeep | modified_anand/omp_pp_trace.cpp:667-900 | Between phases of every run both maps know the same pages, all owners are valid, and the pool is within its capacity |
| PlacementRuns.PoolNeverOverflows | modified_anand/omp_pp_trace.cpp:669-803 | After any number of phases: pages on the island <= `pages_in_pool` <= max(0, known pages / 5 - 1), and every owner is a socket or the island |
| PlacementRuns.EvictionIsColdest | modified_anand/omp_pp_trace.cpp:741-788 | In any phase an eviction finds a victim; unless it raises the flag, it is the coldest candidate in the pool, strictly colder than the new page, and the victim of a full rescan; the owners afterwards |
| PlacementRuns.PhaseDiscipline | modified_anand/omp_pp_trace.cpp:676-804 | In any phase: the warning is never printed, at most one eviction is flagged and nothing enters the pool after it, baseline moves <= the limit, island moves, insertions and evictions together <= the limit + 1 |
| Island.EveryVisitIsIslandStep | modified_anand/omp_pp_trace.cpp:726-813 | In every phase of every run, what visiting a candidate does to the island and to nothing else there: whether it may move, by budget and counter; into the pool, with at least eight sharers and no flag, and from a full pool the first page from the cursor on goes where an evicted page goes; otherwise to its chosen socket, unless it is there; with all counts |
| PlacementRuns.OnlySharedPagesEnter | modified_anand/omp_pp_trace.cpp:729-738 | A page that enters the pool in a phase is shared by at least eight sockets |
| PlacementRuns.MigrationsBounded | modified_anand/omp_pp_trace.cpp:668-735 | After phase p of any run no counter exceeds p/4 + 1 |
| Greedy.LoopIsGreedy | modified_anand/omp_pp_trace.cpp:676-722 | The baseline owners and counters after any part of the loop: of the candidates that may migrate and want to, the first ones up to the limit get their new owners, hottest first |
| Greedy.WantsIs | modified_anand/omp_pp_trace.cpp:705-712 | A page wants to migrate exactly if its counter is at most a quarter of the phase number and it is not where it goes to: below eight sharers the hottest socket, otherwise the drawn one |
| Greedy.IslandPlaysNoPart | modified_anand/omp_pp_trace.cpp:705-722 | The baseline does not depend on what is on the island, on the pool, or on where evicted pages go |
| Greedy.PhaseChangesAreMigrations | modified_anand/omp_pp_trace.cpp:709-720 | Each phase changes exactly `migrated_pages` baseline owners, at most the limit |
| Greedy.CounterIsOwnerChanges | modified_anand/omp_pp_trace.cpp:709-715 | Over any run a page's baseline counter is its number of owner changes since first touch |
| PageMigration.PageMap.CountSharers | modified_anand/omp_pp_trace.cpp:419-426 | The sharer loop counts the sockets that touched each page |
| PageMigration.PageMap.FindBusiest | modified_anand/omp_pp_trace.cpp:689-701 | The socket loop equals the specified busiest socket |
| PageMigration.PageMap.TouchPages | modified_anand/omp_pp_trace.cpp:501-587 | First touch, in place and in whatever order pages come, equals its specification; "code can't get here" is not reached |
| PageMigration.PageMap.MoveBaseline | modified_anand/omp_pp_trace.cpp:705-722 | The baseline part of a visit, in place, equals its specification |
| PageMigration.PageMap.ScanForVictim | modified_anand/omp_pp_trace.cpp:746-751 | The cursor loop stops at the first page on the island |
| PageMigration.PageMap.EvictOne | modified_anand/omp_pp_trace.cpp:741-795 | Making room in the pool, in place, equals its specification; the scan never runs out |
| PageMigration.PageMap.MoveIsland | modified_anand/omp_pp_trace.cpp:726-813 | The island part of a visit, in place, equals its specification |
| PageMigration.PageMap.ReassignOwners | modified_anand/omp_pp_trace.cpp:667-830 | The loop with two cursors, in place, ends in the specified pages and counts |
| ProcessPhase.SharedTables | modified_anand/omp_pp_trace.cpp:315-344 | However the threads merge the counts of their traces, the shared tables of reads and of writes end as the traces' reads and writes of each page, which are the sums over the sockets |
| ProcessPhase.WrittenPages | modified_anand/omp_pp_trace.cpp:515 | A page has a positive shared count of writes exactly if some thread writes to it |
| ProcessPhase.CountPhase | modified_anand/omp_pp_trace.cpp:168-482 | From traces to a phase that the reassignment loop can rely on, with the sampled counts of the traces for every socket and every candidate |
| ProcessPhase.WorkIsGood | modified_anand/omp_pp_trace.cpp:501-587 | The histogram loops find sharers and owners for every counted page, and accesses are writes and reads |
| ProcessPhase.GatherWork | modified_anand/omp_pp_trace.cpp:306-344 | The sockets' accesses, reads and writes of every page are those of their threads' traces; the table of writes is the one that every interleaving leaves |
| ProcessPhase.RunPhase | modified_anand/omp_pp_trace.cpp:168-900 | One phase from traces: the page maps move on as specified, and the histograms are filled from the accesses, reads and writes of the traces, with the sharers and the owners in force before reassignment, and account for every access |
| ProcessPhase.Run | modified_anand/omp_pp_trace.cpp:904-920 | Every run from no pages goes through phases that hold the sampled counts of its traces and its draws, and ends as specified, so that the results about runs hold of the program |
| LruQueue.RunKeeps | proc_scripts/coh_replay/cache_dummy.cpp:41-90 | After any accesses a set's queue has no duplicates and lists exactly the valid tags, as many as the set counts and at most the ways; invalid lines are clean |
| LruQueue.QueueIsRecent | proc_scripts/coh_replay/cache_dummy.cpp:56-80 | The queue is the most recent part of the list of all tags in the order of their last accesses |
| LruQueue.HitIsShortReuse | proc_scripts/coh_replay/cache_dummy.cpp:51-66 | A tag hits if and only if it was accessed before, and since then fewer other tags of its set than it has ways |
| LruQueue.MoreWaysKeepHits | proc_scripts/coh_replay/cache_dummy.cpp:65-78 | With more ways every hit stays a hit |
| MetadataCache.BanksAreSetRuns | proc_scripts/coh_replay/cache_dummy.cpp:43-44 | Every set sees exactly its own accesses |
| MetadataCache.TagsDiffer | proc_scripts/coh_replay/cache_dummy.cpp:43-44 | Two page frames of one set have different tags |
| MetadataCache.HitIsReuse | proc_scripts/coh_replay/cache_dummy.cpp:41-90 | After any run a page frame hits if and only if it was asked for before, and since then fewer other page frames with the same remainder than a set has ways |
| MetadataCache.QueuesAreRecent | proc_scripts/coh_replay/cache_dummy.cpp:54-81 | The queue characterisation for every set of the whole cache |
| MetadataCache.CountsAddUp | proc_scripts/coh_replay/cache_dummy.cpp:45-88 | Accesses = hits + misses = reads + writes, with hits and writes counted as such; DRAM accesses = reads + writes; DRAM is read once for every read that misses; DRAM writes = write-backs <= misses |
| MetadataCache.WritesBackWhatItDirtied | proc_scripts/coh_replay/cache_dummy.cpp:54-84 | Dirty lines now + write-backs so far = writes that found their line clean or missing |
| MetadataCache.LruCache.constructor | proc_scripts/coh_replay/cache_dummy.cpp:20-32 | A new cache is empty and valid |
| MetadataCache.LruCache.EvictLine | proc_scripts/coh_replay/cache_dummy.cpp:65-78 | Throwing out the front of the queue, in place, equals its specification |
| MetadataCache.LruCache.AccessCache | proc_scripts/coh_replay/cache_dummy.cpp:41-90 | One access, in place, is one step of the specified cache, with its result and counters |

## Left out

- Reading and writing files, directories, logs and timing: traces are sequences of records, and a phase ends at a mark or with the trace.
- The width of counters: counts, pool occupancy and migration counters are unbounded naturals. Line addresses, timestamps, tags and instruction counts are 64 bits wide, and `Sampling.InSamePeriod` wraps around as the program does.
- The quality of `rand()`: any numbers are allowed, and all results hold for all of them.
- The bucket of a page by the rounded logarithm of its accesses (modified_anand/omp_pp_trace.cpp:628-632), and the page histograms beside it: floating point, and easy otherwise.
- Traffic per link and at each memory controller (modified_anand/omp_pp_trace.cpp:563-565 and 603-605): no output is made from it, and it is counted as the histograms are.
- Printed totals that do not sum what they are named for (modified_anand/omp_pp_trace.cpp:843-845, proc_scripts/coh_replay/coherence_replay.cpp:93): the results are about the state itself.
- The tables of migrated and evicted pages that are only written to files.
- The legacy history of counts (modified_anand/omp_pp_trace.cpp:355-416), which holds one phase.
- A phase in which no page is touched: the program would then visit the end of an empty candidate list, so a phase is required to have an access.
- First touch and the histograms are one loop in the program and two here. A page's owner does not change once it has one, so every visit of a page sees the owner that it has after first touch.
- Pages that leave the pool by migration do not lower `pages_in_pool` (modified_anand/omp_pp_trace.cpp:799-804). The model keeps this; the count is therefore a bound on the pages on the island and not their number.
- Inclusion.MoreWaysNeverLoseHits: requires timestamps that grow between a socket's accesses to different lines of a set; `Ties.TiesLoseHits` shows for all numbers of ways that non-decreasing ones are not enough, but not every trace with ties loses a hit.
- LockedMerge.EveryInterleavingSums: speaks of one shared table and its lock; reads and writes have one each and never meet.
- CoherenceReplay.Replayer.ReplayTraces: requires traces that reach the last mark; past the end of a file the program goes on with records that it could not read.
- The walk over metadata levels (proc_scripts/coh_replay/cache_dummy.cpp:92-184): its address layout comes from a header that is not part of this model.
- Averages and ratios of the metadata cache: floating point.
- The near copies of the phase loop in proc_scripts and anand_project, and the regeneration of page maps: they repeat what is modelled. The older form of eviction, which scans anew each time, is compared with the cursor in `Pool.CursorIsRescan`.
