# A verified model of the Ramulator memory engine

Ramulator, in `ramulator/`, is the cycle-accurate DRAM simulator behind this
repository's memory system. The files here model its engine in Dafny and prove what
it is relied upon for, over every configuration and every run.

The project stands alone: `dafny verify dfyconfig.toml` checks all of it.

## What is modelled

**The DRAM tree** (`DramTree`, `Timing`, `TimingRuns`). A tree of nodes remembers, for
every command, when it was last issued (`prev`) and when it may next be issued (`next`).
Commands, states and tables are parameters, as the template parameter is in the source.
The central theorem is exact in both directions: `check` accepts a run of commands if
and only if every command respects every timing entry towards all its predecessors.
`Ddr3`, `Ddr3Distances`, `Ddr3State` and `Ddr3Chain` instantiate it with the tables and
state lambdas of DDR3 (JEDEC JESD79-3, sections 4.11, 4.12 and 4.15). `Ddr3Distances`
says what the tables amount to, in both directions: a command is let through if and only
if it keeps a list of distances told from commands and speed fields alone. The others
prove the four-activate window, what decode and update mean for a bank, and the exact
command sequence that serves a request. `DramNode` is the same tree as it lives in
memory, one object per node, every method proved equal to the value-level operation.

**The controller** (`ControllerSpec`, `ControllerWf`, `ControllerInv`, `ControllerFlow`,
`ControllerRuns`, `ControllerTheorems`, `ControllerBus`, `ControllerTurns`,
`ControllerDistances`, `ControllerRecords`, `ControllerRefresh`, `ControllerMode`, with
`RowTable`, `Scheduler` and `Serving`). A state machine on values: accept a request;
advance the clock, answer a finished read, inject refreshes, choose between reads and
writes, issue one command. One invariant is carried through every phase, and
`ControllerTheorems` reads off what it means for every run: timing, the row table as a
mirror of the tree, request conservation, read-after-write order, and the serving
counters as counts and as time integrals. `ControllerBus` says what the command of a
step can be: no precharge ever spoils a pending row hit, and a refresh goes out only to
a rank with every bank closed. `ControllerTurns` says whose turn it is at a tick and
which request is picked, `ControllerDistances` that commands keep their distances and
are held back for nothing else, and `ControllerRecords` what the serving counters and
the row table record of them. `ControllerRefresh` counts the refreshes of each rank, and
`ControllerMode` proves the hysteresis of write mode. `Controller` is the controller in
memory, over `DramNode` and the row table; each call is proved to be one step of the
state machine, so the invariant, and with it every theorem, holds of the running object.

**The cache hierarchy** (`CacheLines`, `CacheTree`, `CacheCopies`, `CacheEviction`,
`CacheInvariant`, `CacheAcceptance`, `CacheSend`, `CacheVictims`, `CacheRuns`,
`CacheTraffic`, `CacheTheorems`, `CacheAnswers`, `CacheSystem`). Up to three levels of
caches with LRU sets, locked lines, MSHR entries that hold iterators, back-invalidation
and write-back, in any forest `concatlower` can build. List nodes have identities, so an
iterator to an erased line would be noticed; a failed assert or such an iterator drops
the flag `ok`. Proved: bounded sets with distinct tags, the MSHR/lock correspondence,
inclusion, an exact ledger of written blocks (a block is on it if and only if some
cached copy is dirty), and that no written block is ever lost. `CacheVictims` says which
line makes room and what it leaves behind, `CacheTraffic` what each request puts on the
two lists and in the caches it reaches, and `CacheAnswers` that over a run every hit is
called back on time and every missing block fetched once. `Cache::send` ignores the
answer of the level below, so inclusion is not unconditional; `AccessExact` gives the
exact condition, evaluated before the call, under which it survives, and
`RefusalBreaksInclusion` a concrete cache in which it does not.

**The refresh scheduler** (`RefreshBook`, `RefreshSteps`, `Refresh`). Three places issue
refreshes against one credit counter per bank. Proved for every tick, whatever the
controller's queues hold, whatever `rand` draws and however the sort breaks ties: the
credit of a bank is refreshes issued minus slots elapsed, it stays within -7 and 8,
subarrays are visited in turn, every bank keeps its refresh rate, and the controller's
queue receives exactly the refreshes on record. A side result: the entry `wrp` searches
for is never past the second, so its random draw always takes the first, a least
demanded bank.

**The memory front end** (`AddressMap`, `Memory`). Address slicing is a bijection below
`max_address` if and only if every count is a power of two, under both mapping types,
and each component is the stated bits; the random page allocator keeps an exact count of
free pages, always finds one while there is one, and translates injectively exactly
until its first replacement.

**Subarray parallelism** (`Salp`, `SalpChannel`). SALP-1, SALP-2 and MASA as one state
machine on banks: which subarrays may be open together, what a command leaves in every
one of them, and that reads, writes and refreshes are issued exactly where the mechanism
allows.

## Hypotheses

- The default policies: scheduler `FRFCFS_PriorHit` (`ramulator/Scheduler.h:29`) and row
  policy `Opened` (`ramulator/Scheduler.h:166`), whose victim is always empty.
- Requests are READ, WRITE and REFRESH, so ranks stay in `PowerUp`; power-down and
  self-refresh appear in `Ddr3Chain` only. Addresses name real ranks and banks, and the
  read latency is more than one clock.
- `refresh_target` asserts that its enqueue succeeds (`ramulator/Refresh.h:107-108`). For
  the DDR3 controller that is a guard on each tick; for the DSARP scheduler the failure is
  an outcome of the tick, and the contracts say when it cannot occur.
- In `Cache::invalidate` the dirty bit is read after the line is erased
  (`ramulator/Cache.cpp:230`, `ramulator/Cache.cpp:245-249`). The model reads it first.
- The subarray counters of a rank are sized by subarrays and indexed by bank
  (`ramulator/Refresh.cpp:34`, `ramulator/Refresh.cpp:91`): at least as many subarrays as
  banks are required.
- All caches use blocks of 64 bytes, as configured (`ramulator/Processor.h:79`,
  `ramulator/Processor.h:85`, `ramulator/Processor.h:131`). Thresholds such as 0.8 * 32 are
  the integers they yield. Integers are unbounded; shifts and masks by powers of two are
  divisions and remainders, which agree for negative addresses too.

Fields that the source does not have are bookkeeping the theorems speak of: the log and
the tokens of the controller, the flags `ok` and `refused` and the ledger of the caches,
the record of issued refreshes and the flag `replaced` of the page allocator.

## Model

| member | source | states |
|---|---|---|
| DramTree.CheckIsNextOnWalk | ramulator/DRAM.h:266-278 | the recursive check passes exactly when the largest horizon on the walk is not after the clock |
| DramTree.CheckAgreesWithGetNext | ramulator/DRAM.h:312-322 | at any clock the tree has reached, check holds exactly when get_next is not later; once ready, a command stays ready until the next update |
| Timing.CheckMeansAllOnWalk | ramulator/DRAM.h:266-278 | check is a condition on every node of the address's walk down to the command's scope, and on no other |
| Timing.RaiseTargetExact | ramulator/DRAM.h:375-395 | the loop over a target node's entries leaves, for each command, exactly the largest demand of the non-sibling entries whose history reaches back far enough |
| Timing.RaiseSiblingExact | ramulator/DRAM.h:355-367 | the loop over a sibling's entries leaves exactly the largest demand of the sibling entries |
| Timing.UpdateExplains | ramulator/DRAM.h:351-406 | if next and prev of every node say what the issued commands demand, they still do after update_timing, at targets, siblings and bystanders alike |
| Timing.SameTimingExplains | ramulator/DRAM.h:335-347 | changing states only leaves what the tree remembers of the run unchanged |
| Timing.CheckExact | ramulator/DRAM.h:266-278 | check lets a command through if and only if every timing entry at every node of its walk is respected towards every command issued so far (dist-th last for target entries, any for sibling entries) |
| TimingRuns.UpdateKeeps | ramulator/DRAM.h:325-331 | update (state, then timing) keeps the tree an exact memory of the run |
| TimingRuns.InitialExplains | ramulator/DRAM.h:201-209 | a tree as constructed (next all -1, histories of -1) is the memory of the empty run |
| TimingRuns.TimingSafety | ramulator/DRAM.h:266-278 | for any table and level structure, a run is accepted command by command by check if and only if every command of it respects every timing entry towards its predecessors |
| TimingRuns.PairwiseSafety | ramulator/DRAM.h:375-395 | in an accepted run, command j comes at least val clocks after command i for each entry (i -> j, dist, val), once dist - 1 further issues of i to the node lie between them |
| TimingRuns.AllowedPairwise | ramulator/DRAM.h:266-278 | a command respects the run if and only if it respects every earlier command of it, pair by pair, at every node of its walk |
| Ddr3.TablesOk | ramulator/DRAM.h:358-388 | the DDR3 tables meet the asserts of update_timing: every entry looks back at least one issue and a sibling entry exactly one, and no state lambda touches timing data |
| Ddr3.RefreshEntryIsCurrent | ramulator/DRAM.h:385-387 | the assert of the refresh statistics holds: the entry from REF to ACT looks back to the REF being recorded |
| Ddr3.FourActivateWindow | ramulator/DDR3.cpp:293-294 | five activates of one rank span at least nFAW clocks: no more than four fall in any such window |
| Ddr3Distances.AllowedIsDistances | ramulator/DDR3.cpp:219-351 | respecting the DDR3 tables is, in both directions, keeping a list of distances told from commands and speed fields alone: at the channel, within and across ranks, with the power states, in a bank, and the four-activate window |
| Ddr3Distances.CheckIsDistances | ramulator/DRAM.h:266-278 | check lets a command through if and only if it keeps each of those distances from every command issued before |
| Ddr3Distances.SafeIsDistances | ramulator/DDR3.cpp:219-351 | a run is accepted if and only if every command keeps its distances |
| Ddr3State.AddrFits | ramulator/DRAM.h:272-277 | the child indices met on the way down are real children for every well-addressed command |
| Ddr3State.DecodeIsView | ramulator/DRAM.h:247-262 | decode through the tree answers what the states of the addressed rank and bank alone call for |
| Ddr3State.UpdateStateIsView | ramulator/DRAM.h:335-347 | update_state changes the state of the addressed rank and banks as the command says, and nothing else |
| Ddr3State.StepExact | ramulator/DDR3.cpp:181-216 | what a command does to each rank and bank: which banks a precharge shuts, what an activate opens, and that power-down is active exactly when some bank is open |
| Ddr3State.UpdateIsView | ramulator/DRAM.h:325-331 | so does update as a whole: timing leaves every state alone |
| Ddr3State.TimingKeepsView | ramulator/DRAM.h:351-406 | update_timing changes no state and no open row |
| Ddr3State.ServingKeepsView | ramulator/DRAM.h:408-447 | update_serving_requests changes no state, no open row and no timing data |
| Ddr3Chain.DecodeTakesFirst | ramulator/DDR3.cpp:93-146 | decode answers the first command a request still needs, and issuing it leaves exactly the rest |
| Ddr3Chain.IssuedWhen | ramulator/DDR3.cpp:93-146 | a request's own command is decoded exactly when the rank is awake and the bank open on the row, for a refresh when every bank is closed, for power-down outside self-refresh |
| Ddr3Chain.ChainExact | ramulator/DRAM.h:247-262 | repeating decode and update issues exactly the commands the rank's state calls for: a suffix of PRE, ACT, RD/WR behind at most one PDX or SRX, and for the other requests the sequences of the prerequisites; it always terminates |
| Ddr3Chain.ChainBounds | ramulator/DDR3.cpp:93-146 | 1 to 3 commands for a read or write on a powered-up rank, one more otherwise, at most 2 for REF, PDE and SRE |
| DramNode.Dram.constructor | ramulator/DRAM.h:189-228 | builds the tree level by level, rows not instantiated, ids equal to positions, on objects of its own |
| DramNode.Dram.UpdateSibling | ramulator/DRAM.h:355-367 | a sibling raises its horizons by its sibling entries only |
| DramNode.Dram.UpdateTarget | ramulator/DRAM.h:369-395 | a target pushes the clock on its history, then raises its horizons from it |
| DramNode.Dram.UpdateTiming | ramulator/DRAM.h:351-406 | the in-place recursion over all children leaves exactly the value-level tree |
| DramNode.Dram.UpdateChildren | ramulator/DRAM.h:402-404 | the loop updates every child once and nothing else |
| DramNode.Dram.Check | ramulator/DRAM.h:266-278 | the recursion in memory answers the value-level check |
| DramNode.Dram.GetNext | ramulator/DRAM.h:312-322 | the loop down the tree computes the largest horizon of the walk |
| DramNode.Dram.Decode | ramulator/DRAM.h:247-262 | the recursion in memory answers the value-level decode |
| DramNode.Dram.PrereqHere | ramulator/DDR3.cpp:93-146 | the prerequisite lambdas on a node in memory, the loop of REF over the banks included |
| DramNode.Dram.RowHit | ramulator/DRAM.h:282-295 | check_row_hit on the tree in memory |
| DramNode.Dram.RowOpen | ramulator/DRAM.h:297-310 | check_row_open on the tree in memory |
| DramNode.Dram.Apply | ramulator/DDR3.cpp:181-216 | the state lambdas on a node in memory, the loops of PREA and PDE included |
| DramNode.Dram.CloseBanks | ramulator/DDR3.cpp:189-192 | PREA closes every bank of the rank and clears its rows, one child at a time |
| DramNode.Dram.PowerDown | ramulator/DDR3.cpp:202-209 | PDE ends in the active or the precharge power-down state according to the banks |
| DramNode.Dram.UpdateState | ramulator/DRAM.h:335-347 | the recursion in memory leaves exactly the value-level tree |
| DramNode.Dram.Update | ramulator/DRAM.h:325-331 | update in memory: the value-level tree, and cur_clk |
| DramNode.Dram.UpdateServing | ramulator/DRAM.h:408-447 | the counters along one path, in memory |
| RowTable.DemandsHold | ramulator/Scheduler.h:238-257 | while the row table mirrors the tree, the first command of a read, write or refresh trips none of the table's three asserts |
| RowTable.MirrorStep | ramulator/Scheduler.h:224-259 | after issuing that command the table and the tree agree again |
| RowTable.RefreshOnlyClosed | ramulator/DDR3.cpp:119-125 | REF is the first command if and only if every bank of the rank is closed, and if and only if the table holds no key of the rank |
| RowTable.Table.Update | ramulator/Scheduler.h:224-259 | insert, touch or erase in place, the erasing loop included, leaves exactly the value-level table; the asserts are its precondition |
| Scheduler.GetHead | ramulator/Scheduler.h:35-104 | the loops of get_head return the oldest ready row hit (first among equals); failing that the oldest ready, else the oldest, request among those that would not close a row with a pending hit |
| Scheduler.HeadUnique | ramulator/Scheduler.h:108-154 | that description fits one request only |
| Scheduler.HeadExists | ramulator/Scheduler.h:72-102 | q.end() is returned for an empty queue only, and the head never spoils a pending hit |
| Scheduler.NotAllViolate | ramulator/Scheduler.h:74-100 | some request always spoils no hit |
| Servings.CountersAreIntegrals | ramulator/DRAM.h:408-439 | serving_requests and active_cycles are the time integrals, up to the last update, of the number in service and of "something in service" |
| Servings.ServingAsserts | ramulator/DRAM.h:408-439 | with steps of one that never take the count below zero, a service begins before it ends and only an end empties it |
| Servings.BeginExact | ramulator/DRAM.h:422-427 | begin_of_serving is the clock of the last change that took the node from idle to busy |
| Servings.ServingStep | ramulator/DRAM.h:408-447 | one call updates the counters of exactly the nodes on its path |
| ControllerSpec.FirstCmdFits | ramulator/Controller.h:486-490 | the first command of a queued request is what the addressed rank and bank call for, and the row table accepts it |
| ControllerSpec.NextMirrors | ramulator/Controller.h:492-496 | after issue_cmd the row table mirrors the tree again |
| ControllerWf.SameFirstCmd | ramulator/Controller.h:369-405 | starting a request's service changes neither its first command nor its readiness, so the assert of issue_cmd holds |
| ControllerInv.IssuedForTimed | ramulator/Controller.h:492-496 | issuing a ready command extends the run by one that respects every timing entry, and the tree remembers it |
| ControllerInv.IssuedForTallied | ramulator/Controller.h:492-496 | issuing a command changes no serving counter |
| ControllerFlow.LoadOfChildren | ramulator/DRAM.h:441-446 | a node's load is the sum of its children's |
| ControllerFlow.EnqueuedConserved | ramulator/Controller.h:298-315 | accepting a request adds it to exactly one place |
| ControllerFlow.ServedConserved | ramulator/Controller.h:324-336 | answering moves a read from pending to the answered ones |
| ControllerFlow.FinishedConserved | ramulator/Controller.h:407-422 | finishing moves a read to pending and a write to the completed ones |
| ControllerFlow.EnqueuedOrdered | ramulator/Controller.h:298-315 | a read queued behind a write to its address is answered from the write queue instead |
| ControllerRuns.EnqueuedInv | ramulator/Controller.h:298-315 | enqueue keeps every invariant |
| ControllerRuns.ServedInv | ramulator/Controller.h:324-336 | serving completed reads keeps every invariant |
| ControllerRuns.RefreshedInv | ramulator/Refresh.h:72-108 | injecting refreshes keeps every invariant when they fit the queue |
| ControllerRuns.ModedInv | ramulator/Controller.h:341-351 | switching between reads and writes keeps every invariant |
| ControllerRuns.StartedInv | ramulator/Controller.h:369-374 | starting a service keeps every invariant |
| ControllerRuns.IssuedForInv | ramulator/Controller.h:403-405 | issuing the first command keeps every invariant |
| ControllerRuns.FinishedInv | ramulator/Controller.h:411-422 | finishing a request keeps every invariant |
| ControllerRuns.TicksInv | ramulator/Controller.h:317-423 | a whole tick keeps every invariant, whichever request the scheduler's rule picks |
| ControllerRuns.RunInv | ramulator/Controller.h:298-423 | every state reached by any interleaving of enqueue and tick satisfies the invariant |
| ControllerTheorems.RunTiming | ramulator/Controller.h:492-496 | in every run the commands on the bus, at strictly increasing clocks, respect every DDR3 timing entry towards all commands before them |
| ControllerTheorems.RunFourActivates | ramulator/DDR3.cpp:293-294 | in every run any five activates of a rank span at least nFAW clocks |
| ControllerDistances.RunDistances | ramulator/DDR3.cpp:219-351 | in every run any two commands on the bus keep their distance: ACT to RD or WR nRCD, ACT to PRE nRAS, PRE to ACT nRP, REF to ACT nRFC and so on |
| ControllerDistances.RunReady | ramulator/Controller.h:425-429 | in every run a request is ready if and only if its first command keeps its distances, so nothing is held back longer than that |
| ControllerTheorems.RunRowTable | ramulator/Scheduler.h:224-259 | in every reachable state a bank has at most one open row, and the table holds its key with row w exactly when the bank is Opened with row_state = {w} |
| ControllerTheorems.RunConservation | ramulator/Controller.h:298-423 | accepted reads equal answered, pending and queued ones as multisets, each counted once and none answered before its depart; accepted writes equal completed and queued ones; no queue exceeds its bound |
| ControllerTheorems.RunLatency | ramulator/Controller.h:407-422 | a read answered from the DRAM departs nCL + nBL clocks after its RD on the bus and is not answered before; one from the write queue departs a clock after it came; a write is complete at the clock of its WR |
| ControllerTurns.RunAnswers | ramulator/Controller.h:324-336 | a tick answers the read at the front of pending if its departure has come, at that tick, and no other |
| ControllerTheorems.RunOrder | ramulator/Controller.h:306-313 | a queued read was accepted before every queued write to its address, so no read served from DRAM overtakes an older write |
| ControllerTheorems.RunServing | ramulator/DRAM.h:408-447 | at every node cur_serving_requests equals the number of started, unfinished reads and writes through it, never below zero, with the integrals right; begin_of_serving is when the node last became busy; the asserts never fire |
| ControllerTheorems.RunServingSums | ramulator/DRAM.h:441-446 | in every reachable state cur_serving_requests of a node with children is the sum of cur_serving_requests of its children |
| ControllerRefresh.RunRefreshSchedule | ramulator/Refresh.h:72-84 | in every run the last injection was at the last multiple of nREFI, and each rank has been given exactly floor(clk / nREFI) refresh requests beside those that came through enqueue, each of them waiting or issued as a REF |
| ControllerMode.RunModeTurns | ramulator/Controller.h:341-351 | in every run the mode turns exactly at the ticks that find it outside the band: to writes with 25 writes or no read waiting, back to reads with reads waiting and six writes or fewer |
| ControllerMode.RunModeHolds | ramulator/Controller.h:341-351 | in every run the mode stays as it is while the queues stay in the band |
| ControllerMode.RunWriteBurst | ramulator/Controller.h:341-351 | in every run a burst of writes that begins with 25 or more waiting completes at least 19 writes before the mode turns back |
| ControllerTurns.HeadIsPicked | ramulator/Scheduler.h:35-104 | told from the requests themselves: the head is the oldest ready hit on an open row; failing that, of those that would close no row another waits for, the oldest ready one, else the oldest |
| ControllerTurns.RunServesWrites | ramulator/Controller.h:353-423 | a tick that ends in write mode with no refresh waiting leaves the reads as they are, and issues the first command of the write picked if that is ready |
| ControllerTurns.RunServesReads | ramulator/Controller.h:353-423 | in read mode the same with reads and writes exchanged |
| ControllerTurns.RunServesRefreshes | ramulator/Controller.h:353-423 | while a refresh waits neither reads nor writes change, and the command is for the refresh picked |
| ControllerRecords.RunRecords | ramulator/Controller.h:324-422 | a service starts with the first command of a read or write and ends with the WR of a write or when a read from the DRAM is answered, at the clock of that tick; no step starts or ends any other |
| ControllerRecords.RunRowEntries | ramulator/Scheduler.h:224-259 | an entry of the row table counts the reads and writes to its bank since the activate that opened it, and holds the clock of the last of these commands |
| ControllerBus.ScheduledEffect | ramulator/Controller.h:353-423 | the scheduling phase issues at most the first command of the request picked; the request leaves its queue exactly with its last command, and the other queues stay as they are |
| ControllerBus.RunIssues | ramulator/Controller.h:353-423 | in every run a step puts at most one command on the bus, so every command issued was the one command of some step |
| ControllerBus.FirstCmdIs | ramulator/DDR3.cpp:93-118 | the first command of a read or write is ACT for a closed bank, PRE for a bank open on another row, and the access itself on the open row |
| ControllerBus.HitIsView | ramulator/Controller.h:436-453 | is_row_hit and is_row_open through the tree say whether the addressed bank is open, and on that row |
| ControllerBus.NoPrechargeOfAHit | ramulator/Scheduler.h:60-100 | where the head of a queue needs a PRE, no request of that queue hits the row that would be closed |
| ControllerBus.RunNoPrechargeOfAHit | ramulator/Scheduler.h:60-100 | in every run, when a PRE goes on the bus, no request in the queue being served hits the open row of that bank |
| ControllerBus.RefreshFindsBanksClosed | ramulator/DDR3.cpp:119-125 | a refresh request needs REF if and only if every bank of its rank is closed, if and only if the row table has no entry of the rank; otherwise it needs PREA |
| ControllerBus.RunRefreshFindsBanksClosed | ramulator/Controller.h:358-405 | in every run, when a REF goes on the bus, every bank of its rank is closed in the tree and absent from the row table |
| Controller.Controller.constructor | ramulator/Controller.h:95-110 | a fresh controller over a fresh channel satisfies the invariant |
| Controller.Controller.Enqueue | ramulator/Controller.h:298-315 | refuses exactly when 32 requests of its kind wait; otherwise the request, stamped with the clock, joins its queue, or is answered at the next clock if it reads an address waiting to be written |
| Controller.Controller.GetFirstCmd | ramulator/Controller.h:486-490 | decode in memory; no assert(false) of a prerequisite is reached |
| Controller.Controller.IsReady | ramulator/Controller.h:425-429 | check in memory for the first command |
| Controller.Controller.ServeReads | ramulator/Controller.h:324-336 | phase 1 in place |
| Controller.Controller.TickRefresh | ramulator/Refresh.h:72-108 | phase 2 in place: one refresh per rank when due |
| Controller.Controller.ChooseMode | ramulator/Controller.h:341-351 | phase 3 in place |
| Controller.Controller.PickHead | ramulator/Controller.h:353-358 | get_head on the given queue, its questions asked of the tree in memory |
| Controller.Controller.StartService | ramulator/Controller.h:369-374 | the first command of a request starts its service once |
| Controller.Controller.IssueCmd | ramulator/Controller.h:492-496 | tree and row table updated in place; the assert is_ready and the table's asserts hold |
| Controller.Controller.Finish | ramulator/Controller.h:407-422 | the last command finishes the request |
| Controller.Controller.Schedule | ramulator/Controller.h:353-423 | phase 4 in place: the rule's head, and what follows from it |
| Controller.Controller.Tick | ramulator/Controller.h:317-423 | one tick of the controller in memory is one tick of the state machine and keeps the whole invariant |
| CacheLines.AlignIsBlock | ramulator/Cache.h:102-105 | two addresses align alike exactly when they lie in one block |
| CacheLines.SameSlot | ramulator/Cache.h:94-100 | index and tag together name the block, and nothing more |
| CacheLines.EraseAt | ramulator/Cache.cpp:217-231 | erasing a line removes the copy of its block and of no other |
| CacheLines.TouchAt | ramulator/Cache.cpp:119-122 | push_back and erase replace the copy of one block and leave the set in order of age |
| CacheLines.PushAt | ramulator/Cache.cpp:325-329 | pushing a line adds the copy of one block |
| CacheLines.ReplaceAt | ramulator/Cache.cpp:152-157 | a change through an iterator changes the copy of one block |
| CacheLines.PushedMshr | ramulator/Cache.cpp:183-184 | a new locked line and its entry keep locked lines and MSHR entries in one-to-one correspondence |
| CacheLines.UnlockedMshr | ramulator/Cache.cpp:373-376 | unlocking a line and erasing its entry keep the correspondence |
| CacheCopies.CheckUnlockExact | ramulator/Cache.h:150-173 | under inclusion check_unlock answers whether any copy of the block, here or above, is locked |
| CacheCopies.EvictableExact | ramulator/Cache.cpp:305-317 | so does the victim test for a line of the set |
| CacheEviction.InvalidateEffect | ramulator/Cache.cpp:213-252 | invalidate removes the block from this cache and all above it, touches nothing else, reports whether any copy was dirty, and its assert never fires on an unlocked subtree |
| CacheEviction.EvictLineEffect | ramulator/Cache.cpp:197-211 | evictline finds the line (its asserts hold), unlocks it, inherits the dirty bit and refreshes its age |
| CacheEviction.EvictEffect | ramulator/Cache.cpp:255-297 | evict takes the block out of the whole subtree; the level below inherits the dirty data, or memory is asked for one write, exactly when some copy was dirty |
| CacheInvariant.EvictedMshr | ramulator/Cache.cpp:255-297 | an eviction erases no line an MSHR entry refers to |
| CacheInvariant.EvictedHole | ramulator/Cache.cpp:255-297 | an eviction keeps inclusion, also while a miss is on its way down |
| CacheInvariant.EvictedLedger | ramulator/Cache.cpp:255-297 | after an eviction the ledger of written blocks is still exactly the blocks with a dirty copy |
| CacheInvariant.PushLineEffect | ramulator/Cache.cpp:325-330 | the new line is locked and its entry refers to it |
| CacheAcceptance.VictimExact | ramulator/Cache.cpp:305-320 | a victim is found exactly when some block of the set is unlocked in the whole subtree |
| CacheAcceptance.SinksStable | ramulator/Cache.cpp:176-189 | an eviction on one level changes no answer of the levels below |
| CacheVictims.InvalidateTime | ramulator/Cache.cpp:213-252 | the delay of invalidate, told from the state before: nothing for an empty set, its own latency for an absent block, else its own or that and the slowest level above, counted twice for dirty data |
| CacheVictims.EvictHands | ramulator/Cache.cpp:255-297 | a victim is handed to the level below as the youngest line of its set, or, if dirty at the last level, to memory as one write of its address at the clock plus the slowest purge above plus the accumulated latency |
| CacheVictims.VictimOldest | ramulator/Cache.cpp:305-320 | the victim is the line touched the longest ago among those unlocked in the whole subtree |
| CacheVictims.AllocateExact | ramulator/Cache.cpp:299-330 | the new line is locked; in a full set that victim has gone from the whole subtree and been handed on; no other copy anywhere has changed |
| CacheSend.TrulyAbsent | ramulator/Cache.cpp:349-363 | a miss that is not outstanding has no copy here: the assert(false) of need_eviction is unreachable |
| CacheSend.SendEffect | ramulator/Cache.cpp:103-195 | a request is taken exactly when the cache holds the block or has an entry and a way for it; refused it changes nothing, taken it keeps every invariant except, when a level below refuses, inclusion |
| CacheRuns.AccessExact | ramulator/Cache.cpp:186-193 | from a good state, an access keeps every invariant if and only if every level below takes the request in turn, which is decided by the state before the call |
| CacheTraffic.SendAnswered | ramulator/Cache.cpp:103-195 | whatever the levels below answer, a request puts on hit_list exactly one hit, for the first cache on its way that holds the block unlocked, at the clock plus the latencies down to it, or none; on wait_list at most one write-back, of a written block that has left every cache, and then exactly one read if no cache on the way holds the block; every cache it reaches holds the block afterwards, newly locked or as the youngest line |
| CacheTraffic.AccessAnswered | ramulator/Cache.cpp:103-195 | the same of a request from a core |
| CacheTraffic.FetchIsMiss | ramulator/Cache.cpp:186-193 | memory is read exactly when a request arrives at a last level without the block; the last level has it afterwards |
| CacheRuns.CallbackEffect | ramulator/Cache.cpp:365-383 | a callback unlocks the block in this cache and all above, and changes nothing else |
| CacheRuns.CallbackInv | ramulator/Cache.cpp:365-383 | a callback on a last-level cache keeps every invariant |
| CacheTheorems.StepInv | ramulator/Cache.cpp:103-416 | of all events only a request refused below breaks the invariant, and every such request does |
| CacheTheorems.RunInv | ramulator/Cache.cpp:103-416 | over any run in which no lower level refuses, every invariant holds and no assert or erased iterator is ever reached |
| CacheTheorems.SingleLevelRun | ramulator/Cache.cpp:103-416 | with one level the same holds without any guard |
| CacheTheorems.RunSets | ramulator/Cache.cpp:349-363 | in every reachable state a set holds at most assoc lines, with distinct tags, in order of age |
| CacheTheorems.RunMshr | ramulator/Cache.cpp:150-184 | in every reachable state a line is locked exactly when one MSHR entry refers to it, and every entry refers to a line still in the cache |
| CacheTheorems.RunInclusion | ramulator/Cache.cpp:186-330 | in every reachable state what a cache holds the cache below holds, and what is unlocked here is unlocked there |
| CacheTheorems.DrainConserves | ramulator/Cache.cpp:390-401 | the loop over wait_list loses and invents no entry, and sends what it takes off in order |
| CacheTheorems.DrainReady | ramulator/Cache.cpp:390-401 | memory is handed only entries that are ready, and an entry leaves only if memory took it |
| CacheTheorems.HitsSplit | ramulator/Cache.cpp:403-415 | exactly the ready hits are called back |
| CacheTheorems.WaitConserved | ramulator/Cache.cpp:255-401 | over any stretch of a run, as multisets: wait_list at the end and the entries memory has taken are wait_list at the start and the entries put on it |
| CacheTheorems.WaitPersists | ramulator/Cache.cpp:390-401 | of the entries equal to a given one, as many as were on wait_list are still there or have been taken by memory since |
| CacheTheorems.NoDirtyLost | ramulator/Cache.cpp:103-401 | for every written block, at any later time some cached copy is dirty, or a write of the block has since been put on wait_list and is still there or was taken by memory |
| CacheTheorems.WriteIsCovered | ramulator/Cache.cpp:119-157 | every accepted write is covered by that statement |
| CacheAnswers.HitsConserved | ramulator/Cache.cpp:119-416 | over any stretch of a run, as multisets: hit_list at the end and the entries called back are hit_list at the start and one entry for each request that found its block unlocked |
| CacheAnswers.CalledOnTime | ramulator/Cache.cpp:403-415 | every hit is called back at the tick that reaches its time, never early and never late |
| CacheAnswers.RunPuts | ramulator/Cache.cpp:186-293 | what a step puts on wait_list: a request its write-back and its fetch, every other step nothing |
| CacheAnswers.FetchesConserved | ramulator/Cache.cpp:186-401 | the reads on wait_list and those memory has taken are those at the start and one for each request that found its block in no cache |
| CacheTheorems.RefusalBreaksInclusion | ramulator/Cache.cpp:186-188 | a concrete two-level cache in which the ignored refusal of the lower send leaves a block above that is absent below |
| CacheSystem.Hierarchy.FindVictim | ramulator/Cache.cpp:305-320 | the search for the first evictable line |
| CacheSystem.Hierarchy.IsUnlocked | ramulator/Cache.h:150-173 | check_unlock with its loop over the higher caches |
| CacheSystem.Hierarchy.Invalidate | ramulator/Cache.cpp:213-252 | back-invalidation in place: the new state, the delay and the dirty flag |
| CacheSystem.Hierarchy.EvictLine | ramulator/Cache.cpp:197-211 | evictline in place |
| CacheSystem.Hierarchy.Evict | ramulator/Cache.cpp:255-297 | evict in place |
| CacheSystem.Hierarchy.Allocate | ramulator/Cache.cpp:299-330 | allocate_line in place |
| CacheSystem.Hierarchy.Send | ramulator/Cache.cpp:103-195 | send in place, down the levels |
| CacheSystem.Hierarchy.Access | ramulator/Cache.cpp:103-195 | a core's request in place; it is taken, and keeps the invariant, exactly under the stated conditions, and makes exactly the hit, the write-back and the fetch told from the state before |
| CacheSystem.Hierarchy.Callback | ramulator/Cache.cpp:365-383 | callback in place, lower cache first |
| CacheSystem.Hierarchy.Tick | ramulator/Cache.cpp:385-416 | both loops of a tick in place |
| RefreshBook.GrantOk | ramulator/Refresh.cpp:90-94 | a refresh and its credit keep every account: credit is refreshes issued minus slots elapsed, and subarrays go round in turn |
| RefreshBook.SlotOk | ramulator/Refresh.cpp:109-116 | a refresh slot keeps every account, and slot j belongs to bank j mod banks |
| RefreshBook.SlotsExact | ramulator/Refresh.cpp:115-116 | after n slots bank b has had ceil((n - b) / banks) of them |
| RefreshBook.RefreshRate | ramulator/Refresh.cpp:90-116 | a bank has had exactly the refreshes that were due, ceil((slots - b) / banks), plus its credit |
| RefreshBook.RoundRobin | ramulator/Refresh.cpp:145-149 | the k-th refresh of a bank (from 0) goes to subarray k mod the number of subarrays |
| RefreshSteps.EarlyCredits | ramulator/Refresh.cpp:85-94 | pulling in never takes a credit above its bound |
| RefreshSteps.WriteCredits | ramulator/Refresh.cpp:215-222 | nor does the refresh of wrp, even where it takes a bank to eight |
| RefreshSteps.InjectOneCredits | ramulator/Refresh.cpp:112-147 | a slot costs one credit, and a bank out of credit is refreshed at once, so no credit falls below -7 and in-order credits stay 0 |
| RefreshSteps.InjectCredits | ramulator/Refresh.cpp:108-150 | an injection that succeeds keeps every credit within bounds and advances every rank by one slot |
| RefreshSteps.WholeRankOk | ramulator/Refresh.cpp:102-105 | a rank-level refresh touches no bank's account |
| RefreshSteps.GiveReceived | ramulator/Refresh.h:98-109 | the queue receives a refresh of the bank at the subarray whose turn it is, and nothing else |
| RefreshSteps.InjectReceived | ramulator/Refresh.cpp:101-153 | an injection appends to the queue exactly the targets newly on record, in order; with whole ranks, one for each rank |
| RefreshSteps.EarlyIsLate | ramulator/Refresh.cpp:85-94 | a bank refreshed early has used up seven credits, the last but one of its slack |
| Refresh.Scheduler.constructor | ramulator/Refresh.cpp:24-42 | all accounts start in order |
| Refresh.Scheduler.Refresh | ramulator/Refresh.h:98-109 | refresh_target and its bookkeeping; it fails exactly when the queue is full, and otherwise the queue receives exactly the recorded target |
| Refresh.Scheduler.PickEarly | ramulator/Refresh.cpp:64-96 | the bank pulled in is idle, not already waiting, below the early threshold and has room; none is picked only if no bank of the rank qualifies |
| Refresh.Scheduler.EarlyInject | ramulator/Refresh.cpp:45-98 | nothing in write mode; otherwise every rank, in the state the ranks before it have left, pulls in a bank that qualifies, or none exactly when none does; the queue receives exactly the recorded targets |
| Refresh.Scheduler.Demand | ramulator/Refresh.cpp:178-197 | the demand of each bank is its queued writes plus its queued reads |
| Refresh.Scheduler.PickIdle | ramulator/Refresh.cpp:199-213 | whatever the sort does with ties and whatever is drawn, a least demanded bank is chosen, and none exactly when the rank has no write |
| Refresh.Scheduler.WriteRank | ramulator/Refresh.cpp:165-223 | that bank is refreshed exactly when no refresh waits in the rank, its credit is below eight and the queue has room |
| Refresh.Scheduler.WriteRefresh | ramulator/Refresh.cpp:162-224 | every rank in turn, in the state the ranks before it have left; the queue receives exactly the recorded targets |
| Refresh.Scheduler.InjectRank | ramulator/Refresh.cpp:108-150 | the slot of the next bank elapses and is used at once or skipped: always used by in-order policies, otherwise when nothing else is going on or the credit is spent |
| Refresh.Scheduler.Inject | ramulator/Refresh.cpp:101-153 | an injection rank by rank; it stops where the queue is full, and otherwise the queue receives exactly the recorded targets, one per rank with refreshes of whole ranks |
| Refresh.Scheduler.RefreshAround | ramulator/Refresh.cpp:237-247 | wrp on the turn to writes only, then the early refreshes; accounts and credits stay in order |
| Refresh.Scheduler.Tick | ramulator/Refresh.cpp:228-252 | the exact new accounts and queue of a tick, part by part: the queue receives exactly the recorded targets; credits lie in -7..8 (0 when in order) and injections equal floor(clk / interval) afterwards; it fails only where an injection finds the queue full |
| Refresh.RateGuarantee | ramulator/Refresh.cpp:228-252 | between any two ticks bank b has had between ceil((N - b) / B) - 7 and that plus 8 refreshes, and exactly that many when refreshes are in order |
| Refresh.WholeRate | ramulator/Refresh.cpp:101-105 | with refreshes of whole ranks every rank has been given exactly floor(clk / interval) of them |
| Refresh.Injections | ramulator/Refresh.cpp:249-251 | the number of injections is the whole intervals elapsed |
| Refresh.InsertSorted | ramulator/Refresh.cpp:199-200 | the sort leaves some ordering of the pairs by demand |
| Refresh.AtMostOneZero | ramulator/Refresh.cpp:202-213 | the first entry that does not name bank 0 is the first or the second, so the draw is always of the first |
| AddressMap.Log2Bounds | ramulator/Memory.h:404-409 | calc_log2 is the floor of the logarithm |
| AddressMap.IsPow2Exact | ramulator/Memory.h:104-105 | the test of the counts accepts the powers of two and no other number |
| AddressMap.ComposeDigits | ramulator/Memory.h:410-415 | the slices put together give back the sliced bits of the address |
| AddressMap.DigitsCompose | ramulator/Memory.h:410-415 | any slices in range are the slices of the number they compose |
| AddressMap.SumWidths | ramulator/Memory.h:293-303 | both mapping types slice the same number of bits |
| AddressMap.VectorComponents | ramulator/Memory.h:293-303 | what each component is: with RoBaRaCoCh the channel is the lowest bits, then the column, then rank, bank and row; with ChRaBaRoCo the levels in order from the top |
| AddressMap.VectorUnique | ramulator/Memory.h:293-303 | two transactions have the same vector if and only if they agree in the sliced bits |
| AddressMap.MaxAddressExact | ramulator/Memory.h:106-122 | max_address is 2^(tx_bits + sum of addr_bits) if and only if every count is a power of two, and more otherwise |
| AddressMap.MapInjective | ramulator/Memory.h:284-306 | under either mapping no two transactions below max_address share a vector if and only if every count is a power of two |
| AddressMap.MapOnto | ramulator/Memory.h:284-306 | every vector in range is the vector of an address below max_address |
| AddressMap.MapInRange | ramulator/Memory.h:284-306 | every component is a real entry of its level, columns in units of bursts |
| Memory.Memory.CalcLog2 | ramulator/Memory.h:404-409 | the shift loop computes it |
| Memory.Memory.constructor | ramulator/Memory.h:96-134 | widths, transaction bits, max_address and the free pages as the source sets them up |
| Memory.Memory.Slice | ramulator/Memory.h:293-303 | the destructive slicing loop leaves in each component the bits described, for both orders |
| Memory.Memory.AddressVector | ramulator/Memory.h:284-306 | the vector of a whole address, component by component |
| Memory.Memory.Probe | ramulator/Memory.h:371-385 | the probing loop terminates on a free page whenever the count is positive, so the assert holds |
| Memory.Memory.Assign | ramulator/Memory.h:369-390 | a new virtual page takes a page that was free, and the count drops by one |
| Memory.Memory.Replace | ramulator/Memory.h:364-368 | with no page left a used page is shared, and the assert holds |
| Memory.Memory.Translate | ramulator/Memory.h:349-398 | offsets are kept, known pages keep their translation, the count stays exact, and translations are injective exactly until the first replacement |
| Memory.FreeCountTake | ramulator/Memory.h:387-389 | taking a free page lowers the number of free pages by one |
| Salp.OffendingFound | ramulator/Controller.cpp:11-25 | when another subarray is open, get_offending_subarray finds one |
| Salp.PreOtherHasTarget | ramulator/Controller.cpp:28-34 | PRE_OTHER is called for only when it does, and no assert(false) of a prerequisite is reached |
| Salp.DeselectExact | ramulator/SALP.cpp:384-396 | the deselecting loop, which stops at the first match, leaves no other subarray selected |
| Salp.EffectOk | ramulator/SALP.cpp:314-423 | the first command of a read or write keeps its bank in order under all three mechanisms |
| Salp.EffectExact | ramulator/SALP.cpp:314-423 | which command the subarrays of a bank call for, and what it leaves in each of them: the addressed one is opened, selected or shut, under MASA the one selected before stays open with its row, PRE_OTHER shuts the first other open one, and all others keep state and row |
| Salp.StepExact | ramulator/SALP.cpp:109-423 | the step of a request changes the addressed bank in that way and no other bank; a refresh leaves every subarray of its rank shut |
| Salp.StepInv | ramulator/SALP.cpp:109-423 | the first command of any request keeps every bank in order |
| Salp.IssuedExclusive | ramulator/SALP.cpp:121-199 | a read or write is issued if and only if its row alone is open in its subarray and no other subarray of the bank is open (under MASA: selected); a refresh if and only if every subarray of the rank is closed |
| Salp.Salp1Open | ramulator/SALP.cpp:316-344 | under SALP-1 a bank is Opened exactly when exactly one of its subarrays is open, with one row |
| Salp.RunExclusive | ramulator/SALP.cpp:109-423 | both hold in every run, whichever request is served at each step |
| Salp.ChainExact | ramulator/SALP.cpp:121-199 | repeating a request issues exactly the number of commands its bank's state calls for, each but the last bringing it one closer |
| SalpChannel.Channel.FindOffending | ramulator/Controller.cpp:11-25 | the search loop |
| SalpChannel.Channel.GetFirstCmd | ramulator/SALP.cpp:109-199 | the prerequisites with their loops |
| SalpChannel.Channel.Apply | ramulator/SALP.cpp:314-423 | the lambdas of one bank in place, the deselecting loop included |
| SalpChannel.Channel.CloseRank | ramulator/SALP.cpp:334-339 | the nested loops of PRER |
| SalpChannel.Channel.Serve | ramulator/Controller.cpp:28-46 | the first command goes to the subarray it is meant for; reads, writes and refreshes are issued exactly where the mechanism allows them |

## Left out

- Cache objects linked by pointers: the caches are entries of one object, named by index, with the tree they form as a constant; each set is replaced as a whole, so aliasing between set references is not captured.
- Creation of empty sets by `get_lines`: a missing set and an empty one are the same, so the first assert of `evictline` is subsumed by the second.
- Callbacks as closures: an answered read is a log entry with its clock; a reply from memory reaches the caches as a separate event, not from within a tick.
- `next` and `prev` as fixed arrays: they are maps, a missing key standing for the initial -1 or the empty history.
- SALP on the generic tree: its lambdas look at the parent and the siblings of a node, so they are stated on whole banks. The SALP timing tables are not part of this model.
- Speed tables and the derived refresh parameters: the DDR3 speed entry is a record of symbolic values, so the theorems hold for every speed grade.
- DramNode.Dram.UpdateTiming: the refresh statistics of target nodes (refresh_cycles, begin_of_refreshing, end_of_refreshing, refresh_intervals) are not kept; the assert among them is proved as Ddr3.RefreshEntryIsCurrent.
- DramNode.Dram.UpdateServing: end_of_serving and active_refresh_overlap_cycles, which read those statistics, are not kept.
- Statistics of row hits, conflicts and latencies, and the queue-length sums of `tick`.
- Controller.Controller.TickRefresh: the temperature update of the refresh tick is empty for DDR3 and not modelled.
- AddressMap.Log2Bounds: the bit test for powers of two in the constructor is stated as being one, not as a bit operation.
- The policies `FCFS`, `FRFCFS` and `FRFCFS_Cap`, with `RowTable::get_hits`, whose lookup inserts entries, and the row policies `Closed` and `Timeout`, whose victims are shorter than an address.
- `SpeedyController`, and the controller specialisations for TL-DRAM and AL-DRAM, which change request types or timing tables during a run.
- The other DRAM standards: the same state machine with other constants.
- Trace files, configuration parsing, the processor's window, printing, the Gem5 wrapper, and the Patmos pipeline, whose deciding code is not part of this model.
