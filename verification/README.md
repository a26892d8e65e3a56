# NeuPIMs simulator: a verified model

This project models the state machines of the NeuPIMs simulator and proves what they keep over every run. The simulator
joins a neural processing unit with processing-in-memory DRAM; its results depend on protocols that nothing in it checks
as a whole: two row buffers per bank, a command queue that reorders, a controller that buffers and forwards, a core that
flushes half a scratchpad while the other half works, a scheduler that splits batches and maintains a ready list.

Run `dafny verify dfyconfig.toml` here to check everything.

## How the model is built

Code that changes state step by step appears twice: as a specification on values (a datatype and functions), and as a
class or method with the original's loops, proved equal to it. Properties of runs are lemmas about the specification.

| files | what they model |
|---|---|
| `Commands`, `Banks`, `Channels`, `ChannelState`, `ChannelRuns`, `ChannelScopes`, `BusTiming` | command alphabet, a bank with a normal and a PIM row buffer, a channel of banks, its class over a three-dimensional array, runs of issued commands against any timing table, scope by scope, and against the computed one |
| `Queues`, `NeuPims`, `NeuPimsCommandQueue`, `NeuPimsOrder`, `SlackBudget`, `DualBuffer`, `DualBufferDriven`, `DualBufferLimits`, `DualBufferExit`, `DualBufferCalm`, `DualBufferReach`, `DualBufferExitRun`, `DualPim` | the NeuPIMs command queue with header reservation, which command goes and what slack it spends, the dual-buffer protocol across queue, channel and bank, and the queue's one exit |
| `Refresh`, `DramQueue`, `QueueOrder`, `CommandQueue`, `RefreshProgress`, `RefreshLiveness` | the refresh unit, the plain DRAM command queue with one or two commands a cycle, which entry goes first, latched refreshes and how long they wait |
| `DualIssueLimits`, `DualIssueRuns`, `DualIssuePiles`, `DualIssueLoss`, `DualIssueTiming`, `TimingTable`, `LateQueues`, `StrandedReads`, `DualIssueWitness` | when the second command of a cycle is lost, and what becomes of it; the computed timing table |
| `Transactions`, `Books`, `ControllerModel`, `WriteDrains`, `AnswerTimes`, `DramController`, `MemoryRuns` | the DRAM controller with its queues, buffers and pending maps, when it drains writes and when it answers, and whole runs against a flat memory |
| `Scratchpad`, `CoreModel`, `CoreSafety`, `CoreWork`, `CoreFlow`, `CoreRoom`, `CoreBytes`, `NeuPIMSCore`, `Counting` | a core's systolic side: tiles, counters, alternating scratchpad halves, what work waits for, the way of instructions and tiles, room for loads |
| `Tiling`, `MatMul`, `MatMulGrid`, `MatMulLoops` | tile sizes of a matrix multiplication, the instructions of a tile, the grid of tiles, sizes and tiles together |
| `Partition`, `ReadyList`, `TileScheduler`, `ChannelBalance` | optimal two-way split, incremental ready list over an operation graph, launching and finishing the tiles of listed operations, longest-first load balancing |
| `Interconnect`, `CrossingTimes` | the simple interconnect, and when packets cross it |
| `Ledger`, `LedgerHistory` | the busy/idle ledger of loads and stores, and its histograms against the history of a run |
| `Bits`, `AddressCodec`, `AddressRoundTrips` | bitwise operations on naturals, configurable address layouts, encoders and decoders |

## Main results

- Dual buffers: with a well-formed PIM stream and no refresh between a header and its last compute, no bank ever has one
  row in both buffers, and a compute issues only when every bank of the channel has the header's row in its PIM buffer.
  Without the refresh assumption exclusion fails; a concrete run shows it. Under it, for every configuration, queue
  structure and latency estimate, some run reaches the queue's one exit exactly when the channel has more than one rank.
  Both kinds of run are driven as the controller drives them: refreshes on time, the slack as reported, one command a
  cycle, GWRITEs done after their delay. The refresh interval must have room for one header with its compute and for a
  refresh and a GWRITE; that of the dual-buffer HBM2 configuration has.
- Timing: for any table, an issued command delays every later certified command as the table says, two commands in one
  cycle included, every scope spelled out, and nothing else is waited for; five activations of a rank always span tFAW.
  Under the computed table bursts on the data bus never overlap, and every read and write finds its row open.
- Queues: a selection takes the first entry that is ready and may go, of the first queue that has one; no write passes
  an earlier read of its location. While a GWRITE waits, the normal commands taken never cost more than the slack it
  left before the next refresh.
- Memory: every answered read has the value a flat memory held when the read was added; each read is answered or waiting
  exactly once. With single issue this holds for any timing table; with dual issue it needs a positive delay between any
  two reads or writes in every scope the channel has. A full write buffer always starts a drain, which ends after the
  writes it counted; answers come exactly a read delay after their READ.
- Dual issue: for every configuration and table, some run loses a read or write exactly when such a delay is missing;
  in these runs at most one command enters between two cycles and refreshes come on time. With the delays the simulator
  computes, that is when read and write latency differ by the burst plus the rank switch or more (with one rank only if
  the write latency is the larger one). With the HBM2 values the controller itself, fed one request a cycle, loses a
  read, and that read is never answered.
- Refresh: a latched refresh only closes buffers of its rank, and REFRESH issues only when all are closed. In every run
  it has issued after the longest delay of a precharge or refresh, taken once and again for each open buffer of the
  rank.
- Scratchpads: in every run gated by `can_issue`, a flush drops no entry that awaits a fill, and every response and every
  finished computation finds its tile and its entry. A computation starts exactly when its operands are loaded, the gate
  opens exactly when nothing outstanding stands against it, every instruction leaves its queue once, in order, every
  tile comes back once, and no scratchpad load of a tile that fits is refused.
- Scheduling: split by the programme, the two sub-batches of each channel differ as little as any choice of its requests
  allows; the ready list's runs are exactly the topological orders of the graph; with tiles coming back in any order,
  operations finish in one fixed order and the program never waits for nothing; longest-first balancing is within
  4/3 - 1/(3k) of any assignment.
- Multiplication: tile sizes end exactly when one block per operand fits; the grid visits every block once and stores
  every output once, after its contributions; each tile loads each operand block once, and the first of an accumulation
  its biases; for any dimensions the multiplication is refused exactly unless every dimension divides into its outer
  count of whole blocks.
- Interconnect: the first r due packets of a source leave within its turn plus r - 1 rounds, whatever the others do;
  order and contents are preserved; the n-th packet since a buffer was last empty is due n cycles after the first.
- Ledger: online busy times equal the number of cycles with work outstanding, and each histogram counts exactly the
  periods between events.
- Addresses: decoding undoes encoding exactly on in-range fields, for any field order.

## What the code does that one might not expect

- A refresh that completes between a header and its compute clears the reservation while the compute still raises a
  group activation without comparing rows, so both buffers can hold one row (`DualBufferLimits`).
- The only exit a NeuPIMs queue cycle can reach is one assertion in the selection of normal commands: with slack left and
  PIM work queued, an entry that finds its row in the PIM buffer needs PIM_PRECHARGE (`DualBufferExit.ExitExactly`).
  With more than one rank some run reaches it: the refresh of one rank drops the reservation while the other ranks' PIM
  buffers stay open (`DualBufferExitRun`).
- Dual issue erases a second read or write before deciding whether to issue it. With the HBM2 values a write of one rank
  and a ready read of the other lose the read, since that delay is -6 (`DualIssueTiming.Hbm2LosesARead`). The controller
  reaches such a cycle (`DualIssueWitness`), and keeps the read pending for good (`StrandedReads`).
- The refresh unit reports a whole interval of slack in the cycle right before a refresh, its clock having advanced
  already; in every other cycle the slack is one less than the cycles left (`Refreshes.SlackHoldsExactly`).
- An activation address outside its tensor refuses the multiplication like any other, since `NPUTensor::get_addr` throws;
  the branch of `MatMul.cc` that skips such addresses is never taken (`MatMul`).
- Adding zero loads or stores to an idle side of the ledger opens a busy period (`Ledger.ZeroAddOpensBusyPeriod`).
- The first ready list repeats an operation registered twice on the start tensor (`ReadyLists.StartListIsDistinct`).
- A header asking for 256 computations or more loses their number: the logarithm keeps four bits, so it is decoded as a
  deprecated kind or, from 65536 on, possibly as a header with a smaller count (`AddressRoundTrips.HeaderSurvives`).
- A packet pushed into a buffer that is not empty is due one cycle after the one before it, however late it comes, so it
  can cross with less than the latency; `CrossingTimes.FullLatencyExactly` says when, `CrossingTimes.SecondIsEarly` is
  such a run.
- The rotation start of the interconnect is never initialised; the results hold for any start.
- The read/write dependency check compares bankgroup, bank, row and column but not rank; this only delays a write.

## Model

| member | source | states |
|---|---|---|
| Banks.CertifiedUpdateIsDefined | src/cpp/extern/NewtonSim/src/bankstate.cc:71-293 | a command a bank certifies never reaches an exit branch of that bank's update, has met its earliest time, keeps the request's address, and an ACTIVATE never opens the row of the PIM buffer |
| Banks.EveryPreparationIsAStep | src/cpp/extern/NewtonSim/src/bankstate.cc:71-293 | a bank answers with the request itself exactly when nothing is left to prepare; every preparation it asks for is one of the closings and openings still needed, and with no delay pending it always answers |
| Banks.SilenceIsADelay | src/cpp/extern/NewtonSim/src/bankstate.cc:277-293 | a bank that does not answer waits for one earliest time, and from then on answers with that command |
| Channels.ReadyIsCertified | src/cpp/extern/NewtonSim/src/channel_state.cc:155-289 | whatever the request, a ready answer was certified for exactly that command type by every bank it gates on, within the activation window |
| Channels.ScanCertifies | src/cpp/extern/NewtonSim/src/channel_state.cc:161-225 | a scan over banks answers with a command one of its banks raised, or with the request itself only if every bank went ahead |
| Channels.GroupScanCertifies | src/cpp/extern/NewtonSim/src/channel_state.cc:227-267 | a queried G_ACT goes ahead only as itself, if every bank of its group does and the activation window is open |
| ChannelRuns.CertifiedNeverAborts | src/cpp/extern/NewtonSim/src/channel_state.cc:378-419 | issuing a certified command reaches no exit branch in any bank it affects |
| ChannelRuns.TimingSoundness | src/cpp/extern/NewtonSim/src/channel_state.cc:423-690 | for any table and any run: if an issued command delays a type at a bank by d, any later command of that type certified by the bank issues at least d cycles later; what each command delays is spelled out scope by scope in `ChannelScopes` |
| ChannelRuns.ActivationWindows | src/cpp/extern/NewtonSim/src/channel_state.cc:692-736 | in every run the window lists never exceed four and thirty-two entries, and any five (33) consecutive activations of a rank span tFAW (t32AW) |
| ChannelRuns.FiveActivationsSpanTFAW | src/cpp/extern/NewtonSim/src/channel_state.cc:282-286 | any five consecutive activations of a rank span at least tFAW |
| ChannelScopes.BankCommandsAreWaitedOut | src/cpp/extern/NewtonSim/src/channel_state.cc:423-536 | in every run, after a read, write, ACTIVATE, PRECHARGE, GWRITE or PIM_PRECHARGE: its own bank, its group, its rank and the other ranks each wait out the row of their scope |
| ChannelScopes.WideCommandsAreWaitedOut | src/cpp/extern/NewtonSim/src/channel_state.cc:471-536 | in every run a refresh holds its rank for the row of its rank, a group activation its group and its rank, a compute the whole channel |
| ChannelScopes.ComputesAreWaitedOut | src/cpp/extern/NewtonSim/src/channel_state.cc:641-664 | in every run the next compute waits for the larger of burst and tCCD_S, once for every computation, at least six, and once more |
| ChannelScopes.EveryTimeIsExplained | src/cpp/extern/NewtonSim/src/channel_state.cc:565-684 | and nothing else is waited for: in every run each earliest time of a bank is 0 or comes from a row of a scope that relates an issued command to the bank |
| ChannelScopes.RowsAreLogged | src/cpp/extern/NewtonSim/src/bankstate.cc:296-420 | in every run both row buffers and the hit count of a bank are what the issued activations, precharges and accesses say |
| ChannelScopes.WindowsPassExactly | src/cpp/extern/NewtonSim/src/channel_state.cc:692-736 | in every run an ACTIVATE passes the windows exactly if the fourth activation of its rank before it is tFAW back (and on GDDR the 32nd t32AW) |
| ChannelScopes.OneLeaves | src/cpp/extern/NewtonSim/src/channel_state.cc:84-99 | an issued refresh takes one waiting refresh of its rank out of the queue and none of another |
| BusTiming.BurstsNeverOverlap | src/cpp/extern/NewtonSim/src/timing.cc:17-34 | under the computed table, in every run: bursts on the data bus come in the order of their commands and never overlap, and the bus rests tRTRS or tWTR where it changes direction or rank |
| BusTiming.BankTimes | src/cpp/extern/NewtonSim/src/timing.cc:36-81 | in every run the commands of one bank keep the row cycle, tRAS, tRP, the activate, read and write delays, and the time a GWRITE takes |
| BusTiming.RankTimes | src/cpp/extern/NewtonSim/src/timing.cc:243-496 | in every run the commands of one rank keep tRRD, tRFC, tFAW, tRP before a refresh, and the times around group activations and computes |
| BusTiming.ColumnsFindTheirRow | src/cpp/extern/NewtonSim/src/bankstate.cc:71-293 | every read, write and GWRITE of a run comes its activate delay or more after the ACTIVATE of its row in its bank, with no other ACTIVATE or PRECHARGE of the bank between |
| ChannelStates.ChannelState.GetReadyCommand | src/cpp/extern/NewtonSim/src/channel_state.cc:155-289 | the class answers every query as the specification of the channel: a scan of the channel, a rank or a bank group, or one bank and the activation window |
| ChannelStates.ChannelState.ScanGroup | src/cpp/extern/NewtonSim/src/channel_state.cc:227-267 | the loop over a bank group computes the specified scan, activation window included |
| ChannelStates.ChannelState.ScanBanks | src/cpp/extern/NewtonSim/src/channel_state.cc:161-225 | the nested loops over banks compute the specified scan |
| ChannelStates.ChannelState.RankNeedRefresh | src/cpp/extern/NewtonSim/src/channel_state.cc:84-99 | a rank's refresh enters the queue, or its first queued one leaves it |
| ChannelStates.ChannelState.UpdateState | src/cpp/extern/NewtonSim/src/channel_state.cc:378-419 | every affected bank and no other changes state, and an issued refresh leaves the queue |
| ChannelStates.ChannelState.UpdateTiming | src/cpp/extern/NewtonSim/src/channel_state.cc:423-536 | every bank receives exactly the delays of the scope that relates it to the command (the scopes of each command are those of `ChannelScopes`), and an activation enters the windows |
| ChannelStates.ChannelState.UpdateScopeTiming | src/cpp/extern/NewtonSim/src/channel_state.cc:565-684 | the delays of a scope reach the banks of that scope and no other |
| ChannelStates.ChannelState.UpdateActivationTimes | src/cpp/extern/NewtonSim/src/channel_state.cc:703-716 | the window drops its oldest entry only when expired and takes the new one |
| ChannelStates.ChannelState.UpdateTimingAndStates | src/cpp/extern/NewtonSim/src/channel_state.cc:686-690 | issuing a command is state then timing, as specified |
| ChannelStates.DelayedTwice | src/cpp/extern/NewtonSim/src/channel_state.cc:641-664 | delaying a bank by two lists one after the other is delaying it by their concatenation |
| Queues.IndexInRange | src/cpp/extern/NewtonSim/src/command_queue.cc:157-163 | queue indices are in range for both queue structures |
| Queues.CheckArbitratePrecharge | src/cpp/extern/NewtonSim/src/command_queue.cc:77-104 | the loop answers the stated condition: no earlier entry of the bank, and no entry from here on hits the open row unless it was hit four times |
| Queues.CheckRWDependency | src/cpp/extern/NewtonSim/src/command_queue.cc:213-222 | the loop finds an earlier read of the same bankgroup, bank, row and column |
| Queues.EraseFirst | src/cpp/extern/NewtonSim/src/command_queue.cc:190-199 | the first matching entry leaves the queue, the others keep their order |
| Queues.QueriesNeverAbort | src/cpp/extern/NewtonSim/src/bankstate.cc:71-293 | no query a queue makes can reach an exit branch |
| QueueOrder.SelectionIsFirstFit | src/cpp/extern/NewtonSim/src/command_queue.cc:36-104 | a selection comes from the first queue of the round, none of the others held back by a refresh, that has an entry which is ready and may go, and from its first such entry: a write may not pass an earlier read of its location, and a precharge is for the first entry of its bank, whose open row nobody wants any more or had four hits; nothing is selected exactly when no queue has one |
| QueueOrder.OffersComeNearer | src/cpp/extern/NewtonSim/src/command_queue.cc:36-54 | a queue that has something to offer is served or comes nearer with every selection, so it waits for fewer selections than there are queues |
| NeuPimsOrder.RoundIsFirstFit | src/cpp/extern/NewtonSim/src/neupims_command_queue.cc:365-450 | the round over the normal queues takes, or exits at, the first entry that goes in the first queue that has one: besides arbitration and dependency it must not want the reserved row or the bank a GWRITE holds, and the slack must cover it; nothing is found exactly when no queue has one |
| NeuPimsOrder.RefreshHoldsItsRank | src/cpp/extern/NewtonSim/src/neupims_command_queue.cc:64-126 | while a refresh waits no normal command of its rank goes and no PIM work starts; once it issues, the reserved row, the slack and the skipping of PIM work are released |
| SlackBudget.HeadGoesFirst | src/cpp/extern/NewtonSim/src/neupims_command_queue.cc:64-102 | without a refresh waiting: the head of the PIM queue goes first if it can; if it is asked and cannot, with less than ten cycles of slack nothing goes; otherwise the first normal entry that goes |
| SlackBudget.CyclePays | src/cpp/extern/NewtonSim/src/neupims_command_queue.cc:409-435 | every cycle: an issued refresh clears the slack; otherwise it is what the cycle found less tRP for a precharge and tRCDWR for an activation taken from the normal queues, and it still covers what that command needs |
| SlackBudget.OnlyFittingStarts | src/cpp/extern/NewtonSim/src/neupims_command_queue.cc:293-363 | a GWRITE or header leaves the PIM queue only if its latency fits before the next refresh; one that does not is not asked again until a refresh has issued |
| SlackBudget.GwriteBudget | src/cpp/extern/NewtonSim/src/neupims_command_queue.cc:267-435 | in every run from the cycle a GWRITE starts until it is done or a refresh issues: slack and the costs of the normal commands taken add up to the cycles left before the refresh less the estimate, and the costs stay below it |
| NeuPimsQueues.NeuPimsCommandQueue.GetCommandToIssue | src/cpp/extern/NewtonSim/src/neupims_command_queue.cc:64-102 | the cycle's selection equals the specification: PIM queue first, then one round of normal queues |
| NeuPimsQueues.NeuPimsCommandQueue.FinishRefresh | src/cpp/extern/NewtonSim/src/neupims_command_queue.cc:104-126 | latching and releasing a refresh, dropping reservation and slack on release |
| NeuPimsQueues.NeuPimsCommandQueue.GetReadyInPimQueue | src/cpp/extern/NewtonSim/src/neupims_command_queue.cc:293-363 | header consumption, reservation, slack and compute selection equal the specification |
| NeuPimsQueues.NeuPimsCommandQueue.GetFirstReadyInQueue | src/cpp/extern/NewtonSim/src/neupims_command_queue.cc:365-450 | the loop takes the specified entry and leaves the specified slack; which entry and what slack is `NeuPimsOrder.RoundIsFirstFit` and `SlackBudget.CyclePays` |
| NeuPimsQueues.NeuPimsCommandQueue.EraseRWCommand | src/cpp/extern/NewtonSim/src/neupims_command_queue.cc:452-479 | exactly the issued read, write or compute leaves its queue |
| NeuPimsQueues.NeuPimsCommandQueue.CanMeetRefreshDeadline | src/cpp/extern/NewtonSim/src/neupims_command_queue.cc:267-282 | a header is consumed only if its latency fits before the next refresh |
| NeuPimsQueues.NeuPimsCommandQueue.AddCommand | src/cpp/extern/NewtonSim/src/neupims_command_queue.cc:194-213 | a command joins its queue exactly when there is room |
| DualBuffer.StepKeepsInv | src/cpp/extern/NewtonSim/src/neupims_command_queue.cc:293-450 | one cycle or arrival keeps the phase invariant over queue, channel and banks |
| DualBuffer.DualBufferExclusion | src/cpp/extern/NewtonSim/src/bankstate.cc:95-98 | in every admitted run no bank has its normal and its PIM buffer on the same row |
| DualBuffer.ComputeSafety | src/cpp/extern/NewtonSim/src/bankstate.cc:133-149 | whenever a compute issues, every bank of the channel has its PIM buffer open on exactly the header's row |
| DualBuffer.GroupActivationSafety | src/cpp/extern/NewtonSim/src/bankstate.cc:366-368 | no group activation replaces a different open PIM row |
| DualBuffer.GroupActivationExact | src/cpp/extern/NewtonSim/src/bankstate.cc:366-368 | a group activation keeps the buffers apart exactly when no bank of its group has the row open in its normal buffer |
| DualBufferExit.ExitExactly | src/cpp/extern/NewtonSim/src/neupims_command_queue.cc:391-438 | a cycle exits exactly when it reaches the round and, at the first turn that offers anything, the first entry not passed over finds its row in the PIM buffer with slack left and PIM work queued |
| DualBufferExit.RoundExactly | src/cpp/extern/NewtonSim/src/neupims_command_queue.cc:84-98 | the round exits exactly at a turn whose queue does, all queues before it being withheld or offering nothing |
| DualBufferExit.FirstReadyExactly | src/cpp/extern/NewtonSim/src/neupims_command_queue.cc:365-450 | one queue exits exactly at its first entry not passed over, if that entry needs PIM_PRECHARGE with slack left; it offers nothing exactly when all entries are passed over |
| DualBufferCalm.NeverExits | src/cpp/extern/NewtonSim/src/neupims_command_queue.cc:391-438 | no admitted run reaches the exit if the channel has one rank or no refresh arrives |
| DualBufferCalm.StepKeepsCalm | src/cpp/extern/NewtonSim/src/neupims_command_queue.cc:293-363 | under those conditions every open PIM row stays the reserved one, or the header that reserved another still waits at the head |
| DualBufferExitRun.ExitReachedExactly | src/cpp/extern/NewtonSim/src/neupims_command_queue.cc:391-438 | for every configuration, queue structure and latency estimate, any table that lets no activation delay a PIM_PRECHARGE of another rank, and any refresh interval with room for one header, compute, refresh and GWRITE: some run driven as the controller drives it (refreshes on time, slack as reported, one command a cycle, each GWRITE done a fixed delay after its issue), with no refresh inside a phase, ends in the exit exactly when the channel has more than one rank |
| DualBufferExitRun.ManyRanksReachTheExit | src/cpp/extern/NewtonSim/src/neupims_command_queue.cc:104-126 | such a run for any number of ranks above one: after a compute the refresh of rank 0 drops the reservation while rank 1 keeps its PIM row; a GWRITE sets the slack, and a read of that row trips the assertion while the GWRITE waits or a header waits for it to be done |
| DualBufferExitRun.LongIntervalsAreRoomy | src/cpp/extern/NewtonSim/src/neupims_command_queue.cc:267-282 | for every such table there is room in all intervals above a bound computed from its longest delay |
| DualBufferExitRun.OneRankNeverExits | src/cpp/extern/NewtonSim/src/neupims_command_queue.cc:391-438 | with one rank no driven run ends in the exit, whatever the table and interval |
| DualPim.Hbm2IsRoomy | src/cpp/extern/NewtonSim/configs/HBM2_8Gb_x128_dualpim.ini:1-38 | the two-rank dual-buffer HBM2 configuration, with the table and the estimates the simulator computes and a refresh every 1950 cycles, has that room |
| DualPim.Hbm2ReachesTheExit | src/cpp/extern/NewtonSim/configs/HBM2_8Gb_x128_dualpim.ini:1-38 | with these values some driven run ends in the exit |
| TimingTables.TableHasRows | src/cpp/extern/NewtonSim/src/timing.cc:11-496 | the computed table has the read and write rows the dual-issue results are about |
| DualBufferLimits.RefreshBetweenHeaderAndComputeBreaksExclusion | src/cpp/extern/NewtonSim/src/neupims_command_queue.cc:104-126 | a concrete run driven as the controller drives it, without GWRITEs, in which the compute comes after a refresh that follows its header, ends with both buffers on one row |
| DramQueue.SecondReadWriteIsIssued | src/cpp/extern/NewtonSim/src/dram_controller.cc:60-93 | with positive read/write delays in every scope the channel has, a read or write taken out of its queue as second command is issued |
| DramQueue.ReadWriteBlocksReadWrite | src/cpp/extern/NewtonSim/src/command_queue.cc:36-54 | after a read or write no bank certifies another one in the same cycle |
| DramQueue.RefreshAnswers | src/cpp/extern/NewtonSim/src/channel_state.cc:202-225 | a pending refresh answers with itself when all banks of its rank are closed, or with the precharge of an open one |
| DramQueue.NextIsIssuable | src/cpp/extern/NewtonSim/src/command_queue.cc:36-54 | what the queues offer can be issued without an exit |
| DualIssueLimits.StillCertifiedExactly | src/cpp/extern/NewtonSim/src/channel_state.cc:423-536 | a certified read or write is still certified in the cycle another one issued exactly when the scope relating the two has no positive delay for it |
| DualIssueLimits.SecondIsDroppedExactly | src/cpp/extern/NewtonSim/src/dram_controller.cc:75-93 | any two certified reads or writes waiting alone, the second in the queue last served: the first issues, and the second leaves its queue unissued exactly when their scope has no positive delay for it |
| DualIssueLoss.LossExactlyAtAGap | src/cpp/extern/NewtonSim/src/dram_controller.cc:60-93 | for every configuration and table: some run of the command queue from the start, with at most one command of either kind entering between two cycles and refreshes on time, loses a read or write under dual issue exactly when a scope the channel has lacks a positive delay for a pair of read and write |
| DualIssueTiming.LossExactlyByLatencies | src/cpp/extern/NewtonSim/src/timing.cc:17-34 | with the delays the constructor computes: some such run loses one exactly when the write latency reaches the read latency plus burst and rank switch, or, with several ranks, the other way round |
| DualIssueTiming.PerfectBandwidthLoses | src/cpp/extern/NewtonSim/src/timing.cc:30-34 | with burst 0 and several ranks some such run loses one whatever the latencies |
| DualIssueTiming.Hbm2LosesARead | src/cpp/extern/NewtonSim/src/dram_controller.cc:75-93 | with the HBM2 values such a run reaches a cycle that issues a write of rank 0 and drops a ready read of rank 1 |
| DualIssueWitness.Hbm2ControllerLosesARead | src/cpp/extern/NewtonSim/src/dram_controller.cc:60-148 | with the HBM2 values the controller itself, given one request a cycle and the refresh interval of HBM2, loses a read in cycle 39: requests, buffers, write draining and scheduling included |
| StrandedReads.LossStrands | src/cpp/extern/NewtonSim/src/dram_controller.cc:60-148 | after a cycle that drops a pending read no command for it is queued any more |
| StrandedReads.StrandedForGood | src/cpp/extern/NewtonSim/src/dram_controller.cc:40-285 | such a read waits for good: no later request, refresh or number of cycles gives it a command or an answer |
| CommandQueues.CommandQueue.GetCommandToIssue | src/cpp/extern/NewtonSim/src/command_queue.cc:36-54 | one round over the queues skipping those a latched refresh holds back, as specified |
| CommandQueues.CommandQueue.FinishRefresh | src/cpp/extern/NewtonSim/src/command_queue.cc:56-75 | latching and releasing a refresh, as specified |
| CommandQueues.CommandQueue.GetFirstReadyInQueue | src/cpp/extern/NewtonSim/src/command_queue.cc:170-188 | the first entry that is ready and passes arbitration and dependency |
| CommandQueues.CommandQueue.GetRefQIndices | src/cpp/extern/NewtonSim/src/command_queue.cc:139-155 | the queues of the refreshed rank |
| RefreshProgress.RefreshProgress | src/cpp/extern/NewtonSim/src/command_queue.cc:56-75 | over any run from a latched refresh until its REFRESH no buffer of the rank opens and the latch holds |
| RefreshProgress.EveryCycleProgresses | src/cpp/extern/NewtonSim/src/dram_controller.cc:60-93 | in every run, a cycle with a refresh pending opens no buffer of the rank, closes one if its first command addresses the rank, and issues REFRESH only when all are closed |
| RefreshProgress.HeldRankIsLeftAlone | src/cpp/extern/NewtonSim/src/command_queue.cc:139-155 | while a refresh is latched nothing selected from the queues addresses its rank |
| RefreshLiveness.RefreshIsPrompt | src/cpp/extern/NewtonSim/src/command_queue.cc:56-75 | in every run a refresh at the front of its queue has issued once more cycles have passed than the longest delay of a precharge or refresh, taken once and again for each open buffer of the rank |
| RefreshLiveness.WaitIsBounded | src/cpp/extern/NewtonSim/src/command_queue.cc:56-75 | the same from any world, with the cycles until the rank is free of delays in place of the longest delay |
| RefreshLiveness.NeverLongPutOff | src/cpp/extern/NewtonSim/src/channel_state.cc:423-690 | in every run no rank is kept from precharging or refreshing by more than the longest delay |
| RefreshLiveness.OriginalRanksApart | src/cpp/extern/NewtonSim/src/timing.cc:147-202 | the computed table lets no command delay a precharge or refresh of another rank, as the bound on refreshes assumes |
| Refreshes.SlackHoldsExactly | src/cpp/extern/NewtonSim/src/refresh.cc:23-39 | the slack reported is one less than the cycles left before the next refresh, except in the cycle right before one, where a whole interval is reported |
| Refreshes.TurnsComeRound | src/cpp/extern/NewtonSim/src/refresh.cc:75-79 | each rank's refresh comes again after as many intervals as there are ranks |
| Refreshes.EveryRankHasItsTurn | src/cpp/extern/NewtonSim/src/refresh.cc:75-79 | among any refreshes in a row, as many as there are ranks, each rank has its turn |
| Refreshes.RefreshUnit.ClockTick | src/cpp/extern/NewtonSim/src/refresh.cc:23-29 | the counter and the rank whose turn it is give exactly the specified arrivals |
| Refreshes.RefreshUnit.GetRefreshSlack | src/cpp/extern/NewtonSim/src/refresh.cc:31-39 | the rank whose refresh comes next, and the slack as specified |
| Books.AddReadBalanced | src/cpp/extern/NewtonSim/src/dram_controller.cc:161-198 | an added read keeps the books: one carrier per pending read address, cells and pending writes explain the flat memory |
| Books.AddWriteBalanced | src/cpp/extern/NewtonSim/src/dram_controller.cc:161-198 | an added or merged write keeps the books |
| Books.ScheduleReadBalanced | src/cpp/extern/NewtonSim/src/dram_controller.cc:200-248 | moving a read to its command queue keeps the books |
| Books.ScheduleWriteBalanced | src/cpp/extern/NewtonSim/src/dram_controller.cc:200-248 | moving a write past waiting reads of other addresses keeps the books |
| Books.IssueReadBalanced | src/cpp/extern/NewtonSim/src/dram_controller.cc:250-285 | issuing a read answers every pending read of the address with its promised value |
| Books.IssueWriteBalanced | src/cpp/extern/NewtonSim/src/dram_controller.cc:250-285 | issuing a write moves its data to the cells without changing the flat memory |
| WriteDrains.SchedulesByLaw | src/cpp/extern/NewtonSim/src/dram_controller.cc:200-248 | every scheduling step: without a lock a full buffer, or nine writes with the command queues empty, start a drain and nothing else does; in a drain the first write whose queue has room moves, unless a read waits for its address, which ends the drain; otherwise the first read with room moves |
| WriteDrains.DrainCountsDown | src/cpp/extern/NewtonSim/src/dram_controller.cc:200-248 | over every run of requests and cycles a drain lasts for the writes it counted, one fewer with each write moved, or ends at a write a read waits for |
| AnswerTimes.CycleAnswers | src/cpp/extern/NewtonSim/src/dram_controller.cc:250-285 | every cycle: the reads answered were waiting and are due readDelay cycles after the cycle, the others wait on, and nothing else comes to wait |
| AnswerTimes.FirstAnswers | src/cpp/extern/NewtonSim/src/dram_controller.cc:250-270 | if the first command of a cycle is a READ, exactly the reads waiting for its address are answered, otherwise none |
| AnswerTimes.EveryAnswerIsTimely | src/cpp/extern/NewtonSim/src/dram_controller.cc:161-198 | over every run of requests and cycles: each write is acknowledged once, in order, a cycle after it came; each answered read was forwarded a cycle after it came or took at least readDelay cycles |
| DramControllers.DramController.AddTransaction | src/cpp/extern/NewtonSim/src/dram_controller.cc:161-198 | reads wait or are forwarded, writes merge or wait, exactly as specified, and the books stay balanced |
| DramControllers.DramController.ScheduleTransaction | src/cpp/extern/NewtonSim/src/dram_controller.cc:200-248 | at most one transaction moves to its command queue, by the law of `WriteDrains`: when a drain starts, which write or read moves, what a waiting read blocks; the dependency lock always names a waiting read |
| DramControllers.DramController.IssueCommand | src/cpp/extern/NewtonSim/src/dram_controller.cc:250-285 | an issued read or write settles its address |
| DramControllers.DramController.IssueCycle | src/cpp/extern/NewtonSim/src/dram_controller.cc:60-93 | the commands of a cycle are those of the specified cycle and nothing taken out is lost |
| DramControllers.DramController.ClockTick | src/cpp/extern/NewtonSim/src/dram_controller.cc:60-148 | one cycle is exactly the specified one: refresh, issue, scheduling and clock in turn; it keeps the books |
| DramControllers.DramController.ReturnDoneTrans | src/cpp/extern/NewtonSim/src/dram_controller.cc:40-58 | a due answer is returned once |
| MemoryRuns.Run | src/cpp/extern/NewtonSim/src/dram_controller.cc:161-285 | with single issue and any table, and with dual issue and positive read/write delays in every scope the channel has: in any run every answered read has the flat memory's value at the moment it was added, and every read is answered or waiting exactly once |
| Scratchpads.FilledWaits | src/cpp/src/Sram.cc:82-94 | a fill fails exactly where nothing is waited for, and otherwise lowers that count alone |
| Scratchpads.Sram.Reserve | src/cpp/src/Sram.cc:54-80 | a new entry takes its room, or the request is refused and nothing changes |
| Scratchpads.Sram.Fill | src/cpp/src/Sram.cc:82-94 | one fill fewer is awaited; the last makes the entry valid |
| Scratchpads.Sram.CountUp | src/cpp/src/Sram.cc:96-105 | one fill more is awaited and the entry is not valid |
| Scratchpads.Sram.Flush | src/cpp/src/Sram.cc:44-48 | one half is emptied, the other unchanged |
| Scratchpads.Sram.CheckHit | src/cpp/src/Sram.cc:16-25 | whether an entry exists and is valid |
| CoreSafety.NothingIsLost | src/cpp/src/NeuPIMSCore.cc:50-205 | in every gated run: an open gate means the flush touches nothing outstanding, and every response and completed computation finds its tile and a waiting entry |
| CoreSafety.GateMeansQuiet | src/cpp/src/NeuPIMSCore.cc:50-87 | when the gate is open, no awaited entry, load, computation or store is in the halves the issue will flush |
| CoreSafety.AccHalfIsQuiet | src/cpp/src/NeuPIMSCore.cc:67-83 | bias loads included, by the alternation of halves over two issues |
| CoreSafety.IssuedKeepsInv | src/cpp/src/NeuPIMSCore.cc:91-205 | issuing past the gate keeps counters exact, entries explained and halves alternating |
| CoreSafety.LoadedKeepsInv | src/cpp/src/NeuPIMSystolicWS.cc:123-168 | turning a load into requests keeps the invariant |
| CoreSafety.StoredKeepsInv | src/cpp/src/NeuPIMSystolicWS.cc:249-290 | turning a store into requests keeps the invariant |
| CoreSafety.ExecutedKeepsInv | src/cpp/src/NeuPIMSystolicWS.cc:330-341 | starting a computation keeps the invariant |
| CoreSafety.ComputedKeepsInv | src/cpp/src/NeuPIMSystolicWS.cc:39-121 | a finished computation succeeds and keeps the invariant |
| CoreSafety.AnsweredKeepsInv | src/cpp/src/NeuPIMSCore.cc:420-485 | an arriving response succeeds and keeps the invariant |
| CoreSafety.CollectedKeepsInv | src/cpp/src/NeuPIMSCore.cc:302-324 | tiles leave only without outstanding work |
| CoreWork.ComputesOnLoadedOperands | src/cpp/src/NeuPIMSCore.cc:535-557 | in every gated run a computation enters its pipeline exactly when each operand has an entry in the tile's own half, no read for it is on its way and, for accumulator operands, no computation into it is underway; until then nothing moves |
| CoreWork.StoresCompleteData | src/cpp/src/NeuPIMSystolicWS.cc:249-290 | a store becomes its requests exactly when its data is complete in the tile's own half |
| CoreWork.GateOpensExactly | src/cpp/src/NeuPIMSCore.cc:50-87 | the gate is open exactly when no tile of the half to be flushed has a load or computation outstanding and, for a tile that begins an accumulation, none of the accumulation half a computation or store |
| CoreWork.TileIsDoneExactly | src/cpp/src/NeuPIMSCore.cc:302-324 | a tile leaves the running ones exactly when no load, computation or store of it is queued, on its way or underway |
| CoreRoom.NoScratchpadLoadIsRefused | src/cpp/src/NeuPIMSCore.cc:91-205 | in every gated run of tiles whose scratchpad loads fit one half at different addresses: no such load is refused, neither when its tile is queued nor when it starts |
| CoreBytes.NoHalfOverflows | src/cpp/src/Sram.cc:32-105 | in every gated run each half counts exactly the bytes of its entries, at most half the scratchpad |
| CoreFlow.EveryInstructionFlows | src/cpp/src/NeuPIMSCore.cc:91-205 | in every gated run every instruction of every tile issued goes to the queue of its kind and leaves it once, in program order; products enter and leave the systolic pipeline in that order |
| CoreFlow.EveryTileReturnsOnce | src/cpp/src/NeuPIMSCore.cc:291-324 | in every gated run each tile issued is in one place, once: running, finished or handed back |
| NeuPIMSCores.NeuPIMSCore.CanIssueTile | src/cpp/src/NeuPIMSCore.cc:50-87 | the loops compute the gate |
| NeuPIMSCores.NeuPIMSCore.Issue | src/cpp/src/NeuPIMSCore.cc:91-205 | the halves switched and flushed, the tile made and its instructions queued, or the fault that refuses it |
| NeuPIMSCores.NeuPIMSCore.StartLoad | src/cpp/src/NeuPIMSystolicWS.cc:126-168 | one load becomes requests |
| NeuPIMSCores.NeuPIMSCore.StQueueCycle | src/cpp/src/NeuPIMSystolicWS.cc:249-290 | one store, once its data is there |
| NeuPIMSCores.NeuPIMSCore.ExQueueCycle | src/cpp/src/NeuPIMSystolicWS.cc:330-341 | the first computation starts or stays, as specified; it starts exactly on loaded operands, `CoreWork.ComputesOnLoadedOperands` |
| NeuPIMSCores.NeuPIMSCore.UnitCycle | src/cpp/src/NeuPIMSystolicWS.cc:39-121 | a pipeline completes its front |
| NeuPIMSCores.NeuPIMSCore.PushMemoryResponse | src/cpp/src/NeuPIMSCore.cc:420-485 | counters and entry follow the response |
| NeuPIMSCores.NeuPIMSCore.Cycle | src/cpp/src/NeuPIMSCore.cc:302-324 | finished tiles move over in order |
| Tiling.CalculateLoops | src/cpp/src/operations/MatMul.cc:496-550 | ends with a tile that fits, having split no more often than needed; outer counts are powers of two, inner sizes the dimensions divided by them, rounded up once |
| Tiling.EndsExactlyWhenABlockFits | src/cpp/src/operations/MatMul.cc:527-535 | for positive dimensions the halving reaches a fitting tile exactly when one core-width block of each operand fits half the scratchpad |
| Tiling.HalfOfCeil | src/cpp/src/operations/MatMul.cc:532-534 | repeated rounding-up halving equals one rounded-up division |
| Tiling.LeastSize | src/cpp/src/operations/MatMul.cc:552-590 | no tile needs less than three aligned blocks, and size-one tiles need no more |
| MatMul.InitializeInstructions | src/cpp/src/operations/MatMul.cc:126-478 | for any tensor dimensions and inner sizes: refused exactly when an address asked for lies outside its tensor; otherwise one product per block, in loop order, one store per output block in a storing tile, each operand block loaded once, before its products, each weight block preloaded by its first product only, and the bias blocks loaded once, by the first tile of an accumulation only, to the addresses the products accumulate at |
| MatMul.BlockStoredLast | src/cpp/src/operations/MatMul.cc:410-467 | a store never precedes a product into its block |
| MatMul.BlockLoadedBefore | src/cpp/src/operations/MatMul.cc:268-428 | every product finds both operands loaded at the addresses it reads |
| MatMulGrid.InitializeTiles | src/cpp/src/operations/MatMul.cc:105-124 | refused exactly when the last tile sticks out of the tensors; otherwise, with inner sizes in whole blocks, every block multiplied once, every output stored once after all contributions, accumulation begun once per output |
| MatMulGrid.StoreIsLast | src/cpp/src/operations/MatMul.cc:105-124 | no later tile of the batch contributes to a stored block |
| MatMulLoops.GridExactly | src/cpp/src/operations/MatMul.cc:496-550 | with the loops the halving chooses, the grid stays inside the tensors exactly when every dimension is a whole number of its outer count times the core width, and inner sizes are then whole blocks |
| MatMulLoops.CreateTiles | src/cpp/src/operations/MatMul.cc:93-124 | loops and tiles together, for any positive dimensions: refused exactly when a dimension does not divide so; otherwise blocks covered once, outputs stored once and last, and each tile fits the half it is issued to |
| MatMulLoops.FittingTileFitsHalf | src/cpp/src/operations/MatMul.cc:527-590 | the operands of a tile the halving ends with fit one flushed scratchpad half, and so do its outputs |
| MatMulGrid.AddressesApart | src/cpp/src/operations/MatMul.cc:254-266 | blocks of an operand or of the output have different scratchpad addresses |
| MatMulGrid.OperandsApart | src/cpp/src/operations/MatMul.cc:160-163 | all activations of a tile end below its weights |
| MatMulGrid.BiasesOfTile | src/cpp/src/operations/MatMul.cc:195-238 | with a bias, the tiles that begin an accumulation load each bias block of their columns once, and no other tile does |
| Partition.PartitionListsDp | src/cpp/src/scheduler/Scheduler.cc:814-872 | two index lists sharing out 0..n-1, the first with the largest sum not above half, no other split with a smaller difference |
| Partition.FillTable | src/cpp/src/scheduler/Scheduler.cc:822-841 | the table says exactly which sums each prefix reaches |
| Partition.Reconstruct | src/cpp/src/scheduler/Scheduler.cc:852-872 | walking the table back yields a choice of the wanted sum and its complement |
| Partition.BestSumIsBestSplit | src/cpp/src/scheduler/Scheduler.cc:843-850 | the largest sum not above half leaves the smallest difference of all splits |
| Partition.SplitQueue | src/cpp/src/scheduler/Scheduler.cc:311-363 | one channel's queue is shared out without loss in every mode: by the programme so that no choice of its requests leaves a smaller difference of latencies; in halves, the odd request by turns; or all to the first sub-batch |
| Partition.GroupSubBatches | src/cpp/src/scheduler/Scheduler.cc:296-376 | every active request ends up in exactly one sub-batch, and each channel contributes to both what its mode says: the best split, or halves with the odd requests by turns |
| ReadyLists.RunsAreTopologicalOrders | src/cpp/src/StageProgram.cc:164-200 | the possible orders of finishing are exactly the topological orders of the operations |
| ReadyLists.FinishedKeepsExact | src/cpp/src/StageProgram.cc:182-200 | after each finish the list again holds exactly the unfinished operations with all inputs produced, once each |
| ReadyLists.BegunIsExact | src/cpp/src/StageProgram.cc:164-171 | the first list is exact |
| ReadyLists.RunsToTheEnd | src/cpp/src/StageProgram.cc:202-209 | in an acyclic graph the list is empty exactly when every operation has finished |
| ReadyLists.StartListIsDistinct | src/cpp/src/StageProgram.cc:164-171 | the first list is free of repetition exactly when no executable operation is on the start tensor twice |
| ReadyLists.StageProgram.FinishOperation | src/cpp/src/StageProgram.cc:182-200 | the update in place equals the specification |
| ReadyLists.StageProgram.FindExecutableNode | src/cpp/src/StageProgram.cc:164-171 | the executable children are appended in order |
| ReadyLists.StageProgram.CheckExecutable | src/cpp/src/operations/Operation.cc:107-116 | whether all inputs are produced |
| ReadyLists.StageProgram.SetFinish | src/cpp/src/operations/Operation.cc:88-94 | all outputs become produced |
| ReadyLists.StageProgram.GetChildNodes | src/cpp/src/operations/Operation.cc:96-105 | children of all outputs in order |
| ReadyLists.StageProgram.CheckFinish | src/cpp/src/StageProgram.cc:202-209 | whether all operations have finished |
| TileSchedulers.OrderIsFixed | src/cpp/src/scheduler/Scheduler.cc:540-585 | after any run, whenever tiles come back: operations finished in the one fixed order, which is topological; every tile in a core is expected; an ended program has done every tile of every operation |
| TileSchedulers.NeverStuck | src/cpp/src/scheduler/Scheduler.cc:693-741 | after a refresh a live program has a tile to hand out or one in a core |
| TileSchedulers.ReturnIsExpected | src/cpp/src/scheduler/Scheduler.cc:544-550 | the assertions about a returning tile hold: its operation is active, not ended, and expects it |
| TileSchedulers.FrontExists | src/cpp/src/scheduler/Scheduler.cc:700-708 | the list is never empty when its first operation is taken |
| TileSchedulers.ReturnedKeepsInv | src/cpp/src/scheduler/Scheduler.cc:540-575 | a returning tile keeps one active operation and exact counts |
| TileSchedulers.Scheduler.FinishTile | src/cpp/src/scheduler/Scheduler.cc:540-585 | the update in place equals the specified step and tells whether the operation finished |
| TileSchedulers.Scheduler.RefreshStatus | src/cpp/src/scheduler/Scheduler.cc:693-741 | ends a finished program or starts the first listed operation, as specified |
| TileSchedulers.Scheduler.GetTile | src/cpp/src/scheduler/Scheduler.cc:488-511 | the next tile leaves the queue and is counted as launched; barrier tiles are left out |
| ChannelBalance.DistributeRequests | src/cpp/trace-generator/channel_load_balancing.py:42-51 | each channel is extended by exactly the requests the greedy choice assigns it, longest first |
| ChannelBalance.CachedLoad | src/cpp/trace-generator/channel_load_balancing.py:44-49 | the cached loads equal those recomputed from what channels hold |
| ChannelBalance.GreedyBound | src/cpp/trace-generator/channel_load_balancing.py:46-49 | from any earlier loads: a channel that received something carries, times the number of channels, at most the total plus (channels - 1) largest jobs |
| ChannelBalance.UnderTwice | src/cpp/trace-generator/channel_load_balancing.py:46-49 | from empty channels, in any order: at most (2 - 1/k) times any assignment's busiest channel |
| ChannelBalance.FourThirds | src/cpp/trace-generator/channel_load_balancing.py:42-51 | from empty channels, longest first: at most (4/3 - 1/(3k)) times any assignment's busiest channel |
| ChannelBalance.LargeJobsFit | src/cpp/trace-generator/channel_load_balancing.py:46-49 | when jobs exceed a third of the optimum some channel has room for the next: the counting argument |
| ChannelBalance.LatencyIsMonotone | src/cpp/trace-generator/channel_load_balancing.py:17-33 | longer sequences never cost less |
| Interconnects.BoundedWaiting | src/cpp/src/Interconnect.cc:73-131 | if the first r packets of a source are due, r of its packets leave within its turn plus r - 1 rounds, whatever the other sources do |
| Interconnects.ReadyHeadLeaves | src/cpp/src/Interconnect.cc:83-119 | a ready head leaves within as many cycles as there are nodes |
| Interconnects.Delivery | src/cpp/src/Interconnect.cc:73-147 | in every run accesses of a source and destination cross in the order pushed, and each port delivers exactly what crossed to it, in order |
| Interconnects.QueuesByPlatform | src/cpp/src/Interconnect.cc:90-107 | in every run the first memory queue of a channel holds accesses of the systolic array only, the second accesses of the PIM side, and only with sub-batches |
| Interconnects.StepKeepsInv | src/cpp/src/Interconnect.cc:133-147 | finish cycles strictly increase along each input buffer |
| Interconnects.WinnerIsFirst | src/cpp/src/Interconnect.cc:83-119 | a destination is granted to the ready source with the smallest turn |
| CrossingTimes.DueByPlace | src/cpp/src/Interconnect.cc:133-147 | in every run the n-th packet since its buffer was last empty is due n cycles after the first, and the first after the latency |
| CrossingTimes.NeverEarly | src/cpp/src/Interconnect.cc:83-119 | in every run no packet leaves its buffer before that |
| CrossingTimes.FullLatencyExactly | src/cpp/src/Interconnect.cc:133-147 | a pushed packet gets the full latency exactly if its buffer is empty or has been pushed to at least once for every cycle since it last was |
| Interconnects.SimpleInterconnect.RunCycle | src/cpp/src/Interconnect.cc:73-131 | the loop with busy flags gives each destination its winner and moves nothing else |
| Interconnects.SimpleInterconnect.PushPacket | src/cpp/src/Interconnect.cc:133-147 | a packet joins its source's buffer after the one before it |
| Interconnects.SimpleInterconnect.Deliver | src/cpp/src/Interconnect.cc:90-113 | an access enters exactly the port of its destination and platform |
| Ledger.LedgerIsExact | crates/neupimrust/src/global_counts.rs:201-522 | for loads, stores and either: busy plus idle is the last transition, histograms account for the totals, busy time is the number of cycles with work outstanding, and replaying the events gives the busy total |
| Ledger.ZeroAddOpensBusyPeriod | crates/neupimrust/src/global_counts.rs:201-216 | an add of loads or of stores keeps busy and outstanding together exactly when it adds something or something was outstanding |
| Ledger.AgreesExactlyIfOrderly | crates/neupimrust/src/global_counts.rs:201-522 | over a run, each side is busy exactly while something is outstanding, throughout, if and only if no add of zero meets nothing outstanding |
| LedgerHistory.HistogramsAreTallies | crates/neupimrust/src/global_counts.rs:201-522 | over every run that never goes back in time: each histogram counts, for every length, exactly the periods between the events of its side, the total loads and stores are the sums of everything added, and the stage is the one last set |
| Ledger.GlobalCounts.AddLoads | crates/neupimrust/src/global_counts.rs:201-263 | as specified, state for state |
| Ledger.GlobalCounts.AddStores | crates/neupimrust/src/global_counts.rs:271-330 | as specified, state for state |
| Ledger.GlobalCounts.ReduceLoads | crates/neupimrust/src/global_counts.rs:384-451 | refused below zero without change, otherwise as specified |
| Ledger.GlobalCounts.ReduceStores | crates/neupimrust/src/global_counts.rs:459-522 | refused below zero without change, otherwise as specified |
| AddressCodec.SetAddressMapping | src/cpp/extern/NewtonSim/src/configuration.cc:356-413 | a layout results exactly when the string spells each of the six fields once, each field right above those spelled after it |
| AddressCodec.OrderedTiles | src/cpp/extern/NewtonSim/src/configuration.cc:385-405 | in such a layout the fields cover the positions below their total, each once |
| AddressRoundTrips.RoundTripExactlyInRange | src/cpp/extern/NewtonSim/src/configuration.cc:27-76 | an address survives encoding and decoding exactly when every field is in range |
| AddressRoundTrips.DecodeOfEncode | src/cpp/extern/NewtonSim/src/configuration.cc:27-76 | decoding returns each field reduced to its width |
| AddressRoundTrips.EncodeOfDecode | src/cpp/extern/NewtonSim/src/configuration.cc:27-76 | a number survives decoding and encoding exactly when it is aligned and within the memory |
| AddressRoundTrips.LayoutsAgree | src/cpp/src/Common.cc:501-547 | the cores' fixed layout computes the memory's address on all in-range inputs |
| AddressRoundTrips.CompsReadresSurvive | src/cpp/src/Common.cc:562-581 | row, channel, count and flag of a compute come back from the controller's decoder |
| AddressRoundTrips.HeaderSurvives | src/cpp/extern/NewtonSim/src/neupims_controller.cc:502-532 | every header: what comes back, and that both counts come back rounded down to powers of two exactly below 256 computations; from 65536 on a smaller count can come back |
| AddressRoundTrips.SwitchIsInjective | src/cpp/src/Common.cc:32-52 | exchanging column and channel keeps different addresses different |
| AddressRoundTrips.SwitchIsSurjective | src/cpp/src/Common.cc:32-52 | every address is the exchange of one |
| AddressRoundTrips.SwitchedChannel | src/cpp/src/Common.cc:24-52 | after the exchange the channel is the block number modulo 32 |
| AddressRoundTrips.BlocksSpread | src/cpp/src/Common.cc:24-52 | 32 consecutive 64-byte blocks go to 32 different channels |
| Bits.LogIsFloor | src/cpp/src/Common.cc:492-499 | the logarithm is rounded down |

## Left out

- Single-buffer PIM mode, self-refresh, bank-level refresh, the close-page policy and the unified-queue mode.
- The command types of those modes: precharging reads and writes, PWRITE, COMP, READRES; and headers for GWRITE, which are deprecated and exit.
- The latency estimate of a PIM operation is a parameter of a cycle, as are the cycles remaining to the next refresh and the arrival of refreshes; the original's estimate is used for HBM2 only (`TimingTables.EstimatedLatency`), where a header's result count is a parameter.
- The NeuPIMs controller's own transaction scheduling: PIM and normal commands arrive at its queue as actions; its PIM queue's acceptance limits (two different ones) are not related to each other.
- Whether the DRAM controller accepts a transaction: any may be added, and the capacity of the write buffer decides only when a drain starts.
- DualIssueLoss.LossExactlyAtAGap: leaves open which kind of transaction the controller schedules when (at most one command enters between two cycles); write draining and transaction buffers are obeyed by the HBM2 run of `DualIssueWitness`.
- RefreshLiveness.RefreshIsPrompt: needs that no command delays a precharge or refresh of another rank, which holds of the original's table (`RefreshLiveness.OriginalRanksApart`).
- DualIssueTiming.LossExactlyByLatencies: like DualIssueLoss.LossExactlyAtAGap it is about runs of the command queue, not of the controller.
- DualIssueTiming.PerfectBandwidthLoses: likewise.
- DualIssueTiming.Hbm2LosesARead: likewise; the controller's own run is `DualIssueWitness.Hbm2ControllerLosesARead`.
- DualBufferExitRun.ExitReachedExactly: needs an interval with room for the run, a table that lets no activation delay a PIM_PRECHARGE of another rank (so the computed one) and a GWRITE of at least two cycles (the original's takes a multiple of 32); with one rank none of these matters (`OneRankNeverExits`).
- Statistics, power and energy, logging, file and JSON input.
- Integer widths: 32- and 64-bit wrap-around is not modelled, in particular not the 32-bit shifts inside `MakeAddress`.
- Aliasing of bank records: the channel's banks are values inside an array, so writing one is a store into the array.
- The seven timing scope helpers of the channel are one method with a scope predicate.
- Transactions carry data and tags the original lacks; memory starts as zeros.
- The PIM side of a core, the vector units' choice of pipeline and all cycle counts of a core: completion order is arbitrary per pipeline.
- Which DRAM addresses an instruction touches: any positive number of requests.
- Allocation failures of a scratchpad stop a run. They are excluded for the scratchpad loads of tiles that fit (`CoreRoom.NoScratchpadLoadIsRefused`), not for the accumulation scratchpad, where a tile's outputs are shown to fit by size only.
- Tensor address arithmetic and bias block contents; an address outside a tensor refuses the tile.
- MatMulGrid.InitializeTiles: states the coverage of the blocks for inner sizes in whole blocks only; with others the chosen loops refuse the multiplication (`MatMulLoops.CreateTiles`).
- The request addresses inside a block, which the tensors choose.
- ChannelBalance.UnderTwice: the bound for channels that hold requests already is the general one of `GreedyBound`.
- Ledger.LedgerIsExact: excludes adding zero while nothing of that side is outstanding, because busy and outstanding then part (exactly then, `AgreesExactlyIfOrderly`), and cycles that go back.
- TileSchedulers.Scheduler.GetTile: does not model barrier tiles, because nothing in the simulator creates one.
- Tile scheduling for two programs at once (they share no operation), and the stages of a batch.
- Interconnect statistics and the booksim interconnect.
- The for-GWRITE flag of header encoding.
- `add_computes`, stage end events and event kinds without memory meaning.
- The stage table of the program, tensor shapes, attention tiles, bump allocators, file loading.
