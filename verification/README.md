# Kernel protocols in Dafny

A verification model of the concurrent protocols and in-place algorithms at the
heart of this Linux 3.10/msm tree: tree RCU, the NUMA policy tree and page
migration, the scheduler's load, bandwidth and demand accounting, the pid
allocator and the kthread worker. `dafny verify dfyconfig.toml` checks all of it.

| file | what it models |
|---|---|
| `RcuTree.dfy` | the combining tree of quiescent-state masks as a state machine: node-by-node initialisation and cleanup, reports climbing hop by hop, CPUs coming and going |
| `CbList.dfy`, `CbLinks.dfy` | the four-segment callback list, first as what it means, then as links and pointers to tails in memory, spliced in place |
| `RcuGrace.dfy` | both together, with readers, dyntick scans, batches and orphaned callbacks: grace-period safety |
| `RcuDelivery.dfy`, `RcuQuiescence.dfy` | what becomes of callbacks and quiescent states there: in order, once, and never stranded |
| `RcuBarrier.dfy`, `BarrierReturns.dfy` | `_rcu_barrier` with concurrent callers, running batches and dying CPUs, and that callers can return |
| `Expedited.dfy` | the ticket scheme of `synchronize_sched_expedited` |
| `Dynticks.dfy` | the parity of the dyntick counters, NMIs included |
| `RcuGeometry.dfy` | the shape of the node tree for every accepted CPU count and fanout |
| `Migrate.dfy` | `do_migrate_pages` |
| `SharedPolicy.dfy` | the shared-memory policy tree |
| `Pidmap.dfy`, `PidRace.dfy`, `PidTable.dfy` | the paged pid bitmap, callers racing for it, and pids in nested namespaces |
| `LoadAverage.dfy`, `LoadAccounting.dfy` | fixed-point load averages, and the distributed sums behind them |
| `RtGroups.dfy` | the task-group walk and real-time bandwidth admission |
| `Demand.dfy` | window-based task demand |
| `KthreadWorker.dfy`, `WorkerReturns.dfy` | the kthread worker and its flush protocol, and that flushes can return |
| `Common.dfy` | what several modules share |

Concurrent code is a state machine: one step per lock-held section or atomic
operation, any interleaving allowed, and a run is a sequence of states that
begins in an initial state. What the kernel does not store but the properties
speak about (when a callback was registered, what was outstanding at a call,
which executions a flush waits for) is kept as history in the state and never
read by a step. Code that works in place is a class or a method with the
source's loops, proved against a specification on values.

Some choices that decide what the results mean:

- One non-preemptible RCU flavour is modelled. There are no blocked readers and
  no CPUs with offloaded callbacks; `rcutree_plugin.h` and `rcutree.h` are not
  part of this model.
- In `RcuTree` and `RcuGrace` masks are sets of children. That children have
  distinct bits that fit the mask is proved in `RcuGeometry`.
- A grace period may start whenever none is in progress, and whether a needed
  one was already recorded is a free choice, so the results hold for every
  policy of `gp_flags` and `need_future_gp`.
- In `RcuGrace` the jiffies test for a grace period old enough to credit offline
  CPUs is a free flag of the scan step, and a CPU that is not running has no
  read-side section: stop_machine and the idle loop, which see to that, are not
  part of this model.
- Grace-period numbers, tickets and clocks are natural numbers. Where a
  machine width matters it is written out: the dyntick comparison, `pid_before`,
  `to_ratio` and the sum of ratios, the page index one past the end, the window
  quotients, the index that the history shift reads from, the demand sum and the
  products that scale it, the fixed-point power and `calc_load`. Signed overflow
  is taken to wrap.
- `PF_FROZEN` may change at any time: `freezer.c` is not part of this model. The
  scheduling classes count a queued task in `nr_running` unless its group is
  throttled; throttling is a free step.
- Calls into code that is not here are parameters: allocations that may fail,
  pages that will not move, the hash function, tree rebalancing, groups that
  have real-time tasks, the tree found after the policy lock was dropped.
- `node_remap` is the bitmap library's: the k-th node of `from` goes to the
  (k mod weight)-th node of `to`, and nodes outside `from` stay.

Where the code does less than one would expect, the code is modelled and the
exact condition proved: `alloc_pidmap` passes over `RESERVED_PIDS` when that was
the last pid (`ExhaustedIs`, `ReservedIsNotRetried`); `to_ratio` is exact only
below 2^44 ns (`RatioIsExact`); `update_window_start` catches up only if fewer
than 2^31 windows have passed (`UpdateWindowStart`), and `update_task_demand`
cuts busy time at the window boundaries under the same condition
(`PiecesAreRightIff`); beyond it, the history leaves its array exactly if the
low 32 bits of the number of windows are 2^31 plus the history's size or more
(`StraysIff`, `LongSleeps`), and otherwise machine integers decide
(`AccountInt`, in `UpdateTaskDemand`); `fixed_power_int` is close to the power
only up to 31 fractional bits (`PowerIsCloseIff`) and `calc_load` exact only if
its sum fits (`CalcLoadIsExactIff`); dynticks parity needs paired idle calls
(`UnpairedCallsBreakParity`) and NMIs that do not nest (`NestedNmisBreakParity`); and a wakeup leaves the uninterruptible count exact
only if the frozen flag of an uninterruptible sleeper is what it was when the
task went to sleep (`WakeupIsExactIff`, `WakeupIsExactIffFlagHeld`), so that a run
that freezes a sleeper is off by one from then on (`FreezingASleeperMiscounts`,
`SleepersAreCounted`).

## Model

| member | source | states |
|---|---|---|
| `RcuTree.InitialInv` | app/src/main/cpp/msm/kernel/rcutree.c:3198-3251 | The idle, empty tree that boot leaves satisfies the combining-tree invariant. |
| `RcuTree.GpStartKeeps` | app/src/main/cpp/msm/kernel/rcutree.c:1402-1420 | Numbering a new grace period keeps the invariant, with reports and hotplug operations in flight. |
| `RcuTree.LockOnoffKeeps` | app/src/main/cpp/msm/kernel/rcutree.c:1422-1423 | Taking onoff_mutex before the node loop keeps the invariant; from here on no mask of online CPUs changes. |
| `RcuTree.InitNodeKeeps` | app/src/main/cpp/msm/kernel/rcutree.c:1438-1452 | Initialising one node, parents before children, keeps the invariant although other nodes are still in the old grace period. |
| `RcuTree.InitDoneKeeps` | app/src/main/cpp/msm/kernel/rcutree.c:1459-1463 | Ending the initialisation loop keeps the invariant. |
| `RcuTree.HopKeeps` | app/src/main/cpp/msm/kernel/rcutree.c:1711-1742 | One hop of rcu_report_qs_rnp (clear the bits; stop if the node still waits, else go on to the parent) keeps the invariant. |
| `RcuTree.ReportKeeps` | app/src/main/cpp/msm/kernel/rcutree.c:1704-1737 | Starting a report at a leaf keeps the invariant. |
| `RcuTree.WalkKeeps` | app/src/main/cpp/msm/kernel/rcutree.c:1737-1750 | Continuing a report at the parent, any number of other steps later, keeps the invariant. |
| `RcuTree.GpEndKeeps` | app/src/main/cpp/msm/kernel/rcutree.c:1588-1591 | Declaring the grace period over keeps the invariant, and no upward report is in flight at that moment. |
| `RcuTree.CleanupNodeKeeps` | app/src/main/cpp/msm/kernel/rcutree.c:1525-1534 | Recording the end in one node keeps the invariant. |
| `RcuTree.CleanupDoneKeeps` | app/src/main/cpp/msm/kernel/rcutree.c:1535-1547 | Finishing the cleanup keeps the invariant. |
| `RcuTree.HotplugStartKeeps` | app/src/main/cpp/msm/kernel/rcutree.c:3000-3022 | Starting to add or remove a CPU keeps the invariant. |
| `RcuTree.OnlineHopKeeps` | app/src/main/cpp/msm/kernel/rcutree.c:3027-3046 | Adding the bit of a CPU, or of a node that was empty, one node at a time keeps the invariant. |
| `RcuTree.OfflineHopKeeps` | app/src/main/cpp/msm/kernel/rcutree.c:1983-1997 | Removing the bit of a CPU, or of a node that became empty, one node at a time keeps the invariant; that the bit is gone is `RcuGrace.LeafKnowsTheLiving`. |
| `RcuTree.NextKeeps` | app/src/main/cpp/msm/kernel/rcutree.c:1402-1547 | Every step of every participant keeps the invariant. |
| `RcuTree.RunKeeps` | app/src/main/cpp/msm/kernel/rcutree.c:1402-1547 | The invariant holds in every state of every run. |
| `RcuTree.RootEmptyMeansAllEmpty` | app/src/main/cpp/msm/kernel/rcutree.c:1704-1750 | Once the root mask is empty, no node awaits anybody and no report is on its way up. |
| `RcuTree.NumberChain` | app/src/main/cpp/msm/kernel/rcutree.c:1402-1547 | In every reachable state, for every node: rsp.completed <= rnp.completed <= rnp.gpnum <= rsp.gpnum <= rsp.completed + 1. |
| `RcuTree.WaitingChildIsAwaited` | app/src/main/cpp/msm/kernel/rcutree.c:1704-1750 | In every reachable state a node with a nonempty qsmask has its bit set in its parent, and the root is nonempty. |
| `RcuTree.RootAwaits` | app/src/main/cpp/msm/kernel/rcutree.c:1704-1750 | A node that waits, or whose report is still on its way up, keeps its bit in the parent set and the root nonempty. |
| `RcuTree.WarningsSilent` | app/src/main/cpp/msm/kernel/rcutree.c:1440-1741 | The warnings at 1444, 1691 and 1741 cannot fire: nodes are initialised only when caught up, the child of a report in flight is empty, and no grace period ends under a report. |
| `RcuTree.NodeKnowsItsLeaves` | app/src/main/cpp/msm/kernel/rcutree.c:1983-1997 | While no hotplug operation is in flight, a node's mask of CPUs and children is nonempty exactly if some leaf below it has a CPU. |
| `RcuTree.HopClears` | app/src/main/cpp/msm/kernel/rcutree.c:1711-1726 | A report clears its own bits and nothing else in any mask, so that fewer are awaited. |
| `RcuTree.NeverStuck` | app/src/main/cpp/msm/kernel/rcutree.c:1704-1750 | While a node waits, a leaf below waits for a CPU or a report is on its way up. |
| `RcuTree.CanAlwaysEnd` | app/src/main/cpp/msm/kernel/rcutree.c:1704-1750 | From every state in which a grace period waits, reports alone can empty the root. |
| `CbList.StatusSorted` | app/src/main/cpp/msm/kernel/rcutree.c:1214-1313 | The segmented list is a FIFO whose grace-period numbers do not decrease. |
| `CbList.AdvanceExact` | app/src/main/cpp/msm/kernel/rcutree.c:1281-1313 | rcu_advance_cbs makes DONE exactly the callbacks numbered at most the completed grace period, and changes no other number. |
| `CbList.AccelerateNeverEarly` | app/src/main/cpp/msm/kernel/rcutree.c:1214-1263 | rcu_accelerate_cbs gives only the number asked for, only to callbacks without a number or with a later one; if it acts, no callback is left without. |
| `CbList.AdoptKeepsOrder` | app/src/main/cpp/msm/kernel/rcutree.c:1840-1936 | Orphaning and adopting loses and duplicates nothing, and keeps the order of the ready and of the waiting callbacks of both CPUs. |
| `CbLinks.RcuData.constructor` | app/src/main/cpp/msm/kernel/rcutree.c:2972-2990 | A new list is empty, in memory and in the tail pointers. |
| `CbLinks.RcuData.InitCallbackList` | app/src/main/cpp/msm/kernel/rcutree.c:1049-1058 | The tail pointers all point at the head, and the list is empty. |
| `CbLinks.RcuData.CallRcu` | app/src/main/cpp/msm/kernel/rcutree.c:2411-2429 | The callback is appended through the last tail pointer and counted; on a disabled list nothing changes. |
| `CbLinks.RcuData.AdvanceCbs` | app/src/main/cpp/msm/kernel/rcutree.c:1281-1313 | The pointer loops compute exactly the abstract Advance: tails, numbers and links. |
| `CbLinks.RcuData.CopyDown` | app/src/main/cpp/msm/kernel/rcutree.c:1303-1309 | The second loop moves the remaining segments down to the front. |
| `CbLinks.RcuData.AccelerateCbs` | app/src/main/cpp/msm/kernel/rcutree.c:1214-1263 | The pointer loops compute exactly the abstract Accelerate. |
| `CbLinks.RcuData.LowerNumbers` | app/src/main/cpp/msm/kernel/rcutree.c:1148-1157 | Recording a future grace period may lower the number of callbacks that have a later one, and changes nothing else. |
| `CbLinks.RcuData.BatchBegin` | app/src/main/cpp/msm/kernel/rcutree.c:2045-2069 | The DONE segment is spliced off to a private batch; the rest stays linked. |
| `CbLinks.RcuData.BatchExtract` | app/src/main/cpp/msm/kernel/rcutree.c:2062-2068 | The splice itself: links, tails and batch tail. |
| `CbLinks.RcuData.Invoke` | app/src/main/cpp/msm/kernel/rcutree.c:2073-2085 | The head of the batch is unlinked and counted; the batch is otherwise unchanged. |
| `CbLinks.RcuData.RequeueBatch` | app/src/main/cpp/msm/kernel/rcutree.c:2092-2101 | The rest of the batch is linked back in front of the list. |
| `CbLinks.RcuData.BatchEnd` | app/src/main/cpp/msm/kernel/rcutree.c:2092-2105 | After requeueing, qlen drops by the number invoked and equals the length of the list. |
| `CbLinks.Orphanage.constructor` | app/src/main/cpp/msm/kernel/rcutree.c:3198-3251 | The orphanage starts out empty. |
| `CbLinks.Orphanage.SendWaiting` | app/src/main/cpp/msm/kernel/rcutree.c:1861-1874 | The callbacks that still need a grace period are spliced onto the orphanage. |
| `CbLinks.Orphanage.SendDone` | app/src/main/cpp/msm/kernel/rcutree.c:1876-1884 | The ready callbacks are spliced onto the orphanage. |
| `CbLinks.Orphanage.SendCbs` | app/src/main/cpp/msm/kernel/rcutree.c:1841-1888 | All callbacks of the dead CPU move to the orphanage, in order, with their count. |
| `CbLinks.Orphanage.AdoptDone` | app/src/main/cpp/msm/kernel/rcutree.c:1918-1927 | The ready orphans are spliced in behind the adopter's ready callbacks. |
| `CbLinks.Orphanage.AdoptWaiting` | app/src/main/cpp/msm/kernel/rcutree.c:1929-1935 | The other orphans are appended at the end. |
| `CbLinks.Orphanage.AdoptCbs` | app/src/main/cpp/msm/kernel/rcutree.c:1894-1936 | The adopter gets every orphan exactly once, in order, with the count; the orphanage is empty. |
| `CbLinks.SplitChain` | app/src/main/cpp/msm/kernel/rcutree.c:2062-2065 | Cutting a linked list at a tail pointer gives two proper lists and touches no other cell. |
| `CbLinks.InsertChain` | app/src/main/cpp/msm/kernel/rcutree.c:1918-1927 | Splicing a list in at a tail pointer gives one proper list and touches no other cell. |
| `CbLinks.MoveSuffix` | app/src/main/cpp/msm/kernel/rcutree.c:1861-1874 | Moving the end of one list to the end of another keeps both proper. |
| `CbLinks.SameAt` | app/src/main/cpp/msm/kernel/rcutree.c:1294-1309 | Two tail pointers are equal exactly if they stand behind the same callback. |
| `RcuGrace.NumberIsInTheFuture` | app/src/main/cpp/msm/kernel/rcutree.c:1069-1087 | The number handed out by rcu_cbs_completed, read at any node, names a grace period that not even the root has begun. |
| `RcuGrace.CompletedIsNext` | app/src/main/cpp/msm/kernel/rcutree.c:1069-1087 | At the root rcu_cbs_completed names the first grace period not yet begun there; elsewhere that one, or the next if the node sees none in progress. |
| `RcuGrace.AccelerateOk` | app/src/main/cpp/msm/kernel/rcutree.c:1214-1263 | Numbering callbacks keeps every callback's guarantee: its grace period starts after it was registered. |
| `RcuGrace.AdvanceOk` | app/src/main/cpp/msm/kernel/rcutree.c:1281-1313 | Advancing marks DONE only callbacks whose pre-existing readers are gone. |
| `RcuGrace.ProcessGpEndOk` | app/src/main/cpp/msm/kernel/rcutree.c:1322-1359 | Noticing the end of a grace period keeps the guarantees of the CPU's callbacks. |
| `RcuGrace.ActivityKeeps` | app/src/main/cpp/msm/kernel/rcutree.c:176-183 | Readers, context switches, idle entry and exit and CPUs starting and stopping keep the invariant. |
| `RcuGrace.NoteGpKeeps` | app/src/main/cpp/msm/kernel/rcutree.c:994-1008 | __note_new_gpnum keeps the invariant. |
| `RcuGrace.CallRcuKeeps` | app/src/main/cpp/msm/kernel/rcutree.c:2390-2429 | Registering a callback keeps the invariant. |
| `RcuGrace.GpEndNoticedKeeps` | app/src/main/cpp/msm/kernel/rcutree.c:1368-1382 | rcu_process_gp_end keeps the invariant. |
| `RcuGrace.StartGpKeeps` | app/src/main/cpp/msm/kernel/rcutree.c:1664-1679 | rcu_start_gp, which advances callbacks at the root, keeps the invariant. |
| `RcuGrace.BatchBeginKeeps` | app/src/main/cpp/msm/kernel/rcutree.c:2045-2069 | Starting a batch keeps the invariant. |
| `RcuGrace.InvokeKeeps` | app/src/main/cpp/msm/kernel/rcutree.c:2073-2085 | Invoking a callback keeps the invariant. |
| `RcuGrace.BatchEndKeeps` | app/src/main/cpp/msm/kernel/rcutree.c:2092-2105 | Ending a batch early keeps the invariant. |
| `RcuGrace.QsIsSound` | app/src/main/cpp/msm/kernel/rcutree.c:1762-1797 | A CPU whose quiescent state rcu_report_qs_rdp accepts has no read-side section from before the grace period. |
| `RcuGrace.ReportQsKeeps` | app/src/main/cpp/msm/kernel/rcutree.c:1762-1831 | rcu_check_quiescent_state and rcu_report_qs_rdp, on each of their paths, keep the invariant. |
| `RcuGrace.WalkUpKeeps` | app/src/main/cpp/msm/kernel/rcutree.c:1704-1750 | A report moving up the tree keeps the invariant. |
| `RcuGrace.CreditIsSound` | app/src/main/cpp/msm/kernel/rcutree.c:749-781 | Crediting a CPU from its dynticks snapshot, or because it is offline, is sound for the current grace period. |
| `RcuGrace.FqsMaskIsSound` | app/src/main/cpp/msm/kernel/rcutree.c:2180-2220 | Every CPU in the mask that a force-quiescent-state scan reports has no old read-side section. |
| `RcuGrace.FqsScanKeeps` | app/src/main/cpp/msm/kernel/rcutree.c:2180-2220 | A scan of one leaf, with its report, keeps the invariant. |
| `RcuGrace.FqsKeeps` | app/src/main/cpp/msm/kernel/rcutree.c:1468-1488 | Both rounds of the scan keep the invariant. |
| `RcuGrace.KthreadInitKeeps` | app/src/main/cpp/msm/kernel/rcutree.c:1438-1452 | Initialising a node, with the kthread's own CPU noticing it, keeps the invariant. |
| `RcuGrace.NoOldReaders` | app/src/main/cpp/msm/kernel/rcutree.c:1588-1591 | When the kthread sees the root empty, no read-side section from before the grace period is left on any CPU. |
| `RcuGrace.KthreadEndKeeps` | app/src/main/cpp/msm/kernel/rcutree.c:1588-1591 | Declaring the grace period over keeps the guarantees of all callbacks waiting for it. |
| `RcuGrace.KthreadCleanupKeeps` | app/src/main/cpp/msm/kernel/rcutree.c:1525-1534 | Cleaning up a node keeps the invariant. |
| `RcuGrace.KthreadCleanupDoneKeeps` | app/src/main/cpp/msm/kernel/rcutree.c:1535-1547 | Finishing the cleanup, with its rcu_advance_cbs, keeps the invariant. |
| `RcuGrace.CpuPrepareKeeps` | app/src/main/cpp/msm/kernel/rcutree.c:3000-3022 | Setting up an incoming CPU keeps the invariant. |
| `RcuGrace.CpuPrepareHopKeeps` | app/src/main/cpp/msm/kernel/rcutree.c:3027-3046 | Adding it to the masks node by node keeps the invariant. |
| `RcuGrace.AdoptedListOk` | app/src/main/cpp/msm/kernel/rcutree.c:1894-1936 | After adoption every callback still has its guarantee: done ones stay done, the others start over without a number. |
| `RcuGrace.CpuDeadKeeps` | app/src/main/cpp/msm/kernel/rcutree.c:1960-1980 | Orphaning and adopting a dead CPU's callbacks keeps the invariant. |
| `RcuGrace.CpuDeadHopKeeps` | app/src/main/cpp/msm/kernel/rcutree.c:1983-1997 | Removing the dead CPU from the masks keeps the invariant, in which a CPU is in its leaf's mask exactly if it is not dead, but for the one hotplug operation in flight. |
| `RcuGrace.NextKeeps` | app/src/main/cpp/msm/kernel/rcutree.c:1402-1547 | Every step of every CPU, the kthread and hotplug keeps the invariant. |
| `RcuGrace.RunKeeps` | app/src/main/cpp/msm/kernel/rcutree.c:1402-1547 | The invariant holds in every state of every run. |
| `RcuGrace.GracePeriodSafety` | app/src/main/cpp/msm/kernel/rcutree.c:1069-1797 | Over every interleaving: when a callback is about to be invoked, every read-side section that was running on any CPU when it was registered has ended. |
| `RcuGrace.LeafKnowsTheLiving` | app/src/main/cpp/msm/kernel/rcutree.c:1983-1997 | In every run, but for the CPU whose hotplug operation is in flight, a CPU is in its leaf's qsmaskinit exactly if it is not dead. |
| `RcuGrace.InitWaitsForTheLiving` | app/src/main/cpp/msm/kernel/rcutree.c:1438-1452 | A grace period waits, at each leaf it is recorded in, for exactly the CPUs of that leaf that are not dead then. |
| `RcuGrace.NodeKnowsTheLiving` | app/src/main/cpp/msm/kernel/rcutree.c:1983-1997 | With no hotplug operation in flight, any node's qsmaskinit is nonempty exactly if some CPU below it is not dead. |
| `RcuDelivery.LineIsAQueue` | app/src/main/cpp/msm/kernel/rcutree.c:2045-2429 | A CPU's callbacks are a queue: registered at its end, invoked from its front, changed by no other step until the CPU dies or adopts. |
| `RcuDelivery.CallbacksConserved` | app/src/main/cpp/msm/kernel/rcutree.c:1840-2429 | Only registering adds a callback and only invoking takes one away, whatever advancing, batches and adoption do. |
| `RcuDelivery.InvokedOnce` | app/src/main/cpp/msm/kernel/rcutree.c:2045-2105 | In every run a callback that has been invoked is never in line again, on any CPU. |
| `RcuDelivery.AccelerateNumbersAll` | app/src/main/cpp/msm/kernel/rcutree.c:1148-1263 | If the list has room for another number, rcu_accelerate_cbs leaves no callback unnumbered or waiting for longer than asked, and rcu_start_future_gp lowers that to the first grace period the root has not begun. |
| `RcuDelivery.GpEndNumbersAll` | app/src/main/cpp/msm/kernel/rcutree.c:1322-1359 | So does __rcu_process_gp_end, which marks done what waits for no later grace period than the last one over. |
| `RcuDelivery.ReportNumbersAll` | app/src/main/cpp/msm/kernel/rcutree.c:1785-1796 | So does a CPU whose own quiescent state is accepted. |
| `RcuDelivery.AdvanceAtRoot` | app/src/main/cpp/msm/kernel/rcutree.c:1664-1679 | Between grace periods rcu_start_gp leaves no callback waiting for longer than the next one, and makes done what waited for one that is over. |
| `RcuDelivery.CleanupDoneAdvances` | app/src/main/cpp/msm/kernel/rcutree.c:1535-1547 | The kthread's last step of a grace period does that for the callbacks of its own CPU. |
| `RcuDelivery.AllCredited` | app/src/main/cpp/msm/kernel/rcutree.c:749-2220 | With every running CPU idle, the force round credits every CPU that a leaf waits for. |
| `RcuDelivery.EndGp` | app/src/main/cpp/msm/kernel/rcutree.c:1402-1591 | Wherever the kthread stands, and whatever is awaited, the grace period in progress can end. |
| `RcuDelivery.MakeDone` | app/src/main/cpp/msm/kernel/rcutree.c:1214-1313 | Every callback on a running CPU can be numbered and the grace period of that number begin and end. |
| `RcuDelivery.NoCallbackIsStranded` | app/src/main/cpp/msm/kernel/rcutree.c:1069-2220 | From every reachable state in which some CPU runs, every callback outstanding on any CPU, dying ones included, can still be invoked: some continuation of the run gets there. |
| `RcuDelivery.DeadCpuCanRun` | app/src/main/cpp/msm/kernel/rcutree.c:2972-3046 | In every run a dead CPU can be brought up and run, unless onoff_mutex is held. |
| `RcuQuiescence.Notes` | app/src/main/cpp/msm/kernel/rcutree.c:994-1359 | Noticing a grace period or its end brings the CPU's numbers up to its leaf's, never back, and tells it whether it is awaited. |
| `RcuQuiescence.CpuKnowsGp` | app/src/main/cpp/msm/kernel/rcutree.c:994-1359 | In every run a CPU's numbers are not ahead of its leaf's, and whoever is awaited and has noticed the grace period has qs_pending set. |
| `RcuQuiescence.NumbersOnlyGrow` | app/src/main/cpp/msm/kernel/rcutree.c:994-1382 | A CPU's numbers never go back unless it is being brought up, and noticing brings them up to its leaf's. |
| `RcuQuiescence.KthreadNotices` | app/src/main/cpp/msm/kernel/rcutree.c:1438-1534 | The CPU that the kthread runs on notices the beginning and the end at its own leaf at once. |
| `RcuQuiescence.BroughtUpAfresh` | app/src/main/cpp/msm/kernel/rcutree.c:2972-3046 | A CPU brought up is not taken for idle, has an empty list, and is not asked for a quiescent state of a grace period that began without it. |
| `RcuQuiescence.AwaitedCanReport` | app/src/main/cpp/msm/kernel/rcutree.c:1762-1831 | In every reachable state a running CPU that is awaited can take itself off by its own steps, within the grace period. |
| `RcuQuiescence.CanAlwaysRead` | app/src/main/cpp/msm/kernel/rcutree.c:521-534 | A running CPU in no read-side section can always enter one, once it has left its idle loop. |
| `RcuQuiescence.ScanClears` | app/src/main/cpp/msm/kernel/rcutree.c:2180-2220 | A scan takes exactly the credited CPUs off their leaf. |
| `RcuQuiescence.IdleIsReported` | app/src/main/cpp/msm/kernel/rcutree.c:749-2220 | A CPU still awaited after its snapshot and idle at any time since is taken off by the next force round of the same grace period, whatever it does afterwards. |
| `RcuBarrier.CoveredMerge` | app/src/main/cpp/msm/kernel/rcutree.c:1894-1936 | The order of adoption keeps every callback ahead of the barrier callback it is covered by. |
| `RcuBarrier.RegisterKeeps` | app/src/main/cpp/msm/kernel/rcutree.c:2411-2429 | Registering a callback keeps the barrier invariant. |
| `RcuBarrier.InvokeKeeps` | app/src/main/cpp/msm/kernel/rcutree.c:2820-2831 | Invoking a callback, a barrier callback included, keeps it. |
| `RcuBarrier.LocalKeeps` | app/src/main/cpp/msm/kernel/rcutree.c:2062-2105 | Advancing, and starting and ending a batch, keep it. |
| `RcuBarrier.CpuDownKeeps` | app/src/main/cpp/msm/kernel/rcutree.c:1840-1936 | A CPU dying, with its callbacks moving to another CPU, keeps it. |
| `RcuBarrier.CallKeeps` | app/src/main/cpp/msm/kernel/rcutree.c:2850-2857 | Calling _rcu_barrier keeps it. |
| `RcuBarrier.MutexKeeps` | app/src/main/cpp/msm/kernel/rcutree.c:2859-2881 | Taking the mutex, the early exit and the second increment of n_barrier_done keep it. |
| `RcuBarrier.BeginKeeps` | app/src/main/cpp/msm/kernel/rcutree.c:2883-2900 | Making n_barrier_done odd and setting the count to one keep it. |
| `RcuBarrier.LookKeeps` | app/src/main/cpp/msm/kernel/rcutree.c:2908-2926 | Looking at one CPU's qlen keeps it: a CPU that is passed over has nothing outstanding. |
| `RcuBarrier.CallFuncKeeps` | app/src/main/cpp/msm/kernel/rcutree.c:2836-2844 | Queueing the barrier callback on a CPU keeps it. |
| `RcuBarrier.DropKeeps` | app/src/main/cpp/msm/kernel/rcutree.c:2929-2934 | Dropping the initial count keeps it. |
| `RcuBarrier.FinishKeeps` | app/src/main/cpp/msm/kernel/rcutree.c:2943-2948 | Returning after the completion keeps it. |
| `RcuBarrier.CountZeroMeansInvoked` | app/src/main/cpp/msm/kernel/rcutree.c:2929-2944 | When barrier_cpu_count is back to zero, nothing the barrier waits for is outstanding. |
| `RcuBarrier.StaysOrInvoked` | app/src/main/cpp/msm/kernel/rcutree.c:2062-2105 | No step makes an outstanding callback disappear except by invoking it. |
| `RcuBarrier.RunAccounts` | app/src/main/cpp/msm/kernel/rcutree.c:1840-1936 | In every run every callback registered has been invoked or is outstanding on some CPU. |
| `RcuBarrier.RunKeeps` | app/src/main/cpp/msm/kernel/rcutree.c:2850-2948 | The barrier invariant holds in every state of every run. |
| `RcuBarrier.BarrierWaitsForAll` | app/src/main/cpp/msm/kernel/rcutree.c:2820-2948 | When _rcu_barrier has returned, by the full path or the early exit, every callback outstanding anywhere at the call has been invoked. |
| `RcuBarrier.OnceKeeps` | app/src/main/cpp/msm/kernel/rcutree.c:2820-2948 | Every step of CPUs, hotplug and callers keeps each CPU's barrier_head outstanding at most once, and not at all while the barrier has still to look at the CPU. |
| `RcuBarrier.OneBarrierEach` | app/src/main/cpp/msm/kernel/rcutree.c:2836-2927 | In every run each CPU's barrier_head is outstanding at most once, wherever adoption has moved it. |
| `RcuBarrier.BarrierHeadIsFree` | app/src/main/cpp/msm/kernel/rcutree.c:2836-2844 | In every run rcu_barrier_func only queues a barrier_head that is not outstanding. |
| `RcuBarrier.QlenIsExact` | app/src/main/cpp/msm/kernel/rcutree.c:2102-2104 | qlen is the number of listed callbacks plus those taken out by the running batch. |
| `BarrierReturns.EarlyExitIffCovered` | app/src/main/cpp/msm/kernel/rcutree.c:2859-2881 | In every run a caller with the mutex returns at once exactly if a whole barrier has begun and ended since its snapshot, and else runs one. |
| `BarrierReturns.EmptyQueue` | app/src/main/cpp/msm/kernel/rcutree.c:2045-2105 | A CPU can always invoke everything that is queued on it. |
| `BarrierReturns.FinishHolder` | app/src/main/cpp/msm/kernel/rcutree.c:2859-2948 | Whoever holds the mutex, wherever it stands, can finish its barrier and return. |
| `BarrierReturns.EveryCallerCanReturn` | app/src/main/cpp/msm/kernel/rcutree.c:2850-2948 | From every reachable state every caller of _rcu_barrier can return. |
| `Expedited.TicketKeeps` | app/src/main/cpp/msm/kernel/rcutree.c:2639-2645 | Taking a ticket keeps the ticket invariant. |
| `Expedited.TryKeeps` | app/src/main/cpp/msm/kernel/rcutree.c:2648-2695 | Trying to stop all CPUs, failing, succeeding and fetching again keep it. |
| `Expedited.CheckKeeps` | app/src/main/cpp/msm/kernel/rcutree.c:2658-2683 | Returning because expedited_done has passed the ticket is covered by a whole stop after the ticket was taken. |
| `Expedited.PublishKeeps` | app/src/main/cpp/msm/kernel/rcutree.c:2698-2714 | The compare-and-exchange loop on expedited_done keeps it. |
| `Expedited.RunKeeps` | app/src/main/cpp/msm/kernel/rcutree.c:2617-2717 | The ticket invariant holds in every state of every run. |
| `Expedited.TicketSafety` | app/src/main/cpp/msm/kernel/rcutree.c:2617-2717 | Whoever returns without falling back is covered by a successful stop of all CPUs that began after its ticket was taken and ended before its return. |
| `Expedited.DoneOnlyGrows` | app/src/main/cpp/msm/kernel/rcutree.c:2698-2714 | expedited_done never decreases and never passes expedited_start. |
| `Expedited.ReturnIsPublished` | app/src/main/cpp/msm/kernel/rcutree.c:2704-2713 | Whoever returns without falling back leaves expedited_done at or past its own ticket. |
| `Expedited.AttemptsBounded` | app/src/main/cpp/msm/kernel/rcutree.c:2652-2674 | In every run nobody fails more than eleven times, and a caller falls back exactly if its eleventh attempt failed and it was not covered by then. |
| `Expedited.RetryCoversEveryone` | app/src/main/cpp/msm/kernel/rcutree.c:2685-2713 | A caller that tries again and succeeds covers everyone up to its last fetch: whoever has failed by then returns at its next check. |
| `Expedited.ComparisonIsExactIff` | app/src/main/cpp/msm/include/linux/rcupdate.h:81 | The wrapping comparison of two counters is right exactly if neither is more than half a word ahead of the other. |
| `Dynticks.StepKeeps` | app/src/main/cpp/msm/kernel/rcutree.c:345-394 | Idle, irq and NMI entry and exit, with an NMI possible between nesting update and increment, keep the parity invariant. |
| `Dynticks.EvenMeansQuiescent` | app/src/main/cpp/msm/kernel/rcutree.c:470-534 | In every reachable state dynticks is even exactly in extended quiescence. |
| `Dynticks.UnpairedCallsBreakParity` | app/src/main/cpp/msm/kernel/rcutree.c:521-534 | The alternation of idle entry and exit is needed: the increment gives the right parity exactly if the call matches the state. |
| `Dynticks.NestingBalances` | app/src/main/cpp/msm/kernel/rcutree.c:381-534 | rcu_eqs_enter takes back what rcu_eqs_exit added, at every nesting level. |
| `Dynticks.NestedNmisBreakParity` | app/src/main/cpp/msm/kernel/rcutree.c:636-670 | NMIs must not nest: two inside each other leave the parity right exactly if the CPU was not in extended quiescence, and the inner exit never increments. |
| `Dynticks.CreditMeansEvenOrTwo` | app/src/main/cpp/msm/kernel/rcutree.c:761-781 | The 32-bit comparison credits a CPU only if the counter is even or has moved by two, however often it wrapped. |
| `Dynticks.CreditIsSound` | app/src/main/cpp/msm/kernel/rcutree.c:749-781 | A CPU credited with a snapshot was in extended quiescence at some point from the snapshot on. |
| `Dynticks.CreditIsExactIff` | app/src/main/cpp/msm/kernel/rcutree.c:761-781 | The 32-bit test credits exactly the CPUs that are or have been idle if and only if the counter has not moved by more than half a word. |
| `Dynticks.CreditIsComplete` | app/src/main/cpp/msm/kernel/rcutree.c:749-781 | A CPU in extended quiescence at any state from the snapshot to the test is credited, by the one or the other. |
| `RcuGeometry.Capacities` | app/src/main/cpp/msm/kernel/rcutree.c:3272-3280 | The table of how many CPUs a tree of each height can take. |
| `RcuGeometry.InitGeometry` | app/src/main/cpp/msm/kernel/rcutree.c:3271-3314 | It accepts exactly the CPU counts and fanouts that fit; the level counts are the fewest levels with enough nodes, and rcu_num_nodes is their sum. |
| `RcuGeometry.InitLevelspread` | app/src/main/cpp/msm/kernel/rcutree.c:3158-3170 | The spread of each level is its children divided by its nodes, rounded up. |
| `RcuGeometry.SpreadIsBalanced` | app/src/main/cpp/msm/kernel/rcutree.c:3158-3170 | One root, no spread above its fanout, and no group left empty. |
| `RcuGeometry.BuildLevel` | app/src/main/cpp/msm/kernel/rcutree.c:3210-3239 | One level is filled in, and no other node is touched. |
| `RcuGeometry.BuildNodes` | app/src/main/cpp/msm/kernel/rcutree.c:3206-3240 | All levels are filled in, from the leaves up. |
| `RcuGeometry.AssignLeaves` | app/src/main/cpp/msm/kernel/rcutree.c:3245-3251 | The scan gives every possible CPU the leaf whose range it is in. |
| `RcuGeometry.InitOne` | app/src/main/cpp/msm/kernel/rcutree.c:3198-3251 | Whatever rcu_init_geometry accepted becomes a balanced tree with its CPUs assigned. |
| `RcuGeometry.NodeIsProper` | app/src/main/cpp/msm/kernel/rcutree.c:3208-3240 | Every node but the root hangs off an earlier node one level up, with a bit below that level's spread and a nonempty range inside its parent's. |
| `RcuGeometry.SiblingsDiffer` | app/src/main/cpp/msm/kernel/rcutree.c:3226-3235 | Siblings have different bits. |
| `RcuGeometry.CpuInLeaf` | app/src/main/cpp/msm/kernel/rcutree.c:3245-3251 | Every CPU is in its leaf's range, at an offset below the leaf spread. |
| `RcuGeometry.NobodyIsChildless` | app/src/main/cpp/msm/kernel/rcutree.c:3158-3170 | Every interior node has a child and every leaf a CPU. |
| `RcuGeometry.AllProper` | app/src/main/cpp/msm/kernel/rcutree.c:3307-3314 | The node array has as many nodes as rcu_num_nodes says, all of them proper. |
| `RcuGeometry.GeometryIsATopology` | app/src/main/cpp/msm/kernel/rcutree.c:3198-3314 | Every accepted geometry is a tree on which the combining-tree results hold; its leaves are the nodes of the last level. |
| `Migrate.RemapIs` | app/src/main/cpp/msm/mm/mempolicy.c:1107-1109 | For all weights: a node of `from` goes to the node of `to` whose rank is its own modulo the weight of `to`; a node outside `from`, or with `to` empty, stays. |
| `Migrate.TargetLands` | app/src/main/cpp/msm/mm/mempolicy.c:1080-1116 | Where a page on a node belongs, said by counting the nodes below it in each mask, is where the loop sends it. |
| `Migrate.RemapOrdered` | app/src/main/cpp/msm/mm/mempolicy.c:1080-1116 | With equal weights the remap preserves the order of the nodes. |
| `Migrate.FreeDestination` | app/src/main/cpp/msm/mm/mempolicy.c:1080-1116 | With equal weights a node that can move to a node not waiting itself exists whenever any node is left to move. |
| `Migrate.Pick` | app/src/main/cpp/msm/mm/mempolicy.c:1081-1116 | The scan finds the first such node, else the last one that moves, else none is left. |
| `Migrate.PickedIsFinal` | app/src/main/cpp/msm/mm/mempolicy.c:1081-1116 | The destination picked will not be emptied later. |
| `Migrate.Memory.MigrateToNode` | app/src/main/cpp/msm/mm/mempolicy.c:1122-1126 | Everything movable on the source goes to the destination; the result counts the rest. |
| `Migrate.Memory.EmptyNode` | app/src/main/cpp/msm/mm/mempolicy.c:1118-1126 | One round moves exactly the pages that started out on the source. |
| `Migrate.Memory.DoMigratePages` | app/src/main/cpp/msm/mm/mempolicy.c:1080-1134 | The one-at-a-time moves equal one simultaneous remap: every page ends on the node of `to` with its rank modulo the weight, or stays where the masks say so, after at most one move; the result counts the pages that could not, and the loop ends. |
| `SharedPolicy.Store.constructor` | app/src/main/cpp/msm/mm/mempolicy.c:2437-2438 | A new store is empty. |
| `SharedPolicy.Store.SpLookup` | app/src/main/cpp/msm/mm/mempolicy.c:2133-2161 | The first range that meets the interval, or none meets it, for any shape of the tree. |
| `SharedPolicy.Store.Lookup` | app/src/main/cpp/msm/mm/mempolicy.c:2187-2204 | Lookup gives the policy of the range that has the page, also at the largest index, where the end wraps. |
| `SharedPolicy.Store.SpInsert` | app/src/main/cpp/msm/mm/mempolicy.c:2165-2185 | A range that meets no other is inserted in order, and BUG is not reached. |
| `SharedPolicy.EraseAtIs` | app/src/main/cpp/msm/mm/mempolicy.c:2321-2326 | Deleting a node removes exactly its range from the ordered walk. |
| `SharedPolicy.SetAtIs` | app/src/main/cpp/msm/mm/mempolicy.c:2372-2393 | Changing a node's bounds in place changes that range only. |
| `SharedPolicy.Split` | app/src/main/cpp/msm/mm/mempolicy.c:2378-2390 | Cutting the middle out of a range leaves every page outside it with its policy. |
| `SharedPolicy.SpannedIsFirst` | app/src/main/cpp/msm/mm/mempolicy.c:2378-2381 | A range reaching out on both sides is the first one met, so nothing has been changed when an allocation is needed. |
| `SharedPolicy.InsertedOverrides` | app/src/main/cpp/msm/mm/mempolicy.c:2398-2399 | The inserted range decides its own pages and no others. |
| `SharedPolicy.Store.ClearRange` | app/src/main/cpp/msm/mm/mempolicy.c:2366-2397 | No old range is left in the interval and nothing outside it changes; a node is asked for exactly if a range reaches out on both sides, before any change. |
| `SharedPolicy.Store.Replace` | app/src/main/cpp/msm/mm/mempolicy.c:2358-2421 | Point-wise override: new policy inside, old policies outside, ranges stay disjoint and ordered; it fails exactly if a needed allocation fails, and then changes nothing. |
| `Pidmap.PidNs.constructor` | app/src/main/cpp/msm/kernel/pid.c:70-82 | A new namespace has only clear bits and full free counts. |
| `Pidmap.PidNs.FreePidmap` | app/src/main/cpp/msm/kernel/pid.c:101-109 | The bit is cleared and its page's free count grows by one. |
| `Pidmap.PidNs.ScanPage` | app/src/main/cpp/msm/kernel/pid.c:183-197 | One page yields its first free pid below pid_max from the offset on, or none. |
| `Pidmap.PidNs.VisitPage` | app/src/main/cpp/msm/kernel/pid.c:167-197 | A missing page is allocated first; if that fails nothing changes. |
| `Pidmap.ScansSuffice` | app/src/main/cpp/msm/kernel/pid.c:160-166 | max_scan passes try every pid. |
| `Pidmap.PositionMovesOn` | app/src/main/cpp/msm/kernel/pid.c:198-207 | From a page without a free pid the search goes on to the next page or back above the reserved pids, or everything it tries is taken. |
| `Pidmap.PidNs.Scan` | app/src/main/cpp/msm/kernel/pid.c:166-210 | The loop over the pages finds the pid that comes first in the order of the search, or there is none. |
| `Pidmap.PidNs.AllocPidmap` | app/src/main/cpp/msm/kernel/pid.c:150-210 | The next-fit pid is taken, with the free counts and last_pid; -1 with all pages obtainable means that everything tried is taken. |
| `Pidmap.ExhaustedIs` | app/src/main/cpp/msm/kernel/pid.c:198-210 | The search fails exactly if everything from the starting point, and every unreserved pid, is taken; RESERVED_PIDS does not count if it was the last pid. |
| `Pidmap.ReservedIsNotRetried` | app/src/main/cpp/msm/kernel/pid.c:201-206 | RESERVED_PIDS free but last handed out is passed over: the search fails. |
| `Pidmap.PidBeforeIsTheWalk` | app/src/main/cpp/msm/kernel/pid.c:114-124 | pid_before is the order of the search from its starting point. |
| `PidRace.StepKeeps` | app/src/main/cpp/msm/kernel/pid.c:140-190 | Every atomic access of every caller, and every freeing, keeps the bits that are owned set and apart. |
| `PidRace.NoneTwice` | app/src/main/cpp/msm/kernel/pid.c:185-189 | In every run of any number of callers no pid is owned by two of them. |
| `PidRace.NoneLeaks` | app/src/main/cpp/msm/kernel/pid.c:101-190 | In every run the set bits are exactly those of pids handed out before and those callers own, never both, and a pid given back can be taken again. |
| `PidRace.WritesGoForward` | app/src/main/cpp/msm/kernel/pid.c:140-148 | Whoever changes last_pid sets its own pid and moves it forward in the order of its own search. |
| `PidRace.NeverBehind` | app/src/main/cpp/msm/kernel/pid.c:125-148 | Callers from any starting points: followed round the circle of pids, last_pid never goes back, and it is never behind the pid of a caller that has finished. |
| `PidRace.LatestWins` | app/src/main/cpp/msm/kernel/pid.c:125-148 | Of callers racing from the same last_pid the one whose pid comes latest in the search prevails, whatever the order of their writes. |
| `Pidmap.PidNs.NextPidmap` | app/src/main/cpp/msm/kernel/pid.c:212-231 | The least set bit above the given pid, or -1. |
| `PidTable.TakeAt` | app/src/main/cpp/msm/kernel/pid.c:303-309 | Taking a number at one level leaves all other namespaces alone. |
| `PidTable.GiveBackAt` | app/src/main/cpp/msm/kernel/pid.c:340-342 | Giving a number back at one level leaves all other namespaces alone. |
| `PidTable.Rollback` | app/src/main/cpp/msm/kernel/pid.c:340-342 | The error path brings every bitmap and free count back. |
| `PidTable.TakeNumbers` | app/src/main/cpp/msm/kernel/pid.c:300-310 | A next-fit number at every level, or none taken at all. |
| `PidTable.Hash.AddIs` | app/src/main/cpp/msm/kernel/pid.c:326-330 | Adding at the head of a chain adds exactly that number. |
| `PidTable.Hash.RemoveIs` | app/src/main/cpp/msm/kernel/pid.c:262-266 | Deleting from a chain removes exactly that number. |
| `PidTable.AddTallied` | app/src/main/cpp/msm/kernel/pid.c:326-330 | Hashing a number and counting it keeps nr_hashed of every namespace the number of its entries. |
| `PidTable.RemoveTallied` | app/src/main/cpp/msm/kernel/pid.c:262-266 | So does unhashing one and counting it off. |
| `PidTable.Table.HashAll` | app/src/main/cpp/msm/kernel/pid.c:322-331 | All numbers are hashed, each namespace's count grows by one, and hashed numbers stay set bits. |
| `PidTable.Table.AllocPid` | app/src/main/cpp/msm/kernel/pid.c:288-347 | A pid gets next-fit numbers at all levels, all hashed; or a failure leaves bitmaps, free counts, hash and counts as before. |
| `PidTable.Table.UnhashAll` | app/src/main/cpp/msm/kernel/pid.c:261-280 | All numbers leave the hash while their bits stay set. |
| `PidTable.Table.GiveAllBack` | app/src/main/cpp/msm/kernel/pid.c:282-283 | Then the bits are cleared, and hashed numbers are still set bits. |
| `PidTable.Table.FreePid` | app/src/main/cpp/msm/kernel/pid.c:255-286 | Exactly the pid's numbers leave hash and bitmaps. |
| `PidTable.FreeUndoesAlloc` | app/src/main/cpp/msm/kernel/pid.c:255-347 | Freeing what was allocated brings every bitmap and free count back. |
| `PidTable.Table.FindPid` | app/src/main/cpp/msm/kernel/pid.c:356-367 | The pid hashed under the number in the namespace, or none is. |
| `PidTable.Table.FindGePid` | app/src/main/cpp/msm/kernel/pid.c:552-564 | The pid with the least hashed number from the given one on, or there is none; the loop ends. |
| `LoadAverage.FixedPowerInt` | app/src/main/cpp/msm/kernel/sched/core.c:4029-4049 | In wrapping words; for up to 31 fractional bits and a base up to one: within n/2 of 2^f * (x/2^f)^n and never above 2^f. |
| `LoadAverage.ProductsFitIff` | app/src/main/cpp/msm/kernel/sched/core.c:4035-4045 | No product of two numbers up to one wraps exactly if there are at most 31 fractional bits; beyond, one times one comes out as zero. |
| `LoadAverage.PowerIsCloseIff` | app/src/main/cpp/msm/kernel/sched/core.c:4029-4049 | That bound holds for every base up to one and every exponent exactly if there are at most 31 fractional bits. |
| `LoadAverage.RoundedProduct` | app/src/main/cpp/msm/kernel/sched/core.c:4035-4045 | Rounding a product of two approximations adds their errors and half a unit. |
| `LoadAverage.CalcLoadStays` | app/src/main/cpp/msm/kernel/sched/core.c:3887-3894 | A step stays between the old value and the sample. |
| `LoadAverage.CalcLoadIsExactIff` | app/src/main/cpp/msm/kernel/sched/core.c:3887-3894 | Unsigned longs compute the step exactly if the sum fits, which it does for loads and samples that leave FSHIFT bits free. |
| `LoadAverage.ClosedForm` | app/src/main/cpp/msm/kernel/sched/core.c:4051-4073 | n ideal steps are load * e^n + active * (1 - e^n). |
| `LoadAverage.CalcLoadN` | app/src/main/cpp/msm/kernel/sched/core.c:4074-4080 | One step with the power stays between load and sample, and within |load - active| * n / 4096 + 1/2 of n ideal steps. |
| `LoadAverage.SampleReadsBack` | app/src/main/cpp/msm/kernel/sched/core.c:4146 | A count of active tasks is read back from its sample with nothing behind the point, a negative one as none, and a steady count stays. |
| `LoadAverage.DecaysAreNearest` | app/src/main/cpp/msm/include/linux/sched.h:149-151 | EXP_1, EXP_5 and EXP_15 are the fixed-point numbers nearest to the 12th, 60th and 180th root of 1/e. |
| `LoadAverage.Averages.CalcGlobalNohz` | app/src/main/cpp/msm/kernel/sched/core.c:4091-4121 | Catching up applies each average's own decay for exactly the windows missed. |
| `LoadAverage.Averages.CalcGlobalLoad` | app/src/main/cpp/msm/kernel/sched/core.c:4133-4160 | The averages stay between old values and samples; the update time is caught up in whole windows and no further. |
| `LoadAverage.Averages.RunUpdates` | app/src/main/cpp/msm/kernel/sched/core.c:4133-4160 | Over any sequence of calls the averages stay between bounds on their first values and on both samples of every call, and the update time stays on its grid, caught up with every call. |
| `LoadAccounting.TaskStepKeeps` | app/src/main/cpp/msm/kernel/sched/core.c:853-867 | Every change of state or flag, activation, deactivation, wakeup, migration and throttling keeps the sums. |
| `LoadAccounting.FoldStepKeeps` | app/src/main/cpp/msm/kernel/sched/core.c:3869-4012 | Every fold and every addition keeps the sums; what a fold records is `LoadAccounting.FoldIsExact`. |
| `LoadAccounting.FoldIsExact` | app/src/main/cpp/msm/kernel/sched/core.c:3869-3883 | In every run a fold leaves calc_load_active at the runnable tasks of the CPU plus its nr_uninterruptible, and takes the difference along. |
| `LoadAccounting.RunningIsExact` | app/src/main/cpp/msm/kernel/sched/core.c:6868-6872 | In every run each CPU's nr_running is the number of unthrottled tasks on its runqueue. |
| `LoadAccounting.SleepersAreCounted` | app/src/main/cpp/msm/kernel/sched/core.c:2976-2986 | In every run the sum of nr_uninterruptible is the number of tasks that slept uninterruptibly and are not yet activated, plus the activations that missed one and minus those that discounted one never counted; both only grow. |
| `LoadAccounting.LoadIsConserved` | app/src/main/cpp/msm/kernel/sched/core.c:3869-4012 | calc_load_tasks plus both idle slots plus the deltas in flight is the sum of calc_load_active; with all folded, it is the runnable tasks plus the sleepers, up to the miscounted activations. |
| `LoadAccounting.FoldsAddUp` | app/src/main/cpp/msm/kernel/sched/core.c:3869-4012 | A run in which every CPU folds after the last task step and every delta is added ends with calc_load_tasks and the idle slots equal to the runnable tasks plus the sleepers, up to the miscounted activations. |
| `LoadAccounting.WakeupIsExactIff` | app/src/main/cpp/msm/kernel/sched/core.c:853-859 | From any state, a wakeup by either path leaves the count exact if and only if the task contributes as it did when it went to sleep. |
| `LoadAccounting.WakeupIsExactIffFlagHeld` | app/src/main/cpp/msm/kernel/sched/core.c:3172-3173 | In every run, a wakeup from an exact count leaves it exact if and only if an uninterruptible sleeper's frozen flag is what it was when it was deactivated. |
| `LoadAccounting.ExactWithoutFreezing` | app/src/main/cpp/msm/kernel/sched/core.c:3172-3173 | In every run in which no frozen flag changes off the runqueue nothing is miscounted and the count is exact. |
| `LoadAccounting.FreezingASleeperMiscounts` | app/src/main/cpp/msm/kernel/sched/core.c:3172-3173 | A run that freezes a sleeping task and wakes it, after which the count is one too high. |
| `RtGroups.WalkTgTreeFrom` | app/src/main/cpp/msm/kernel/sched/core.c:782-811 | The goto loop visits in recursive pre- and post-order and stops at the first error, which it returns. |
| `RtGroups.WalkDecides` | app/src/main/cpp/msm/kernel/sched/core.c:782-811 | A walk from the root returns zero exactly if every group passes. |
| `RtGroups.RatioIsExact` | app/src/main/cpp/msm/kernel/sched/core.c:9437-9443 | The 64-bit ratio is the rounded-down fraction exactly for runtimes below 2^44 ns. |
| `RtGroups.UnlimitedIsWhole` | app/src/main/cpp/msm/kernel/sched/core.c:9437-9443 | Unlimited runtime counts as the whole period. |
| `RtGroups.Groups.constructor` | app/src/main/cpp/msm/kernel/sched/core.c:8991-8994 | The root group with the global settings is admissible. |
| `RtGroups.Groups.TgRtSchedulable` | app/src/main/cpp/msm/kernel/sched/core.c:9471-9525 | With one group's settings replaced, the test of a group, its children's ratios summed in a word. |
| `RtGroups.ChecksMean` | app/src/main/cpp/msm/kernel/sched/core.c:9471-9525 | All groups pass the test in 64-bit words exactly if all are admissible: what would make a sum wrap does not pass on its own. |
| `RtGroups.CheckSays` | app/src/main/cpp/msm/kernel/sched/core.c:9471-9525 | -EBUSY says that a group with real-time tasks would get no runtime, -EINVAL that some group would not fit. |
| `RtGroups.Groups.RtSchedulable` | app/src/main/cpp/msm/kernel/sched/core.c:9527-9542 | Zero exactly if the whole tree is admissible under the change, and an error that says which way it is not. |
| `RtGroups.Groups.SetRtBandwidth` | app/src/main/cpp/msm/kernel/sched/core.c:9544-9572 | The change is made, in the group and in every CPU's copy, exactly if it is admissible; otherwise nothing changes and the error says why. |
| `RtGroups.Groups.SetGlobal` | app/src/main/cpp/msm/kernel/sched/core.c:9620-9644 | New global limits are taken exactly if every group still fits; otherwise the error says why. |
| `RtGroups.Groups.NewGroup` | app/src/main/cpp/msm/kernel/sched/core.c:9327-9341 | A new group without runtime keeps the tree admissible; without memory nothing changes. |
| `RtGroups.UnrelatedGroupsFit` | app/src/main/cpp/msm/kernel/sched/core.c:9471-9572 | Whatever has been admitted, the ratios of mutually unrelated groups add up to at most the root's ratio, itself within the global limit. |
| `RtGroups.Groups.RunChanges` | app/src/main/cpp/msm/kernel/sched/core.c:9544-9644 | After any sequence of requests, admitted or not, the ratios of mutually unrelated groups add up to at most the root's, itself within the global limit. |
| `KthreadWorker.QueueKeeps` | app/src/main/cpp/msm/kernel/kthread.c:572-585 | Queueing keeps the worker invariant; the order it gives is `KthreadWorker.FirstQueuedFirstRun`. |
| `KthreadWorker.DequeueKeeps` | app/src/main/cpp/msm/kernel/kthread.c:529-537 | The worker's dequeue keeps it; a marker at the front has nothing left to wait for. |
| `KthreadWorker.FinishKeeps` | app/src/main/cpp/msm/kernel/kthread.c:539-543 | A work function returning keeps it. |
| `KthreadWorker.MarkerKeeps` | app/src/main/cpp/msm/kernel/kthread.c:550-561 | Inserting a marker behind everything its flush waits for keeps it. |
| `KthreadWorker.FlushWorkKeeps` | app/src/main/cpp/msm/kernel/kthread.c:620-636 | Each branch of flush_kthread_work puts the marker in the right place or has nothing to wait for. |
| `KthreadWorker.FlushIdleKeeps` | app/src/main/cpp/msm/kernel/kthread.c:615-618 | Returning at once for a work without a worker is right. |
| `KthreadWorker.FlushWorkerKeeps` | app/src/main/cpp/msm/kernel/kthread.c:647-656 | A marker at the tail is behind everything. |
| `KthreadWorker.RunKeeps` | app/src/main/cpp/msm/kernel/kthread.c:511-657 | The worker invariant holds in every state of every run. |
| `KthreadWorker.FlushSafety` | app/src/main/cpp/msm/kernel/kthread.c:593-657 | A flush has returned only if every execution queued or running at its call is over. |
| `KthreadWorker.NothingIsLost` | app/src/main/cpp/msm/kernel/kthread.c:511-588 | Each execution is over exactly if it is neither under way nor pending; works queued are executions over, under way and pending; insertions, markers included, are dequeues plus entries. |
| `KthreadWorker.AtMostOnce` | app/src/main/cpp/msm/kernel/kthread.c:529-541 | In every run no execution is listed twice, listed while under way, or listed or under way after it is over. |
| `KthreadWorker.FirstQueuedFirstRun` | app/src/main/cpp/msm/kernel/kthread.c:529-585 | In every run the executions on the list are in the order of their queueing, and all later than every one over or under way. |
| `KthreadWorker.FlushWaitsForNoLater` | app/src/main/cpp/msm/kernel/kthread.c:620-636 | In every run a flush of one work waits for nothing queued after that work. |
| `WorkerReturns.EverythingCanEnd` | app/src/main/cpp/msm/kernel/kthread.c:511-546 | From every reachable state the worker's own steps can end every execution queued so far, and the wait of every flush. |
| `WorkerReturns.EveryFlushCanReturn` | app/src/main/cpp/msm/kernel/kthread.c:593-657 | From every reachable state every flush can return. |
| `WorkerReturns.RestingWorkerIsFlushedAtOnce` | app/src/main/cpp/msm/kernel/kthread.c:529-636 | Once the worker has looked at its empty list, a flush of any work returns at once. |
| `Demand.UpdateWindowStart` | app/src/main/cpp/msm/kernel/sched/core.c:1251-1264 | The window start stays on its grid and within one window of the clock exactly if fewer than 2^31 windows have passed. |
| `Demand.ScaleShrinks` | app/src/main/cpp/msm/kernel/sched/core.c:1266-1286 | Of up to a window of time no 64-bit product wraps, and scaled time is never longer, given frequencies and efficiencies within their maxima. |
| `Demand.ScaleIsProportional` | app/src/main/cpp/msm/kernel/sched/core.c:1266-1286 | Scaled time is the time at full frequency, rounded up, times the efficiency in 1024ths, rounded up, then rounded down; a capped or unknown frequency counts as the CPU's highest. |
| `Demand.ProductIsExactIff` | app/src/main/cpp/msm/kernel/sched/core.c:1276-1278 | The 64-bit product gives the time at full frequency exactly if it fits. |
| `Demand.ShiftHistory` | app/src/main/cpp/msm/kernel/sched/core.c:1650-1658 | The in-place loop moves the old samples up; it leaves the array exactly for negative numbers of new ones from the history's size above -2^31 on, and below that the index wraps and nothing moves. |
| `Demand.ShiftLoop` | app/src/main/cpp/msm/kernel/sched/core.c:1653-1658 | Once entered, the loop moves the samples up in place with their sum and maximum, or leaves the array for a negative number of new ones. |
| `Demand.IndexWraps` | app/src/main/cpp/msm/kernel/sched/core.c:1651-1652 | The first index read is exact, or wraps to a negative one exactly for the lowest numbers of samples. |
| `Demand.FillHistory` | app/src/main/cpp/msm/kernel/sched/core.c:1660-1665 | The new samples enter at the front. |
| `Demand.PushHistory` | app/src/main/cpp/msm/kernel/sched/core.c:1650-1665 | Together a shift register, with the sum and maximum of what it then holds; nothing at all, with sum and maximum zero, if the index wraps. |
| `Demand.PushedOneByOne` | app/src/main/cpp/msm/kernel/sched/core.c:1650-1665 | Pushing several samples at once is pushing them one by one. |
| `Demand.Task.UpdateHistory` | app/src/main/cpp/msm/kernel/sched/core.c:1638-1689 | Empty windows are ignored; otherwise the history shifts and the demand is, by policy, the sample, a maximum of the history, its rounded-down average, or the larger of sample and average, and stays within a window; a wrapped index loses the samples and gives the demand of an empty history; the array is left exactly as for the shift. |
| `Demand.NewDemandIs` | app/src/main/cpp/msm/kernel/sched/core.c:1672-1683 | The demand of each policy, said by what it is among the samples: the newest; one of them and none larger; their average rounded down; the larger of newest and average. |
| `Demand.Task.AddToTaskDemand` | app/src/main/cpp/msm/kernel/sched/core.c:1691-1698 | The 32-bit sum saturates at the window, and does not wrap for up to a window of time. |
| `Demand.Task.NeverLooksExiting` | app/src/main/cpp/msm/kernel/sched/core.c:1232-1237 | A sample within the window is never taken for the exiting-task marker. |
| `Demand.Task.UpdateTaskDemand` | app/src/main/cpp/msm/kernel/sched/core.c:1750-1800 | With fewer than 2^31 windows passed, busy time is cut at the window boundaries: first sample, full windows, remainder; otherwise the result is that of machine integers, nothing exceeds a window, and the history leaves its array exactly if the windows stray. |
| `Demand.Task.AccountWindows` | app/src/main/cpp/msm/kernel/sched/core.c:1780-1792 | The part before the current window, in machine integers: the first sample and the full windows, unless they stray. |
| `Demand.IntIsAccount` | app/src/main/cpp/msm/kernel/sched/core.c:1750-1800 | Below 2^31 windows machine integers account as specified, for every event. |
| `Demand.PiecesAreRightIff` | app/src/main/cpp/msm/kernel/sched/core.c:1781-1786 | The first piece lies within a window exactly if fewer than 2^31 full windows have passed; otherwise it is 2^32 windows or more. |
| `Demand.StraysIff` | app/src/main/cpp/msm/kernel/sched/core.c:1651-1653 | The history leaves its array exactly if the low 32 bits of the number of full windows are 2^31 plus the history's size or more and busy windows are not empty. |
| `Demand.LongSleeps` | app/src/main/cpp/msm/kernel/sched/core.c:1651-1653 | Inputs: 2^32 - 1 windows are -1 samples and stray; 2^31 windows wrap the index and do not. |
| `Demand.OneCallIsStepwise` | app/src/main/cpp/msm/kernel/sched/core.c:1775-1800 | One call over any number of windows leaves the same history, sum and demand as a call at every window boundary on the way. |
| `Demand.RunQueue.UpdateTaskRavg` | app/src/main/cpp/msm/kernel/sched/core.c:1803-1823 | One event: the window start stays on its grid and within a window of the clock exactly if fewer than 2^31 windows have passed, and the task is accounted as specified unless the event is that late. |
| `Demand.RunQueue.RunEvents` | app/src/main/cpp/msm/kernel/sched/core.c:1803-1823 | Over any sequence of events of any tasks with a nondecreasing clock, up to the first that is 2^31 windows late: the window start stays on the grid of the first one and within a window of the clock, nothing exceeds a window, and nothing is left over at a boundary. |
| `KthreadWorker.NextKeeps` | app/src/main/cpp/msm/kernel/kthread.c:511-657 | Every step of the worker and of every caller keeps the worker invariant. |
| `LoadAccounting.RunKeeps` | app/src/main/cpp/msm/kernel/sched/core.c:853-4012 | Both sums hold in every state of every run. |
| `Dynticks.RunKeeps` | app/src/main/cpp/msm/kernel/rcutree.c:345-670 | The parity invariant holds in every state of every run, and dynticks grows by at most one per step. |
| `RcuBarrier.NextKeeps` | app/src/main/cpp/msm/kernel/rcutree.c:2820-2948 | Every step of every caller and CPU keeps the barrier invariant. |

## Left out

- Weak memory ordering: steps are sequentially consistent, and lock-held sections are atomic.
- Liveness that needs scheduling fairness: that grace periods, barriers and flushes can always end is proved, that every fair schedule ends them is not, nor that compare-and-exchange loops win in the end.
- RCU stall warnings, tracing, priority boosting, offloaded callbacks, preemptible RCU and user-mode quiescent states.
- The callback counters for lazy callbacks, the batch limit and the forcing of quiescent states by queue length: they only steer when steps happen.
- The fall-back of `synchronize_sched_expedited` to an ordinary grace period, on a nearly wrapped counter or after eleven failed attempts, which `RcuGrace` covers.
- The exact-fanout spread of `rcu_init_levelspread`, a build option.
- RcuGeometry.InitGeometry: leaves out the early return that keeps the compile-time tables of `rcutree.h`.
- RcuGrace.CreditIsSound: takes it that an offline CPU has no read-side section, and leaves the age of the grace period free.
- Expedited.TicketSafety: counts tickets in natural numbers; Expedited.ComparisonIsExactIff says when the wrapping comparisons agree.
- Red-black balancing and reference counts of the policy tree; any rebalancing that keeps the order is allowed instead.
- Page-table scanning, `migrate_prep` and `migrate_vmas`; migrating a node moves every page on it that can move.
- PidRace.LatestWins: speaks of callers from the same starting point; for others the order is cyclic, and PidRace.NeverBehind states it along the line.
- Waking the child reaper and freeing the pid structure in `free_pid`: calls into other subsystems.
- Removal of task groups, which can only lower the sums.
- The choice of idle slot by `calc_load_idx` and the update times of single CPUs: the sums hold for any choice.
- `update_cpu_busy_time`, `fixup_busy_time` and the idle and exiting tasks of the demand accounting.
- A kthread work used with several workers, whose retry loop in `flush_kthread_work` then matters.
- `fork.c`, `init/main.c`, `file_table.c`, `idle.c` and the Java and native bridge code: sequencing of calls into code that is not here.
- LoadAverage.Averages.CalcGlobalLoad: takes the task counts as read and computes in natural numbers; LoadAverage.CalcLoadIsExactIff says when 64-bit words agree.
- Demand.Task.UpdateTaskDemand: says nothing of what is overwritten once the history has left its array.
- The balancing of real-time runtime between CPUs, which changes the copies: `rt.c` is not part of this model.
- PidTable.Table.AllocPid: on failure `last_pid` may have moved and bitmap pages may have been allocated, as in the code; neither is stated.
