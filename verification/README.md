# Verified models of six kernel algorithms

This project models six components of the repository in Dafny and proves what they are for.

* **The block map of an ext2 file** (`io_uring/inode.c`; modules `Ext2Path`, `Ext2Tree`, `Ext2Free`, `Ext2Trunc`,
  `Ext2`, `Ext2Graft`, `Ext2Alloc`, `Ext2Lookup`, `Ext2Run`). A file is an inode with 15 pointers and a disk of blocks
  full of pointers. The meaning of the tree is a map from logical to physical blocks (`Mapping`); what it owns is a
  multiset of blocks (`OwnAll`), and a tree is unshared if no block occurs twice. Truncation and allocation run in place on the class
  `BlockMap` and are proved against that meaning. The lookup without the mutex sees a different tree at each moment
  (`Moments`).
* **System V message queues** (`msg.c`; modules `Msg` to `MsgQueue`). Every lock section is one step on values
  (`SendEffect`, `RecvEffect`, ...), the unlocked look at `r_msg` is a step of its own, and `MsgRun` puts any number of
  tasks and queues together. The class `LockedQueue` walks and changes the lists in place and is proved to have those
  effects.
* **The receive load balancing table** (`servers/bond_alb.c`; modules `RlbList`, `Rlb`, `RlbTable`). One array carries
  two kinds of intrusive lists. A table is valid if there are lists that its links spell out; the operations are
  functions on values and methods of the class `RxTable`.
* **Link aggregation** (`servers/bond_3ad.c`; modules `LacpList`, `LacpElect`, `LacpRun`, `LacpBond` for ports and
  aggregators, `LacpPort`, `LacpTimeout`, `LacpMachine` for the timed machines of one port, after clause 43.4 of IEEE
  802.3ad).
* **io_uring filter sets** (`io_uring/bpffilter.c`; modules `FilterRefs`, `FilterVerdict`, `FilterRun`, `FilterSets`):
  immutable chains that share tails under reference counts, and copy-on-write tables. `FilterRun` has the operations as
  steps on values and the theorems about runs; the class `Registry` is proved to take those steps.
* **Limb arithmetic** (`io_uring/math64.h`, `rust/types.c`; module `Limb`, with `Arith` for division with remainder):
  128-bit products from 32-bit halves, and division by shifting and subtracting.

Where the code updates things in place the model is a class with loops; each method is proved against functions or
predicates on values, and the theorems about runs are proved about those.

Five promises that one might expect do not hold of the code. Each has an input that shows it and the condition under
which the promise holds:

* A filter registered on a restriction that has been cloned is felt by the clone, because cloning marks only the clone
  for copy on write (`FilterRun.SourceReachesClone`). `FilterRun.RegisterExactly` says for every restriction whether it
  is narrowed: exactly the one registered on, and those that share a table which it changes in place.
* Cloning onto a restriction that already has filters overwrites its table without putting it, so what it lets pass may
  grow and the table is never freed (`FilterRun.OverwriteGrows`). `FilterRun.OverwriteTightens` says exactly when it does
  not grow, `FilterRun.CloneExactly` and `FilterRun.AllPut` exactly when a reference is lost; in runs without such a
  clone nothing grows (`FilterRun.NeverGrows`).
* Silence need not stop a port: after a looped back LACPDU its timer is off (`LacpTimeout.LoopbackExample`), and a
  disabled port keeps its state. `LacpTimeout.StillCarrying` gives the exact condition.
* The comment above the aggregator selection says that the STABLE policy reselects only when the active aggregator has
  no more ports. The code also replaces one without a partner, or without a key, by one that has it
  (`LacpElect.StableReplaces`); `LacpElect.StableExactly` gives the exact condition.
* A lookup without the mutex may count a block that was mapped at no moment, when the node leaves the tree between the
  check of the chain and the read of the pointer (`Ext2Lookup.StaleRead`). The first block, and each block whose chain
  is still in place when its pointer is read, was mapped (`Ext2Lookup.MapMore`).


## Model

| member | source | states |
|---|---|---|
| Ext2Path.BlockRoundTrip | io_uring/inode.c:164-204 | every block within reach has a valid path, and the path leads back to that block |
| Ext2Path.PathRoundTrip | io_uring/inode.c:164-204 | every valid path is the path of the block it leads to; with the row above, paths and blocks correspond one to one |
| Ext2Path.NoPath | io_uring/inode.c:164-204 | a block has no path exactly when it is negative or beyond triple indirection |
| Ext2Path.PathBlockOrder | io_uring/inode.c:164-204 | block order is the lexicographic order of paths, both ways |
| Ext2Path.BoundaryCounts | io_uring/inode.c:164-204 | `boundary` counts the slots left in the same leaf: moving right by up to that many slots moves forward by as many blocks |
| Ext2Tree.TrimMapping | io_uring/inode.c:1174-1264 | a tree trimmed along the path of `cut` maps every block below `cut` as before and no block from `cut` on |
| Ext2Tree.TrimNode | io_uring/inode.c:1219-1229 | if the slot on the path is trimmed and the slots after it are clear, the node itself is trimmed, and the freed blocks add up |
| Ext2Free.DataCallsExpand | io_uring/inode.c:1098-1125 | the runs passed to ext2_free_blocks expand to exactly the nonzero pointers, in order |
| Ext2Free.CallsMaximal | io_uring/inode.c:1098-1125 | no two runs that follow each other could have been one |
| Ext2Free.DataFreed | io_uring/inode.c:1098-1125 | these runs free each nonzero pointer once |
| Ext2Trunc.ShiftedFreed | io_uring/inode.c:1071-1073 | the case in which the path ends in zeros and the pointer on the path goes with those after it |
| Ext2Trunc.RootStep | io_uring/inode.c:1230-1259 | freeing the branch in one more inode slot keeps the slot on the path and everything before it |
| Ext2Trunc.TruncateDone | io_uring/inode.c:1174-1264 | a trimmed inode means: mappings below the cut kept, the others gone, and the calls freed each block that left the tree exactly once |
| Ext2.BlockMap.FreeData | io_uring/inode.c:1098-1125 | clears the slots, makes exactly the calls of `DataCalls`, and takes their blocks out of use |
| Ext2.BlockMap.FreeBranches | io_uring/inode.c:1138-1171 | frees every block below the slots once, whatever the depth, and touches no other block |
| Ext2.BlockMap.GetBranch | io_uring/inode.c:235-273 | with the mutex held: collects the pointers along the path up to the first unset one, or reports the block that cannot be read |
| Ext2.BlockMap.AllZeroes | io_uring/inode.c:997-1003 | whether no pointer is set in a range |
| Ext2.BlockMap.FindShared | io_uring/inode.c:1039-1086 | finds the node where the cut divides what stays from what goes; the pointer detached there leads to no data before the cut |
| Ext2.BlockMap.TruncateShared | io_uring/inode.c:1209-1229 | after the loop over the nodes on the path the inode slot on the path is trimmed |
| Ext2.BlockMap.TruncateDirect | io_uring/inode.c:1203-1207 | the direct slots from the path on are freed |
| Ext2.BlockMap.KillRest | io_uring/inode.c:1230-1259 | the indirect slots after the path are freed, falling through the switch |
| Ext2.BlockMap.TruncateBlocks | io_uring/inode.c:1174-1264 | for every offset: mappings below the rounded-up cut kept, the others gone, every block that left the tree freed exactly once, the tree still unshared; an offset out of reach changes nothing |
| Ext2Graft.LeafGrafted | io_uring/inode.c:562-583 | filling free leaf slots with a run of new blocks adds these mappings and no others |
| Ext2Graft.BranchGrafted | io_uring/inode.c:501-527 | the chain of new indirect blocks leads to the new data blocks and to nothing else |
| Ext2Graft.SpliceGrafted | io_uring/inode.c:562-605 | setting the missing pointer grafts the new branch onto the inode |
| Ext2Graft.GraftMapping | io_uring/inode.c:562-605 | after the graft the new blocks are mapped one after the other, and every other mapping is as before |
| Ext2Graft.HitRange | io_uring/inode.c:562-605 | the paths that are hit are exactly those of the blocks from `iblock` on |
| Ext2Alloc.NewBlocks | io_uring/inode.c:415-436 | what is assumed of ext2_new_blocks: an error, or between one and the wanted number of consecutive nonzero blocks that were not in use |
| Ext2Alloc.AllocBlocks | io_uring/inode.c:400-451 | takes the indirect blocks and at least one data block; on an error everything taken is given back |
| Ext2Alloc.AllocBranch | io_uring/inode.c:480-548 | takes and links a new branch without touching the tree; on an error, also of sb_getblk, every block taken is freed once |
| Ext2Alloc.BlksToAllocate | io_uring/inode.c:362-386 | how many blocks to ask for: within the leaf, all free, and no fewer than possible |
| Ext2Alloc.Splice | io_uring/inode.c:562-605 | writes the missing pointer and, in a leaf, those to the right of it |
| Ext2Alloc.SplicePlaced | io_uring/inode.c:562-605 | after the splice the branch is in place and nothing else has changed |
| Ext2Alloc.SpliceResult | io_uring/inode.c:562-605 | the spliced tree is unshared and in use, maps the new blocks, and owns exactly the blocks taken on top of its own |
| Ext2Alloc.Extend | io_uring/inode.c:719-768 | an allocation at an unset pointer either maps new consecutive blocks or gives everything back and leaves the tree as it was |
| Ext2Alloc.VerifyChain | io_uring/inode.c:127-132 | tells exactly whether the chain read earlier is still that of the tree |
| Ext2Alloc.AllocateLocked | io_uring/inode.c:685-768 | the part under the mutex, for any stale chain: the right answer, or the tree unchanged and everything taken given back |
| Ext2Lookup.GetBranch | io_uring/inode.c:235-273 | while others change the tree: the pointers collected are a chain of the tree as it was when the last one was read, or -EAGAIN because they no longer were |
| Ext2Lookup.MapMore | io_uring/inode.c:651-679 | the check of the chain and the read after it are moments of their own: each counted pointer was the next number when it was read and the chain was in place at the check before, and if it still was at the read, the block was mapped there; only the limit, the end of the leaf or a gap ends the count; -EAGAIN only if the chain changed |
| Ext2Lookup.StaleRead | io_uring/inode.c:656-674 | a block can be counted that was mapped at no moment: the node leaves the tree between a check and the read after it |
| Ext2Lookup.Lookup | io_uring/inode.c:647-679 | the part without the mutex: the first block was mapped while it ran, and so was each that follows unless the chain changed between its check and its read; or a block that was unmapped at some moment; -EAGAIN only if somebody changed the tree |
| Ext2Lookup.GetBlocks | io_uring/inode.c:625-783 | the whole call while others change the tree, and under the mutex: what it finds is as in `Lookup`, new blocks are consecutive and change no other mapping, the tree stays unshared, errors leave it as it was; with nobody else a mapped block is found without allocating, and as many as possible |
| Ext2Run.NoLeak | io_uring/inode.c:625-1264 | over any sequence of lookups, allocations and truncations, each lookup disturbed by others at any moment without the mutex, the blocks handed out are those freed and those of the tree, each as often |
| Limb.NoLostCarry | io_uring/math64.h:221-233 | adding the four partial products column by column loses no carry |
| Limb.MulU64U64Shr | io_uring/math64.h:204-244 | equals the product divided by 2^shift, modulo 2^64, for every shift below 128 |
| Limb.MulU64U32Shr | io_uring/math64.h:191-200 | the same for a 32-bit multiplier and every shift that the C code defines: up to 32, or below 64 if the first factor has no high half |
| Limb.MulU64U32Div | io_uring/math64.h:268-293 | equals the product divided by the divisor, modulo 2^64 |
| Limb.LongDivision | io_uring/math64.h:281-292 | dividing the high part first, then its remainder with the low part, gives the quotient |
| Limb.Div64 | rust/types.c:16-47 | terminates with quotient * base + remainder == dividend and remainder < base; no doubling overflows |
| Limb.Scale | rust/types.c:31-34 | doubles until the top bit or the dividend is reached, without overflow |
| Msg.ConvertMode | msg.c:1002-1024 | how the sign and the flags select the search mode |
| Msg.BestIsBest | msg.c:1074-1096 | the message found matches, and no message before it, nor one of a smaller type after it, does better |
| Msg.NumberedCounts | msg.c:1074-1096 | in copy mode the message found has exactly the asked number of matching ones before it |
| Msg.HandoffLeft | msg.c:816-846 | if nobody takes a message, no receiver that stays on the list accepts it |
| Msg.HandoffSplits | msg.c:816-846 | every receiver stays, is refused, or takes the message, and only one of these |
| Msg.FittingFits | msg.c:212-247 | the senders woken are exactly those whose message fits |
| MsgKeep.SendKeeps | msg.c:848-959 | a round of a send keeps the queue sound: counts exact, no waiting receiver matches a queued message, no unwoken sender fits |
| MsgKeep.RecvKeeps | msg.c:1098-1262 | the same for a round of a receive |
| MsgKeep.SetKeeps | msg.c:440-459 | the same for IPC_SET, whatever the new limit |
| MsgTheorems.StepKeeps | msg.c:848-1262 | every atomic step of sends, receives, wake-ups, signals, IPC_SET, IPC_RMID and the lockless peek keeps the invariant |
| MsgTheorems.RunKeeps | msg.c:848-1262 | so does every run |
| MsgTheorems.StartInv | msg.c:144-185 | the invariant holds at the start |
| MsgTheorems.NoMissedMessage | msg.c:1144-1245 | in every run, a receiver asleep and not answered matches no message of its queue |
| MsgTheorems.NoForgottenSender | msg.c:897-927 | in every run, a sender asleep and not woken has a message that does not fit |
| MsgTheorems.ExactCounters | msg.c:939-946 | in every run, the counters of queues and namespace equal the lengths and byte sums |
| MsgTheorems.EachMessageOnce | msg.c:848-1262 | in every run, the accepted messages are those queued, handed over, taken and freed, each as often as accepted |
| MsgTheorems.OneHolder | msg.c:826-840 | a message in one receiver's slot is in no other, on no queue, and neither taken nor freed |
| MsgQueue.LockedQueue.constructor | msg.c:144-185 | a new queue is empty |
| MsgQueue.LockedQueue.FindMsg | msg.c:1074-1096 | finds the best message in one pass; the type bound is unchanged whenever nothing is found |
| MsgQueue.LockedQueue.WakeFitting | msg.c:212-247 | terminates although it moves senders to the tail as it walks: it wakes exactly those that fit, and they come first afterwards, each group in the old order |
| MsgQueue.LockedQueue.SsWakeup | msg.c:212-247 | with kill, all senders leave the list and are woken; without, as above |
| MsgQueue.LockedQueue.ExpungeAll | msg.c:249-263 | every receiver gets the result in its slot and is woken |
| MsgQueue.LockedQueue.PipelinedSend | msg.c:816-846 | deletes receivers while walking; the result is that of `Handoff` |
| MsgQueue.LockedQueue.SendSection | msg.c:848-959 | one round of do_msgsnd does what its effect on values says |
| MsgQueue.LockedQueue.ReceiveSection | msg.c:1098-1262 | one round of do_msgrcv does what its effect on values says; the receiver sleeps with its original bound |
| MsgQueue.LockedQueue.IpcSet | msg.c:440-459 | receivers are sent back to look again, senders that fit now are woken |
| MsgQueue.LockedQueue.Rmid | msg.c:273-286 | all sleepers are answered and woken, and the queue is invalid |
| MsgQueue.LockedQueue.Drain | msg.c:288-296 | the remaining messages are freed and taken off the namespace counters |
| RlbList.UsedRemoved | servers/bond_alb.c:766-778 | unlinking an entry from the used list leaves that list without it, links inverse and acyclic |
| RlbList.UnlinkedFields | servers/bond_alb.c:781-802 | what unlinking does to the source links, also when an entry sits in its own bucket |
| RlbList.SrcRemoved | servers/bond_alb.c:781-802 | after it the bucket lists are as before without the entry |
| RlbList.SrcAdded | servers/bond_alb.c:818-829 | linking puts the entry first on its bucket's list and changes no other |
| Rlb.DeletedGood | servers/bond_alb.c:804-813 | deleting an assigned entry takes it off both lists and changes nothing else |
| Rlb.Determined | servers/bond_alb.c:804-829 | two valid tables with the same lists and clients are equal down to the last link |
| Rlb.SameAsScan | servers/bond_alb.c:834-853 | whoever deletes exactly the doomed entries, in whatever order, gets the table of a scan over all entries |
| Rlb.ScanClears | servers/bond_alb.c:834-853 | after the scan no assigned entry meets the test; all others keep their client and their place in the lists |
| Rlb.ChosenGood | servers/bond_alb.c:553-647 | choosing a channel keeps the table valid, and the lists afterwards are the expected ones |
| Rlb.DoKeeps | servers/bond_alb.c:553-915 | every operation keeps the table valid |
| Rlb.RunKeeps | servers/bond_alb.c:553-915 | so does every run |
| Rlb.OnExactlyOne | servers/bond_alb.c:596-642 | in every run: assigned iff on the used list iff on a source list, and then only on that of hash(ip_src) |
| RlbTable.HashBytes | servers/bond_alb.c:61-70 | the exclusive or of the bytes |
| RlbTable.NextRxSlave | servers/bond_alb.c:306-336 | the next usable slave in turn among the fastest |
| RlbTable.RxTable.constructor | servers/bond_alb.c:855-881 | an empty table is valid |
| RlbTable.RxTable.DeleteEntry | servers/bond_alb.c:804-813 | deletes in place as the value function says |
| RlbTable.RxTable.PurgeSrcIp | servers/bond_alb.c:834-853 | walking one bucket and deleting on the way gives the table of a scan over all entries |
| RlbTable.RxTable.ClearVlan | servers/bond_alb.c:896-915 | the same for the walk over the used list |
| RlbTable.RxTable.ChooseChannel | servers/bond_alb.c:553-647 | chooses in place as the value function says, and returns the client's slave |
| FilterRefs.InsertExact | io_uring/bpffilter.c:428-431 | a new filter in front of a chain keeps every count exact |
| FilterRefs.GrabExact | io_uring/bpffilter.c:284-301 | so does taking one more reference |
| FilterRefs.DropExact | io_uring/bpffilter.c:125-127 | so does dropping a reference that is not the last |
| FilterRefs.FreeExact | io_uring/bpffilter.c:112-132 | so does freeing a filter, whose reference to the next one passes on |
| FilterVerdict.VerdictKept | io_uring/bpffilter.c:57-95 | freeing what nobody refers to changes no verdict |
| FilterRun.CopyExact | io_uring/bpffilter.c:266-308 | copying a table slot by slot keeps every count exact |
| FilterRun.ReleasedAllExact | io_uring/bpffilter.c:97-137 | so does dropping all references of a table, with all filters that go with them |
| FilterRun.CloneExactly | io_uring/bpffilter.c:246-260 | cloning keeps every count exact; it leaves a reference that nobody will put if and only if the destination has a table and the source has one to share |
| FilterRun.CloneMeans | io_uring/bpffilter.c:246-260 | the destination then lets pass exactly what the source lets pass, and nobody else is affected |
| FilterRun.PutKeeps | io_uring/bpffilter.c:139-149 | a restriction goes; counts stay exact and all other verdicts stay |
| FilterRun.RegisterExactly | io_uring/bpffilter.c:384-457 | a registration narrows the restriction, and those whose table it changes in place, by exactly the new filter; everybody else, and on failure everybody, is left alone |
| FilterRun.StepKeeps | io_uring/bpffilter.c:97-457 | every step keeps counts and owners exact and frees nothing reachable |
| FilterRun.RunKeeps | io_uring/bpffilter.c:97-457 | so in every run from the empty state, where each filter is freed at most once |
| FilterRun.NeverGrows | io_uring/bpffilter.c:246-457 | in every run of creating, cloning, registering with copy on write, putting and freeing, what a restriction lets pass never grows, clones included, as long as no clone overwrites filters that it has |
| FilterRun.CloneLeavesSource | io_uring/bpffilter.c:266-308 | in every run, nothing ever registered on a clone changes what its source lets pass, as long as the source is not overwritten itself |
| FilterRun.SourceReachesClone | io_uring/bpffilter.c:246-260 | the other way round is false: a run in which a filter registered on the source takes a request from the clone |
| FilterRun.OverwriteGrows | io_uring/bpffilter.c:246-260 | a run in which a clone overwrites filters and so lets a request pass again, and loses a reference |
| FilterRun.OverwriteTightens | io_uring/bpffilter.c:246-260 | a clone that overwrites filters lets no more pass than before if and only if the source let no more pass |
| FilterRun.NoOrphans | io_uring/bpffilter.c:246-260 | a run has lost a reference exactly if some clone in it has overwritten filters |
| FilterRun.AllPut | io_uring/bpffilter.c:97-149 | once all restrictions have been put, freeing the tables without owners frees every table and every filter, each once, if and only if no clone ever overwrote filters |
| FilterSets.Registry.constructor | io_uring/bpffilter.c:151-167 | no table, no filter |
| FilterSets.Registry.Run | io_uring/bpffilter.c:57-95 | walks the chain until a filter rejects |
| FilterSets.Registry.CloneFilters | io_uring/bpffilter.c:246-260 | in place, for any destination: a step of the run; other verdicts unchanged; a reference is lost exactly under the condition above |
| FilterSets.Registry.Cow | io_uring/bpffilter.c:266-308 | a new table with the same chains; taking a reference never fails |
| FilterSets.Registry.DropChain | io_uring/bpffilter.c:112-132 | drops one reference and all that go with it; counts stay exact |
| FilterSets.Registry.FreeTable | io_uring/bpffilter.c:97-137 | frees a table that nobody owns, and no verdict changes |
| FilterSets.Registry.FreeAll | io_uring/bpffilter.c:97-137 | in place, after all restrictions were put: nothing is left and each filter was freed once, if and only if no clone ever overwrote filters |
| FilterSets.Registry.Install | io_uring/bpffilter.c:422-449 | puts a filter in front of one chain and, if asked to, denies all opcodes without one |
| FilterSets.Registry.RegisterFilter | io_uring/bpffilter.c:384-457 | registers in place, with the effect of `RegisterExactly` on every restriction |
| LacpList.OnListExactly | servers/bond_3ad.c:1562-1703 | a port is on an aggregator's list iff that is its aggregator, and the count is the number of such ports |
| LacpList.Removed | servers/bond_3ad.c:1575-1606 | unlinking a port keeps all lists in order; an emptied aggregator is cleared |
| LacpList.Attached | servers/bond_3ad.c:1636-1692 | attaching a port keeps all lists in order |
| LacpList.Moved | servers/bond_3ad.c:2377-2398 | moving the ports to a replacement keeps all lists in order |
| LacpList.SpareExists | servers/bond_3ad.c:2340-2360 | by counting: with one port set aside, some aggregator has no other port |
| LacpElect.LessNegative | servers/bond_3ad.c:1720-1798 | the order of the selection test is a strict weak order |
| LacpElect.LeadsNext | servers/bond_3ad.c:1861-1868 | one round of the selection loop keeps the best aggregator so far |
| LacpElect.ElectionKeeps | servers/bond_3ad.c:1847-1964 | after a selection at most one aggregator is active, and it has ports |
| LacpElect.ActiveIsBest | servers/bond_3ad.c:1856-1944 | under a policy other than STABLE no usable aggregator is strictly better than the active one, and one is active if any is usable |
| LacpElect.TiesKeepActive | servers/bond_3ad.c:1856-1893 | the former active aggregator keeps its place unless a usable one is strictly better |
| LacpElect.NoneUsable | servers/bond_3ad.c:1856-1893 | without a usable aggregator, one is active exactly if the former active one has a device up |
| LacpElect.LeaderUnique | servers/bond_3ad.c:1856-1868 | there is exactly one best aggregator: ties go to the former active one, then to the earliest |
| LacpElect.StableExactly | servers/bond_3ad.c:1870-1893 | exactly when STABLE replaces the active aggregator: the best one is another, and the active one has no enabled port, or no partner while the best has one, or no key while the best has one |
| LacpElect.StableReplaces | servers/bond_3ad.c:1870-1888 | a bond in which STABLE replaces an active aggregator that has an enabled port on a device that is up |
| LacpRun.TargetExists | servers/bond_3ad.c:1617-1703 | selection always finds an aggregator |
| LacpRun.SelectKeeps | servers/bond_3ad.c:1552-1715 | selection attaches the port to an aggregator of the bond, moves no other port, and keeps everything in order |
| LacpRun.ReplacementExists | servers/bond_3ad.c:2340-2360 | unbinding always finds another aggregator for the ports that remain |
| LacpRun.UnbindKeeps | servers/bond_3ad.c:2307-2461 | unbinding keeps everything in order; two remaining ports share an aggregator exactly if they did before, and none loses its aggregator |
| LacpRun.StepKeeps | servers/bond_3ad.c:1552-2461 | every step keeps everything in order |
| LacpRun.RunKeeps | servers/bond_3ad.c:1552-2461 | in every run each port is on its aggregator's list and on no other, counts are exact, and at most one aggregator is active |
| LacpBond.CountActive | servers/bond_3ad.c:748-760 | the walk counts the enabled ports |
| LacpBond.SumPriority | servers/bond_3ad.c:762-772 | the walk adds up the priorities of the enabled ports |
| LacpBond.SumSpeed | servers/bond_3ad.c:779-848 | enabled ports times the speed of the first port |
| LacpBond.SomeDeviceUp | servers/bond_3ad.c:1800-1815 | whether some device of the list is up |
| LacpBond.BetterThan | servers/bond_3ad.c:1720-1798 | the chain of tests is the lexicographic order of five numbers |
| LacpBond.Team.constructor | servers/bond_3ad.c:2253-2297 | a bond without slaves is in order |
| LacpBond.Team.FindActive | servers/bond_3ad.c:856-867 | the active aggregator, or none |
| LacpBond.Team.AggSelection | servers/bond_3ad.c:1847-1964 | the selection in place is an `Election` |
| LacpBond.Team.Detach | servers/bond_3ad.c:1570-1616 | the port leaves its aggregator's list, found by walking it |
| LacpBond.Team.FindTarget | servers/bond_3ad.c:1617-1660 | the first aggregator that suits, or else the first free one |
| LacpBond.Team.SelectPort | servers/bond_3ad.c:1552-1715 | the selection logic in place |
| LacpBond.Team.FindSpare | servers/bond_3ad.c:2348-2360 | the first aggregator that is empty or holds the leaving port only |
| LacpBond.Team.MovePorts | servers/bond_3ad.c:2377-2398 | the ports, count, parameters and flag pass to the replacement |
| LacpBond.Team.FreePort | servers/bond_3ad.c:2426-2455 | the leaving port is taken off the one list it may be on |
| LacpBond.Team.Unbind | servers/bond_3ad.c:2307-2461 | unbinding in place is a step of the bond |
| LacpBond.Team.Bind | servers/bond_3ad.c:2253-2297 | binding in place is a step of the bond; a bound slave is left alone |
| LacpTimeout.SyncOnlyRecorded | servers/bond_3ad.c:519-581 | an unsynchronized partner becomes synchronized exactly by a recorded, matching, synchronized LACPDU |
| LacpTimeout.NoReentry | servers/bond_3ad.c:1084-1126 | an idle port does not collect or distribute in any run before such an LACPDU |
| LacpTimeout.SilenceStops | servers/bond_3ad.c:1264-1284 | an enabled port without LACPDUs stops distributing within its remaining positive ticks, and collecting at most one tick later |
| LacpTimeout.StillCarrying | servers/bond_3ad.c:1257-1302 | exactly how long a port carries traffic through silence, for every receive state, timer and enabled flag |
| LacpTimeout.LoopbackNeverStops | servers/bond_3ad.c:1361-1367 | a looped back LACPDU stops the timer, and then no silence stops the port |
| LacpTimeout.LoopbackExample | servers/bond_3ad.c:1361-1367 | a concrete port and LACPDU for which this happens |
| LacpMachine.Machine.constructor | servers/bond_3ad.c:2011-2072 | a port as it is bound |
| LacpMachine.Machine.RxMachine | servers/bond_3ad.c:1241-1378 | in place: an unsynchronized partner becomes synchronized exactly by a recorded, matching, synchronized LACPDU, and is out of sync once the timer has run out |
| LacpMachine.Machine.MuxMachine | servers/bond_3ad.c:1029-1230 | in place: without a synchronized partner the port stops distributing at once and collecting one tick later |
| LacpMachine.Machine.HandleTick | servers/bond_3ad.c:2571-2589 | one tick in place: an idle port stays idle, and the last tick of the timer stops the port |
| LacpMachine.Machine.RunSilent | servers/bond_3ad.c:2571-2589 | any number of silent ticks in place: the exact condition under which the port still carries traffic, and a port with a running timer stops in time |
| LacpMachine.Machine.Serve | servers/bond_3ad.c:2571-2589 | any ticks and LACPDUs in place: an idle port carries no traffic before a matching, synchronized LACPDU was recorded |

## Left out

- ext2: the page cache, buffer states and errors of writing, DAX zeroing, quota, the goal of an allocation and its
  reservation window, inode times and the inode's own size.
- ext2: block numbers are natural numbers; 32-bit block numbers and the width of file offsets are not modelled.
- ext2: block reads succeed during truncation. Lookups take the set of unreadable blocks as a parameter.
- Ext2.BlockMap.GetBranch: is the case in which nobody else changes the tree, as under the mutex; `Ext2Lookup.GetBranch`
  has the -EAGAIN exit.
- Ext2Lookup.GetBlocks: when the file system refuses blocks or a buffer is missing is up to the environment, so an
  allocating lookup promises an answer or an undone error, not success.
- msg.c: permissions, the security hook on sending, user-space copies, id allocation, process ids and times. The
  security hook on receiving is a fixed relation between tasks and messages.
- msg.c: byte counts are natural numbers, so the overflow check of a send is not modelled.
- MsgQueue.LockedQueue.FindMsg: does not say what the lowered type bound is once a message is found, because nothing reads
  it then.
- bond_alb.c: ARP packets, MAC swapping, slave failure and rebalancing, transmit balancing.
- bond_3ad.c: building and sending frames, the periodic, transmit and churn machines, markers, carrier, statistics, and
  enabling or disabling the slaves' queues.
- bond_3ad.c: bandwidths and sums of priorities are natural numbers without 32-bit wrap-around.
- bond_3ad.c: the number of ticks in a second comes from a header that is not part of this model; it is a parameter.
- LacpMachine.Machine.Select: models of the selection logic only what this port sees of it; the lists are in `LacpBond`,
  and whether the other ports are ready is a parameter.
- FilterSets.Registry.PutFilters: a table without owners is freed later, by `FreeTable`, as with RCU.
- bpffilter.c: checking and converting BPF programs; a program is the set of requests that it rejects.
- Limb: `mul_u64_u64_shr` and `mul_u64_u32_shr` only in the versions without 128-bit integers.
- Limb.MulU64U32Shr: shifts by 64 or more, and by more than 32 where the high half is not zero, are undefined in C and
  left out.
- The rest of the repository: cancellation, device headers, stubs, number printing and parsing.
