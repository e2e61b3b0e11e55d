# Models of an operating-systems course's programs

This project models the cores of ten small programs of an operating-systems course and
proves what they are for. `dafny verify dfyconfig.toml` checks all of it.

**Log-structured file system** (`lfs.py`; modules `Lfs*`). `Lfs.LFS` is the simulator: a
disk that is only appended to, address 0 excepted, the inode map and the checkpoint
region. Its methods are proved against functions on the state (`LfsDisk`, `LfsRun`). These
are shown to do to a table of inodes (`LfsTable`, `LfsTableInv`) what the operations mean
there (`LfsRefine`), and the table to a tree of names without slots, counts or addresses
(`LfsNames`). `LfsEffects` tells the same by paths and `LfsLog` by the blocks that are
written. `LfsRecovery` and `LfsOwnership` add what the checkpoint holds and who owns
which block; `LfsReachable` puts it together over whole runs: the invariant of every
reachable state, crash recovery, refinement of the tree, and which blocks are garbage.

**Disk simulator** (`disk.py`; modules `Disk*`). `DiskGeometry` is the layout, `DiskPlan`
the closed-form times and the order of service, `DiskMotion` one service tick by tick as a
value, `DiskChoice` which request each policy picks, which fixes the whole schedule, and
`DiskSim.Disk` the simulator with all four policies. Integer speeds: rotation 1, a
seek speed that divides 40, even zone widths below 360 that divide it.

**FFS allocator** (`ffs.py`; modules `Ffs*`). `FfsBitmap` counts, `FfsState` holds the
tables as a value and their consistency, `FfsDelete` the deletion as the code does it,
`FfsSearch` which free blocks are found, `FfsEffects` what each table shows afterwards;
`Ffs.FileSystem` is the simulator, `FfsRuns` has its runs.

**Monitors** (`reaction.c`, `train.c`, and the buffer of `wserver.c`; modules `Mesa`,
`Reaction`, `Train`, `Server`). Each lock-held section is one atomic step and each
condition variable a pair of sleepers and of woken threads that have yet to take the lock
back. Runs are arbitrary sequences of enabled steps. The classes are the monitors; their
methods are the sections. `ServerQueue.Queue` is the server's linked list with the sort
that works by taking from the front and putting at the rear.

**RAID 4 and 5** (`raid.py`; modules `Raid*`). `RaidMap` is the placement, `RaidParity` the
parity of rows, `Raid.Array` the simulator with the contents of the disks beside it, which
the simulator itself does not have: new parity is worked out only from what has been read
and what is written.

**Very simple file system** (`vsfs.py`; modules `Vsfs*`). Bitmaps, inodes and blocks, and
the index of paths kept beside them; `VsfsEffects` tells the operations by paths.

**Run-length pair** (`my-zip.c`, `my-unzip.c`; module `Zip`).

`Arithmetic`, `Sequences` and `DirEntries` hold what several of these share: division with
remainder, sequences with an element taken out, and lists of directory entries.

## Where code and intention part

* `file_link` logs no inode-map chunk for its source (`lfs.py:544`), so that after a crash a
  link count can be too small. Recovery is proved with that gap, `LfsReachable.NotStale`
  says exactly when it opens, `LfsStale.LinkCountLost` shows it at an input, and
  `ExactRecovery` is for runs in which it does not open.
* `__walk_path` tests the parent's type, where the component's is meant (`lfs.py:362`): the
  branch is dead, and a path through a regular file stops the simulator. Such paths, links
  into a missing directory and the name `-`, which marks free slots, are excluded by
  preconditions.
* `determine_liveness` follows unset pointers and so marks the address -1, too, whenever a
  live inode has one (`Lfs.LFS.DetermineLiveness`).
* The disk simulator's estimate is one turn short for a first request that lies on the track
  under the arm and starts under the head, and for no other. Which request is first can be
  told from the requests (`DiskChoice.FirstServed`), and there are such inputs
  (`DiskChoice.SomeStartIsMissed`).
* Late requests never come if there is no request at the start (`DiskSim.Disk.Go`).
* `do_delete` of `ffs.py` divides by the number of groups where the size of a group is
  meant. It is modelled as it is. `FfsDelete.DeleteConsistent` says for each file exactly when
  the division is right, `FfsRuns.EveryReachableState` for each run, and
  `FfsRuns.DefaultRunFails` is a run in the default geometry in which it is not.
* A hydrogen thread of `reaction.c` does not test anything when it wakes. Without wakeups
  that nobody asked for, the numbers are always exact (`Reaction.WaterIsExact`); with them, if
  and only if all hydrogen atoms bond (`Reaction.ExactWhateverWakes`).
* A server with a buffer of one can stop with a request unserved, and no other can
  (`Server.NeverStuckUnlessOne`). Its sort turns requests of equal size round
  (`ServerQueue.EqualSizesReversed`).
* `doPartialWrite` of `raid.py` compares reads as if a piece had one parity block, and so does
  not always read the least (`Raid.ReadCount`).
* `my-zip` never writes the last run (`Zip.ReproducedExactly`).

## Model

| member | source | states |
|---|---|---|
| `LfsReachable.CrashRecovery` | Final_Review_Code/HW-LFS/lfs.py:261-264 | Whatever has been appended since the last sync, a part of an operation included, the inodes reached from address 0 are node by node those of the last sync, with a smaller link count at exactly the stale files and the whole equal if and only if none is stale (also lines 309-335) |
| `LfsReachable.DiskRecovery` | Final_Review_Code/HW-LFS/lfs.py:309-335 | The same for any disk that extends a synced one and whose address 0 holds its checkpoint |
| `LfsReachable.ExactRecovery` | Final_Review_Code/HW-LFS/lfs.py:371-379 | Runs whose links stay within one inode-map chunk recover exactly the table of the last sync, link counts included |
| `LfsReachable.NotStale` | Final_Review_Code/HW-LFS/lfs.py:534-549 | An operation leaves a link count behind if and only if it is a link whose source lies in another chunk than the destination directory |
| `LfsStale.LinkCountLost` | Final_Review_Code/HW-LFS/lfs.py:534-549 | A run of two operations, every one synced, after which a crash recovers something else than what was synced |
| `LfsReachable.NothingStale` | Final_Review_Code/HW-LFS/lfs.py:534-549 | Without such links no file is ever stale, over whole runs |
| `LfsReachable.RecoveredPaths` | Final_Review_Code/HW-LFS/lfs.py:314-369 | After a crash every path leads where it led at the last sync |
| `LfsReachable.ForcedIsSynced` | Final_Review_Code/HW-LFS/lfs.py:483-485 | With forced checkpoints the last sync is always the present state, over whole runs |
| `LfsRecovery.AgreeLogged` | Final_Review_Code/HW-LFS/lfs.py:371-379 | Each operation keeps the checkpoint's inode-map chunks in agreement with the map in memory, the set of stale files changing as described |
| `LfsReachable.EveryReachableState` | Final_Review_Code/HW-LFS/lfs.py:419-652 | In every state reached from the initial one by any operations, under either checkpoint policy: unique names, exact link counts, a tree of directories, one owner for each block, checkpoint agreement |
| `LfsReachable.RunRefinesTree` | Final_Review_Code/HW-LFS/lfs.py:419-652 | A whole run does to the tree of names what the plain operations, one after the other, do |
| `LfsNames.StepRefinesTree` | Final_Review_Code/HW-LFS/lfs.py:419-652 | Each operation does to the tree of names (inode number to name map or block map) what the plain operation does, and nothing when it fails |
| `LfsNames.StepTableRefinesTree` | Final_Review_Code/HW-LFS/lfs.py:419-648 | Slots, link counts and free slots carry out the plain operations: in particular a file goes exactly with its last name |
| `LfsNames.FullMeans64` | Final_Review_Code/HW-LFS/lfs.py:396-417 | A directory with unique names is full if and only if it has 64 of them |
| `LfsNames.SameFollow` | Final_Review_Code/HW-LFS/lfs.py:337-369 | Walking slots and walking name maps lead to the same inode |
| `LfsRun.StepRefines` | Final_Review_Code/HW-LFS/lfs.py:419-652 | Each operation's blocks, resolved through the inode map, give the table that the operation on tables gives; a failing one changes nothing |
| `LfsRun.StepTableInv` | Final_Review_Code/HW-LFS/lfs.py:419-652 | Each operation on tables keeps every part of the invariant |
| `LfsRefine.CreateRefines` | Final_Review_Code/HW-LFS/lfs.py:444-485 | The blocks of a create, resolved through the inode map, give the directory with the new name in its first free slot and the new node |
| `LfsRefine.LinkRefines` | Final_Review_Code/HW-LFS/lfs.py:511-549 | The blocks of a link give the destination directory with the name and the source with one link more |
| `LfsRefine.DeleteRefines` | Final_Review_Code/HW-LFS/lfs.py:617-648 | The blocks of a delete give the directory without the name and the file with one link less, or no file |
| `LfsRefine.WriteRefines` | Final_Review_Code/HW-LFS/lfs.py:572-602 | The blocks of a write give the file with the blocks from the offset on replaced, its size set to the end of the write, nothing past the eighth pointer |
| `LfsRefine.SyncIsInvisible` | Final_Review_Code/HW-LFS/lfs.py:309-312 | Overwriting address 0 changes nothing that the inode map leads to |
| `LfsRefine.DirBlockReplaced` | Final_Review_Code/HW-LFS/lfs.py:396-417 | Logging a new version of one directory block replaces just its eight slots |
| `LfsDisk.UpdateImapEffect` | Final_Review_Code/HW-LFS/lfs.py:371-379 | Appends only, and makes the checkpoint point to a chunk equal to the map in memory for exactly the chunks of the listed inodes |
| `LfsDisk.NodeFrame` | Final_Review_Code/HW-LFS/lfs.py:261-264 | Appending blocks and overwriting address 0 leave what an inode address resolves to |
| `LfsTableInv.CreateInv` | Final_Review_Code/HW-LFS/lfs.py:419-485 | Creating keeps names unique, counts exact and the directories a tree |
| `LfsTableInv.LinkInv` | Final_Review_Code/HW-LFS/lfs.py:498-549 | So does linking |
| `LfsTableInv.DeleteInv` | Final_Review_Code/HW-LFS/lfs.py:604-648 | So does deleting a name of a file |
| `LfsTableInv.WriteInv` | Final_Review_Code/HW-LFS/lfs.py:551-602 | So does writing |
| `LfsTableInv.FreedAtLastName` | Final_Review_Code/HW-LFS/lfs.py:617-640 | A delete frees the file if and only if its last directory entry goes |
| `LfsTableInv.CreateRefSet` | Final_Review_Code/HW-LFS/lfs.py:445-467 | Exactly the new entries are added to what names each inode |
| `LfsTableInv.RootReached` | Final_Review_Code/HW-LFS/lfs.py:350-369 | Every live directory is what some path from the root leads to |
| `LfsTableInv.WalkConcat` | Final_Review_Code/HW-LFS/lfs.py:350-369 | Walking a path is walking its first part and then the rest |
| `LfsOwnership.LoggedOwned` | Final_Review_Code/HW-LFS/lfs.py:444-648 | No operation makes two pointers of live inodes lead to one block |
| `LfsReachable.GarbageIsSafe` | Final_Review_Code/HW-LFS/lfs.py:146-175 | Overwriting any block that the liveness scan does not mark changes nothing that the inode map leads to |
| `Lfs.LFS.constructor` | Final_Review_Code/HW-LFS/lfs.py:52-107 | The initial disk of four blocks, its map and checkpoint |
| `Lfs.LFS.AllocateInode` | Final_Review_Code/HW-LFS/lfs.py:266-290 | A free inode, the first one under the sequential policy, or -1 if and only if there is none |
| `Lfs.LFS.GetInodeFromDisk` | Final_Review_Code/HW-LFS/lfs.py:314-335 | Through the checkpoint region, the inode of the chunk it points to, which is the one of the map when the two agree |
| `Lfs.LFS.LookupName` | Final_Review_Code/HW-LFS/lfs.py:337-348 | The inode number that the directory's slots give the name, or -1 |
| `Lfs.LFS.WalkPath` | Final_Review_Code/HW-LFS/lfs.py:350-369 | Where the components of the path lead on the table: the missing root, the missing directory on the way, or the directory, name and inode number of the last |
| `LfsRun.SplitParts` | Final_Review_Code/HW-LFS/lfs.py:351 | The components of a path contain no slash, and with slashes between them are the path, for every string |
| `LfsRun.SplitJoined` | Final_Review_Code/HW-LFS/lfs.py:351 | Any components without slashes, joined, split into themselves |
| `LfsEffects.FollowMeans` | Final_Review_Code/HW-LFS/lfs.py:350-369 | A path arrives if and only if its components, from the root, each name a directory in the one before, up to the last, which is looked up where they end |
| `LfsEffects.StopsWhen` | Final_Review_Code/HW-LFS/lfs.py:337-339 | The simulator stops on a path exactly when something on the way, before its last component, is no directory (also lines 356-361) |
| `LfsEffects.SucceedsMeans` | Final_Review_Code/HW-LFS/lfs.py:419-652 | An operation succeeds exactly when its paths lead to a file, or to a missing name in a directory of fewer than 64, its offset is below eight and an inode is free |
| `LfsEffects.NowhereNoEffect` | Final_Review_Code/HW-LFS/lfs.py:353-361 | An operation on a path that arrives nowhere changes nothing |
| `LfsEffects.CreateSeen` | Final_Review_Code/HW-LFS/lfs.py:419-495 | Afterwards the path leads to the new inode, an empty file or a directory of two dots; every other path, name and content is as before; nothing changes if the name is there or the directory full |
| `LfsEffects.LinkSeen` | Final_Review_Code/HW-LFS/lfs.py:498-549 | Afterwards both paths lead to one file, and every other path, name and content is as before; nothing changes if there is no such file, the name is there or the directory full |
| `LfsEffects.WriteSeen` | Final_Review_Code/HW-LFS/lfs.py:551-602 | What is read afterwards is what was written, block by block as far as eight go, and what was there elsewhere; the size is the end of the write, and no path and no other file is affected |
| `LfsEffects.DeleteSeen` | Final_Review_Code/HW-LFS/lfs.py:604-648 | Afterwards the path leads to nothing and every other where it led; the file is gone if and only if it had no other name |
| `LfsLog.CreateLog` | Final_Review_Code/HW-LFS/lfs.py:444-481 | The blocks a create logs, in order, and what is made to point at each: directory block, new directory's block, directory inode, new inode, then the directory's chunk and the new inode's unless it is the same |
| `LfsLog.LinkLog` | Final_Review_Code/HW-LFS/lfs.py:511-545 | The same for a link: directory block and inode, the file's inode with one link more, the directory's chunk only |
| `LfsLog.WriteLog` | Final_Review_Code/HW-LFS/lfs.py:572-598 | The same for a write: the data blocks that fit, in order, the inode that points at them, its chunk |
| `LfsLog.DeleteLog` | Final_Review_Code/HW-LFS/lfs.py:617-643 | The same for a delete: directory block and inode, the file's inode with one link less unless it was the last, then the file's chunk and the directory's |
| `Lfs.LFS.UpdateImap` | Final_Review_Code/HW-LFS/lfs.py:371-379 | Logs each chunk of the listed inodes once and points the checkpoint to it |
| `Lfs.LFS.FindDirSlot` | Final_Review_Code/HW-LFS/lfs.py:385-394 | The first slot with the name, across the directory's blocks, or -1 |
| `Lfs.LFS.AddDirEntry` | Final_Review_Code/HW-LFS/lfs.py:396-417 | The block with the entry in the first free slot, a new one if there is none, or -1 if and only if the directory is full |
| `Lfs.LFS.FileCreate` | Final_Review_Code/HW-LFS/lfs.py:419-495 | The state is that of the step, whose effect on the tree is proved, and satisfies the invariant again; 0 exactly when it succeeds, otherwise -1 and no change |
| `Lfs.LFS.FileLink` | Final_Review_Code/HW-LFS/lfs.py:498-549 | As for creating |
| `Lfs.LFS.FileWrite` | Final_Review_Code/HW-LFS/lfs.py:551-602 | As for creating, the result being the number of blocks written |
| `Lfs.LFS.FileDelete` | Final_Review_Code/HW-LFS/lfs.py:604-648 | As for creating |
| `Lfs.LFS.DetermineLiveness` | Final_Review_Code/HW-LFS/lfs.py:146-175 | Marks exactly the blocks in use: address 0, the checkpoint's chunks, the map's inodes and what they point to, and besides them the address -1 if and only if some live inode has an unset pointer |
| `DiskSim.Disk.Go` | Final_Review_Code/HW-Disk/disk.py:236-242 | The simulation ends; every request is served exactly once, the late ones if and only if there was one to begin with or none comes late; each choice is the best in view by the policy; the seek, rotation and transfer totals are each the sum of the closed-form times of all services and add up to the clock, which is the sum of the estimates, plus one turn if the first choice, told from the requests alone, is missed |
| `DiskChoice.OneSchedule` | Final_Review_Code/HW-Disk/disk.py:456-600 | What a simulation is given fixes the order of service and all its times |
| `DiskChoice.OneChoice` | Final_Review_Code/HW-Disk/disk.py:503-508 | By each policy one request in view is the one to pick: on the nearest track under SSTF, of least estimate, first in the queue (also lines 523-540, 566-592) |
| `DiskChoice.FirstServed` | Final_Review_Code/HW-Disk/disk.py:424-432 | Whether the first request is missed can be told from the requests that are there at the start (also lines 630-640) |
| `DiskChoice.SomeStartIsMissed` | Final_Review_Code/HW-Disk/disk.py:424-432 | A geometry and a request, missed under every policy (also lines 630-640) |
| `DiskSim.Disk.Animate` | Final_Review_Code/HW-Disk/disk.py:602-662 | A tick keeps the simulation on the closed-form timeline and brings the request in service one tick nearer to its end |
| `DiskPlan.TicksAreEstimates` | Final_Review_Code/HW-Disk/disk.py:471-498 | On such a timeline the ticks are the sum of the estimates, but for a first request that starts under the head at once (also lines 664-680) |
| `DiskPlan.TotalsAddUp` | Final_Review_Code/HW-Disk/disk.py:664-680 | The totals of the three phases add up to the ticks |
| `DiskPlan.BoundedBypass` | Final_Review_Code/HW-Disk/disk.py:548-564 | Request i is among the first completions that fill its window, whatever else is asked for or arrives (also lines 579-584) |
| `DiskPlan.WindowsGrow` | Final_Review_Code/HW-Disk/disk.py:554-562 | Windows never shrink |
| `DiskPlan.SomeUnserved` | Final_Review_Code/HW-Disk/disk.py:512-516 | As long as fewer than m of m requests are served one of them is not: the assertions after a search hold |
| `DiskGeometry.EnterIsLeave` | Final_Review_Code/HW-Disk/disk.py:651-656 | A transfer may go on into the next request without rotation exactly because the head leaves one block where it enters the next, the last and first of a track included |
| `DiskGeometry.TrackOfBlock` | Final_Review_Code/HW-Disk/disk.py:256-298 | Each block number lies on exactly one track |
| `DiskGeometry.TrackLaid` | Final_Review_Code/HW-Disk/disk.py:256-304 | Each track is filled by its blocks; the first begins half a turn from the head, each further one by the skew further on; along a track each block lies one width behind the one before, the first the same behind the last |
| `DiskGeometry.EnteredBefore` | Final_Review_Code/HW-Disk/disk.py:400-422 | The head enters a block half its width before its middle and leaves it half its width after |
| `DiskChoice.ViewMoves` | Final_Review_Code/HW-Disk/disk.py:542-564 | The view starts as the window or the whole queue and, without fairness, takes in one request more with each service |
| `DiskChoice.FairViewMoves` | Final_Review_Code/HW-Disk/disk.py:550-564 | The fair window stands still for as many services as it is wide, and then moves on by its width |
| `DiskChoice.BlockTen` | Final_Review_Code/HW-Disk/disk.py:471-498 | In the default geometry one request for block 10 takes 0, 105 and 30 ticks of seek, rotation and transfer (also lines 664-680) |
| `DiskMotion.StartsWithSeek` | Final_Review_Code/HW-Disk/disk.py:424-454 | A request on another track begins with the whole of its estimate ahead |
| `DiskMotion.StartsWithRotation` | Final_Review_Code/HW-Disk/disk.py:428-432 | So does one on the same track, unless its start is under the head |
| `DiskMotion.StartsWithXfer` | Final_Review_Code/HW-Disk/disk.py:651-656 | So does one that follows on |
| `DiskMotion.SeekTick` | Final_Review_Code/HW-Disk/disk.py:440-454 | A tick of the arm keeps the times in step; the arm arrives exactly when its share is used up (also lines 631-635) |
| `DiskMotion.RotateChecked` | Final_Review_Code/HW-Disk/disk.py:410-422 | The rotation ends exactly at the block's start (also lines 636-641) |
| `DiskMotion.XferChecked` | Final_Review_Code/HW-Disk/disk.py:400-408 | The transfer ends exactly at the block's end, all three phases having taken their closed-form times (also lines 642-646) |
| `DiskMotion.RemainingAfter` | Final_Review_Code/HW-Disk/disk.py:602-662 | What is left of a service depends only on the clock and when it began |
| `DiskSim.Disk.InitBlockLayout` | Final_Review_Code/HW-Disk/disk.py:256-303 | The maps agree with the closed form of the layout, for every zone widths and skew |
| `DiskSim.Disk.Estimate` | Final_Review_Code/HW-Disk/disk.py:466-498 | The loops that reduce angles compute the closed-form estimate |
| `DiskSim.Disk.DoSATF` | Final_Review_Code/HW-Disk/disk.py:456-516 | Always finds a request not yet served, of least estimate, the first in the list of those |
| `DiskSim.Disk.DoSSTF` | Final_Review_Code/HW-Disk/disk.py:523-540 | The list of just the unserved requests on the nearest track that has any, in their order |
| `DiskSim.Disk.GetWindow` | Final_Review_Code/HW-Disk/disk.py:550-564 | The window the schedule calls for, which covers a request not yet served |
| `DiskSim.Disk.WindowReady` | Final_Review_Code/HW-Disk/disk.py:542-546 | The window that has grown by one, unless it covers the queue, is the one that the next choice is to see (also lines 642-649) |
| `DiskSim.Disk.GetNextIO` | Final_Review_Code/HW-Disk/disk.py:566-600 | Ends exactly when all are served; otherwise picks the best in view by the policy, starts the seek and lets in one late request |
| `DiskSim.Disk.PlanSeek` | Final_Review_Code/HW-Disk/disk.py:424-438 | Starts the arm, or the rotation if it is on the track |
| `DiskSim.Disk.DoneWithRotation` | Final_Review_Code/HW-Disk/disk.py:410-422 | True exactly when the block starts under the head |
| `DiskSim.Disk.DoneWithTransfer` | Final_Review_Code/HW-Disk/disk.py:400-408 | True exactly when the block has passed, which completes the request |
| `Ffs.FileSystem.AllocateBlocks` | Final_Review_Code/HW-FFS/ffs.py:201-233 | Ends for every bitmap, group and limit, with exactly `size` different blocks that were free and are the inode's now, all other entries unchanged; the k-th visit is to the k-th group round and round; each visit takes ascending indices, passes over one only where the chunk from it, cut to what is needed, does not fit or was not free, a chunk being one block from the second round on, and ends before its group does only at the limit or when all is taken |
| `FfsSearch.NothingFree` | Final_Review_Code/HW-FFS/ffs.py:206-233 | Why it ends: if a whole round from the second on leaves each group full, nothing was free |
| `FfsSearch.OneSearch` | Final_Review_Code/HW-FFS/ffs.py:194-233 | The bitmap before, the first group, the limit, the chunk size and the size fix which blocks are taken, and in which order |
| `FfsSearch.NextGroup` | Final_Review_Code/HW-FFS/ffs.py:230-231 | The next visit is to the group with the next number, the first after the last |
| `Ffs.OnePlacement` | Final_Review_Code/HW-FFS/ffs.py:344-355 | So the policies and the group of the inode fix the blocks of a file |
| `Ffs.NearOrder` | Final_Review_Code/HW-FFS/ffs.py:148-160 | That search looks first at the group above, then at the one below, then one further in either direction, round the ends |
| `Ffs.FileSystem.RangeFree` | Final_Review_Code/HW-FFS/ffs.py:180-192 | True if and only if the next chunk, cut to what is needed, fits the group and is free |
| `Ffs.EveryOtherGroupOnce` | Final_Review_Code/HW-FFS/ffs.py:148-160 | The search upwards and downwards in turn looks at every group but the first, at each once |
| `Ffs.NoneAnywhere` | Final_Review_Code/HW-FFS/ffs.py:148-160 | So if it finds nothing, no inode is free, and its last line is never reached |
| `Ffs.FileSystem.FindFreeInodesNear` | Final_Review_Code/HW-FFS/ffs.py:148-160 | The first group with a free inode in that order |
| `Ffs.FileSystem.FindMostFree` | Final_Review_Code/HW-FFS/ffs.py:109-146 | The first of the groups with the most free slots (also lines 247-255) |
| `Ffs.FileSystem.PickGroup` | Final_Review_Code/HW-FFS/ffs.py:162-178 | A group with a free inode, always: the parent's, the nearest one, or the emptiest, by policy |
| `Ffs.FileSystem.FindFreeInode` | Final_Review_Code/HW-FFS/ffs.py:235-245 | The first free inode of the group, or -1 if and only if there is none |
| `Ffs.FileSystem.GetFreeCount` | Final_Review_Code/HW-FFS/ffs.py:96-107 | The number of free entries of a row |
| `Ffs.FileSystem.ChooseBlocks` | Final_Review_Code/HW-FFS/ffs.py:344-355 | The blocks come from the inode's own group on, or from the group with the most free ones |
| `Ffs.FileSystem.DoCreate` | Final_Review_Code/HW-FFS/ffs.py:308-376 | Succeeds if and only if an inode and enough blocks are free, the parent is there and the name is not; then the tables are those of a creation on the chosen inode and blocks, otherwise unchanged; consistency is kept |
| `Ffs.FileSystem.DoDelete` | Final_Review_Code/HW-FFS/ffs.py:262-306 | Succeeds if and only if the path names a regular file, otherwise unchanged; frees the slots that dividing by the number of groups leads to, and the tables stay consistent if and only if that is right for the file's blocks and inode |
| `FfsDelete.DeleteGeometry` | Final_Review_Code/HW-FFS/ffs.py:288-295 | Dividing by the number of groups finds the slot of every block number if and only if there are as many blocks to a group as groups |
| `FfsDelete.SameSlot` | Final_Review_Code/HW-FFS/ffs.py:288-295 | For one number, it does if and only if that is so or the number is below both |
| `FfsState.CreateConsistent` | Final_Review_Code/HW-FFS/ffs.py:357-375 | Creating keeps the free counters, bitmaps, names, blocks and directories consistent |
| `FfsEffects.CreateSeen` | Final_Review_Code/HW-FFS/ffs.py:357-375 | The path leads to the number of the inode's slot, with its kind and the numbers of its blocks in the order taken; it is the last entry of its directory; every other path keeps inode, blocks and entries |
| `FfsEffects.DeleteSeen` | Final_Review_Code/HW-FFS/ffs.py:281-305 | The path and its entry are gone, the other entries keep their order, every other path keeps inode, blocks and entries, and exactly the slots that the division leads to become free |
| `FfsDelete.DeleteConsistent` | Final_Review_Code/HW-FFS/ffs.py:262-306 | A deletion as the code does it keeps the tables consistent if and only if the division is right for the blocks, and for the inode, of the file |
| `FfsDelete.DeleteVerifies` | Final_Review_Code/HW-FFS/ffs.py:286-305 | The simulator's own verification passes after it if and only if the division is right for the blocks and the inode slot it led to was in use, be it another file's (also lines 415-435) |
| `FfsDelete.DeleteUndoesCreate` | Final_Review_Code/HW-FFS/ffs.py:262-376 | Deleting the file just created restores bitmaps, counters, names and directories if and only if the division is right for it |
| `FfsState.ConsistentVerifies` | Final_Review_Code/HW-FFS/ffs.py:415-435 | Consistent tables pass the simulator's own verification |
| `FfsState.NoSharedBlock` | Final_Review_Code/HW-FFS/ffs.py:427-434 | No block is in two files, or twice in one |
| `FfsRuns.EveryReachableState` | Final_Review_Code/HW-FFS/ffs.py:262-435 | A run of creations and deletions stays consistent, and so passes the verification, if and only if the division of each of its deletions is right |
| `FfsRuns.SquareRuns` | Final_Review_Code/HW-FFS/ffs.py:288-295 | With as many blocks and inodes to a group as groups, the division of every deletion of every run is right |
| `FfsRuns.DefaultRunFails` | Final_Review_Code/HW-FFS/ffs.py:286-305 | In the default geometry, a directory, a file of two blocks in it where the policies put them, and its deletion: the verification fails (also lines 724-733) |
| `Ffs.FileSystem.constructor` | Final_Review_Code/HW-FFS/ffs.py:9-70 | All free but the root's inode and block, consistent |
| `FfsBitmap.PutCounts` | Final_Review_Code/HW-FFS/ffs.py:225-226 | Taking a slot costs exactly one free slot, giving it back gains one (also lines 257-260) |
| `Reaction.WaterIsExact` | threadlab/reaction-runner.c:105-135 | Whatever the interleaving, when nothing more can happen the molecules are min(H/2, O), twice as many hydrogen calls have returned and as many oxygen calls |
| `Reaction.EveryRunGetsThere` | threadlab/reaction.c:30-63 | Every run is bounded, and one that has not got there can go on |
| `Reaction.NeverTooMuch` | threadlab/reaction.c:30-63 | At no moment are there more molecules or returned calls than atoms allow |
| `Reaction.StepKeepsInv` | threadlab/reaction.c:30-63 | Each section keeps the counts of sleepers: unsignalled hydrogen sleepers are numH, and an unsignalled oxygen sleeper means at most one hydrogen more than woken ones |
| `Reaction.RunKeepsInv` | threadlab/reaction.c:30-63 | So in every reachable state |
| `Reaction.ExactWhateverWakes` | threadlab/reaction.c:30-63 | The numbers are exact in every run, wakeups of hydrogen threads that nobody asked for included, if and only if the hydrogen atoms are even in number and there is oxygen for each pair |
| `Reaction.SpuriousHydrogen` | threadlab/reaction.c:36-41 | The shortest run that goes wrong |
| `Reaction.Monitor.HydrogenArrives` | threadlab/reaction.c:33-38 | The section is the step, and keeps the invariant |
| `Reaction.Monitor.HydrogenReturns` | threadlab/reaction.c:38-41 | As above |
| `Reaction.Monitor.OxygenArrives` | threadlab/reaction.c:48-61 | As above |
| `Reaction.Monitor.OxygenResumes` | threadlab/reaction.c:52-61 | As above |
| `Train.StepKeepsInv` | threadlab/train.c:34-89 | Each section keeps: a loader in its loop has exactly one passenger or its own wakeup on the way, one waiting for all to sit has someone standing or its wakeup, seats add up |
| `Train.SignalsAreReal` | threadlab/train.c:42-45 | No signal is lost: each wakes a passenger, or the loader (also lines 71) |
| `Train.LoopEnds` | threadlab/train.c:42-50 | The loading loop goes on exactly as long as somebody waits and there is a place left |
| `Train.TrainLoaded` | threadlab/train.c:42-53 | When loading returns nobody stands, no more have boarded than the train had places, the seats left are the rest, and the train is full or nobody was waiting when its loop ended |
| `Train.EveryTrainGetsLoaded` | threadlab/train.c:34-89 | Every run is bounded, and ends with all trains gone, all who boarded seated and the rest waiting: no loader is ever stuck |
| `Train.Station.StartLoading` | threadlab/train.c:37-50 | The section is the step, and keeps the invariant |
| `Train.Station.ContinueLoading` | threadlab/train.c:45-50 | As above |
| `Train.Station.FinishLoading` | threadlab/train.c:50-53 | As above |
| `Train.Station.WaitForTrain` | threadlab/train.c:61-65 | As above |
| `Train.Station.BoardTrain` | threadlab/train.c:65-74 | As above |
| `Train.Station.OnBoard` | threadlab/train.c:80-88 | As above |
| `ServerQueue.SortedQueueSorts` | webserverlab/wserver.c:649-664 | The sort yields ascending sizes and loses, doubles or changes no request but for the valid flag it sets |
| `ServerQueue.RoundSorts` | webserverlab/wserver.c:658-662 | Each round adds one to the sorted rear |
| `ServerQueue.EqualSizesReversed` | webserverlab/wserver.c:603-607 | Every sort turns the requests of each size round (also lines 649-664) |
| `ServerQueue.SortIsStableOnlyWithoutTies` | webserverlab/wserver.c:603-607 | For requests that differ, the order of arrival among those of one size survives a sort if and only if no two are of one size (also lines 649-664) |
| `ServerQueue.SffInsertSorts` | webserverlab/wserver.c:378-400 | After an insertion the queue is in order and holds the same requests and the new one |
| `ServerQueue.SffInsertTurns` | webserverlab/wserver.c:378-400 | Among requests of its size the new one comes first, and those that were there change their order |
| `ServerQueue.Queue.InsertConnection` | webserverlab/wserver.c:317-342 | Appends at the rear of the linked list, unless the queue is at its limit |
| `ServerQueue.Queue.Pop` | webserverlab/wserver.c:578-587 | Takes the first request, if there is one |
| `ServerQueue.Queue.MinIndex` | webserverlab/wserver.c:590-612 | Finds the last smallest of the first requests and leaves the queue as it was |
| `ServerQueue.Queue.InsertMinToRear` | webserverlab/wserver.c:614-647 | Moves one request to the rear, the others keeping their order |
| `ServerQueue.Queue.SortQueue` | webserverlab/wserver.c:649-664 | The contents become those of the proved sort |
| `ServerQueue.Queue.Sff` | webserverlab/wserver.c:378-400 | The contents are those of the ordered insertion |
| `ServerQueue.Queue.Fifo` | webserverlab/wserver.c:344-376 | The contents are those of the insertion at the rear |
| `Server.NeverStuckUnlessOne` | webserverlab/wserver.c:183-203 | With a worker, no run stops before everything accepted is served, if and only if the buffer size is not one (also lines 530-549) |
| `Server.EveryRequestOnce` | webserverlab/wserver.c:183-203 | In every reachable state the queue is within its limit, every accepted request is in exactly one place, and first in, first out, they are taken as they came (also lines 530-549) |
| `Server.StepKeepsInv` | webserverlab/wserver.c:183-203 | Each section keeps: an unsignalled sleeping worker means no more requests than woken workers, an unsignalled waiting producer at least limit - 1 requests, and nothing lost (also lines 530-549) |
| `Server.SmallestFirst` | webserverlab/wserver.c:199 | In shortest-file-first order a worker gets a smallest queued request (also lines 378-400) |
| `Server.ServingEnds` | webserverlab/wserver.c:183-203 | A finite number of connections takes a bounded number of steps (also lines 530-549) |
| `Server.StuckRun` | webserverlab/wserver.c:192-199 | With room for one, a run that ends with the producer and the worker asleep and a request unserved (also lines 532-535) |
| `Server.Buffer.Deliver` | webserverlab/wserver.c:530-549 | The section is the step, on the linked queue, and keeps the invariant |
| `Server.Buffer.DeliverAgain` | webserverlab/wserver.c:532-549 | As above |
| `Server.Buffer.TakeWork` | webserverlab/wserver.c:185-203 | As above, giving the request at the front |
| `Server.Buffer.TakeWorkAgain` | webserverlab/wserver.c:187-203 | As above |
| `RaidMap.BlockRoundTrip` | Final_Review_Code/HW-Raid/raid.py:234-269 | Every logical block has a place that holds no parity, and that place determines it |
| `RaidMap.PlaceRoundTrip` | Final_Review_Code/HW-Raid/raid.py:234-269 | Every place that holds no parity holds a logical block: the mapping is onto those places, at level 4 and in both layouts of level 5 |
| `RaidMap.ParityRotates` | Final_Review_Code/HW-Raid/raid.py:239-240 | Level 4 has all parity on the last disk; at level 5 stripe 0 has it there and each further stripe one disk lower, round and round (also lines 251-252) |
| `RaidMap.ChunkRows` | Final_Review_Code/HW-Raid/raid.py:235-237 | Block r of any chunk of a stripe is at offset r of the stripe's rows; at level 4, chunk d is on disk d (also lines 246-249) |
| `RaidMap.AsymmetricDisks` | Final_Review_Code/HW-Raid/raid.py:255-257 | Left-asymmetric, the chunks of a stripe lie on ascending disks from the first on, skipping only the parity disk |
| `RaidMap.SymmetricDisks` | Final_Review_Code/HW-Raid/raid.py:258-259 | Left-symmetric, the first chunk of a stripe is on the disk after its parity and each further one on the next disk, round the end |
| `RaidMap.StripeSharesParity` | Final_Review_Code/HW-Raid/raid.py:239-240 | All blocks of a stripe share the parity disk found for it, and none is on it (also lines 272-274) |
| `RaidMap.SymmetricDisk` | Final_Review_Code/HW-Raid/raid.py:258-259 | Left-symmetric, chunk k is on disk k modulo the number of disks |
| `RaidMap.ConsecutiveChunks` | Final_Review_Code/HW-Raid/raid.py:258-259 | So consecutive chunks, as many as disks, are on different disks |
| `RaidParity.PieceKeepsParity` | Final_Review_Code/HW-Raid/raid.py:277-311 | What is read before a piece, with the data written, determines the parity of every row, so that each row still has exclusive or zero |
| `RaidParity.ReadsSuffice` | Final_Review_Code/HW-Raid/raid.py:280-301 | Two arrays that agree on what was read need the same new parity |
| `RaidParity.NewParityIs` | Final_Review_Code/HW-Raid/raid.py:280-301 | Subtracting the old blocks and parity, or adding up the stripe, both give the new row's exclusive or |
| `RaidParity.LostDisk` | Final_Review_Code/HW-Raid/raid.py:276-311 | Every block is the exclusive or of the others in its row |
| `Raid.Array.DoPartialWrite` | Final_Review_Code/HW-Raid/raid.py:277-311 | Stores exactly the blocks of the piece, keeps every row's parity, and issues exactly the listed reads and writes |
| `Raid.Array.EnqueueWrite` | Final_Review_Code/HW-Raid/raid.py:324-345 | Splits any non-empty write into consecutive non-empty pieces, each in one stripe, that cover it; stores it all, keeps every row's parity and issues the pieces' reads and writes one after the other |
| `Raid.Array.EnqueueRead` | Final_Review_Code/HW-Raid/raid.py:320-323 | One read for each block, in order |
| `Raid.PieceEnd` | Final_Review_Code/HW-Raid/raid.py:332-340 | Where the simulator ends a piece: at the end of its stripe, or of the request in the last one |
| `Raid.FullStripeReadsNothing` | Final_Review_Code/HW-Raid/raid.py:280-301 | A full stripe needs no reads |
| `Raid.OffsetCount` | Final_Review_Code/HW-Raid/raid.py:283-288 | The parity offsets of a piece are as many as its blocks, or as a chunk's if those are fewer |
| `Raid.PieceIo` | Final_Review_Code/HW-Raid/raid.py:277-311 | The reads and writes of a piece one by one: its blocks in order, then the parity of its rows in the order of its first blocks; or the rest of the stripe in order, and no parity |
| `Raid.ReadCount` | Final_Review_Code/HW-Raid/raid.py:280-301 | How many reads a piece takes, for every chunk size, and exactly when the other way would have taken fewer |
| `Raid.StoredReads` | Final_Review_Code/HW-Raid/raid.py:304-307 | A reader gets what was written, and elsewhere what was there |
| `Vsfs.EveryReachableState` | Final_Review_Code/HW-VSFS/vsfs.py:256-459 | In every state that operations lead to the tables are consistent, and walking the directory blocks from the root finds for every path what the index says, and nothing for others |
| `VsfsState.WalkAgrees` | Final_Review_Code/HW-VSFS/vsfs.py:399-440 | In a consistent state the index and the directory blocks agree on every path, both ways |
| `VsfsSteps.AddKeeps` | Final_Review_Code/HW-VSFS/vsfs.py:289-365 | Creating or linking keeps bitmaps, types, owners, link counts, index and directories consistent (also lines 394-449) |
| `VsfsSteps.RemoveKeeps` | Final_Review_Code/HW-VSFS/vsfs.py:256-287 | So does removing a name of a file |
| `VsfsSteps.WriteKeeps` | Final_Review_Code/HW-VSFS/vsfs.py:367-384 | So does writing a file |
| `VsfsSteps.AddCounts` | Final_Review_Code/HW-VSFS/vsfs.py:306 | Link counts stay the number of entries that name the inode (also lines 353-360) |
| `VsfsSteps.RemoveIndex` | Final_Review_Code/HW-VSFS/vsfs.py:263-271 | A file goes exactly with its last path: those listed still have an inode of their own kind |
| `VsfsEffects.AddSeen` | Final_Review_Code/HW-VSFS/vsfs.py:289-365 | The new path is listed last, with its inode, and is its directory's last entry; a new file is empty, a new directory has its two entries, a link reads as its target; no other path, directory or file is affected (also lines 394-449) |
| `VsfsEffects.RemoveSeen` | Final_Review_Code/HW-VSFS/vsfs.py:256-287 | The path is not listed any more and its one entry is gone, the others keeping their order; no other path, directory or file is affected |
| `VsfsEffects.WriteSeen` | Final_Review_Code/HW-VSFS/vsfs.py:367-384 | Every path of the file reads what was written, and nothing else has changed |
| `Vsfs.InitialInv` | Final_Review_Code/HW-VSFS/vsfs.py:175-204 | The initial file system is consistent |
| `Vsfs.Fs.Alloc` | Final_Review_Code/HW-VSFS/vsfs.py:24-30 | Takes the first free bit, or -1 if and only if there is none |
| `Vsfs.Fs.CreateFile` | Final_Review_Code/HW-VSFS/vsfs.py:317-365 | Fails, changing nothing, if and only if the directory is full or has the name, or an inode or a directory's block is lacking; takes the first free inode and block |
| `Vsfs.Fs.DoCreate` | Final_Review_Code/HW-VSFS/vsfs.py:421-449 | As above, the new path being listed, and consistency kept |
| `Vsfs.Fs.DoLink` | Final_Review_Code/HW-VSFS/vsfs.py:289-315 | Fails, changing nothing, if and only if the directory is full or has the name; otherwise adds the name, keeping consistency (also lines 394-419) |
| `Vsfs.Fs.DoDelete` | Final_Review_Code/HW-VSFS/vsfs.py:256-287 | Removes the entry and the path, and inode and block with the last name, keeping consistency (also lines 386-392) |
| `Vsfs.Fs.DoAppend` | Final_Review_Code/HW-VSFS/vsfs.py:367-384 | Fails, changing nothing, if and only if the file has its block or none is free; otherwise writes to the first free block, keeping consistency (also lines 451-459) |
| `Zip.ReproducedExactly` | utilitylabORIGINAL/my-unzip.c:38-45 | Unzipping a zipped file gives the file back if and only if it ends in exactly one newline |
| `Zip.UnzipOfZip` | utilitylabORIGINAL/my-zip.c:39-64 | Unzipping a zipped file gives it without its last run, and a newline |
| `Zip.ExpandPending` | utilitylabORIGINAL/my-zip.c:55-59 | The pairs written for the runs so far read back as those runs |
| `Zip.IntRoundTrip` | utilitylabORIGINAL/my-zip.c:55 | Four bytes hold every count from 0 below 2^31 |
| `Zip.Zip` | utilitylabORIGINAL/my-zip.c:39-64 | The output is five bytes for each position where the byte changes, and a newline: the length of the maximal run that ends there, least significant byte first, and its byte, told by positions of the input |
| `Zip.ChangesAre` | utilitylabORIGINAL/my-zip.c:45-53 | The positions meant are exactly those where the byte differs from the one before, in order |
| `Zip.Unzip` | utilitylabORIGINAL/my-unzip.c:38-45 | The loops write the runs of every pair that can be read, a lone count repeating the last byte, and a newline |
| `Zip.ExpandedAt` | utilitylabORIGINAL/my-unzip.c:38-45 | Of any input whatever: where in the output each pair's run begins, how long it is and which byte it repeats |
| `Zip.IntTwosComplement` | utilitylabORIGINAL/my-unzip.c:38-45 | Four bytes, least significant first, as a signed count |

## Left out

- Printing, option parsing, graphics, random workloads and their seeds: random choices are arguments of the operations, and the file systems' error messages are not kept.
- Lfs.LFS.AllocateInode: the random policy is any free inode, as the retry loop has no bound of its own.
- Operations run with the checkpoint region as the source of inodes (`use_disk_cr`), except for reading one inode that way.
- Paths of the LFS on which the simulator stops (see above) are preconditions of its operations.
- Fractional speeds and zone widths that do not divide the circle, `disk-precise.py`, and the drawing of the window.
- Ffs.FileSystem.DoDelete: where the division leads outside the bitmaps the simulator stops; that it does not is a precondition, and what is left half done is not modelled.
- Ffs.FileSystem.PickGroup: `allocate_faraway` is 1; with more, a group may be picked that has no free inode of its own.
- Symbols, dumps and span statistics of the FFS simulator.
- Interrupting a monitor's section: the lock is assumed to exclude, and a signal to wake one sleeper if there is one. The threads of a kind are counted, not told apart.
- Train: one loading thread at a time, every boarded passenger calls `station_on_board` once, and no wakeup is spurious.
- Server: the second unlock at `wserver.c:235`, sockets, requests' parsing and handling. ServerQueue.Connection has one string for all of a request's.
- Levels 0 and 1 of the RAID simulator, whose mappings are simpler cases of level 4's, its timing statistics, and its check that an offset fits a disk.
- Raid.Array: the disks' contents are one byte to a block, parity being taken byte by byte.
- Zip: runs of 2^31 bytes or more, on which the C count overflows, and files that cannot be opened.
- Vsfs: inodes and blocks are values in sequences that the operations replace, as no two of the original's share one.
- `checksum.py`, `my-cat`, `my-grep` and the fork exercises, which compute nothing that needs more than reading them.
