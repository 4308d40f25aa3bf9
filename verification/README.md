# Verified models of the small OS

A Dafny model of the parts of the system that hold its state: the FAT file system under the kernel, the heap
allocator and library algorithms that programs use, physical pages and page tables, the scheduler with its messages,
timers and handles, and the mutex of user space. The code that changes state is modelled by classes and methods that
change it in place, with the loops of the original; each is proved against a specification on values, and the
promises of the system are theorems about these specifications, in most cases about every run of operations.

| area | files | main theorem |
|---|---|---|
| FAT table and window | `FatEntry`, `FatVolume` | an entry stored through the one-sector window reads back, all others are unchanged, and the tables mirror each other |
| cluster chains | `FatTable`, `FatChain` | allocation and removal keep the table a set of disjoint acyclic chains |
| files | `FatSectors`, `FatContent`, `FatFileState`, `FatWriteState`, `FatFile`, `FatSeekState`, `FatSeek`, `FatVolumeRuns`, `FatOpenFiles`, `FatMisled` | open files are independent byte sequences with a position |
| formatting and mounting | `FatFormat`, `FatChoice`, `FatBoot`, `FatMount`, `FatNewVolume` | which layout is chosen for every drive and wish, and what was formatted mounts with it |
| heap | `HeapRam`, `HeapBlocks`, `HeapLinks`, `HeapSteps`, `Heap`, `HeapRuns`, `HeapCalls` | the heap is a map from pointers to byte sequences |
| pages and breaks | `PageState`, `PageBreaks`, `PageTables`, `PageEntries`, `Pages`, `PageRuns`, `PageFailures` | pages and table entries match exactly, and every heap byte below the break has a page of its own |
| mutex | `Mutex` | mutual exclusion under any preemption, and exactly when no wake-up is lost |
| kernel | `KernelState`, `KernelTimers`, `KernelKeeps`, `KernelTree`, `KernelRuns`, `KernelWakes`, `KernelEffects`, `KernelClock`, `Kernel`, `RoundRobin` | in every run ready queue, events, handles and waits are consistent, ready threads get their turn, sleeps and timers end at the first tick that is not too early, and it is known exactly when a message or a wake-up is lost |
| queues | `RingQueue`, `PrioQueue` | ring buffer and priority queue refine sequences |
| sorting and numbers | `SortState`, `Qsort`, `Numbers` | a sorted permutation; printing and parsing are inverse |

`Words` holds bytes and little-endian words.

How to read the models:

- The disk is a row of 512-byte sectors, the configuration that of `ffconf.h`: no exFAT, no long names, no fast seek,
  a private sector buffer per file. Shifts and masks are written as division and remainder, which is the same for
  powers of two (`FatEntry.MaskIsRemainder`).
- Whether memory is available, or a higher break is granted, is a parameter of every call that asks for it, and of
  every event of a tick, so the theorems hold for either answer. A queue of the kernel that still has room needs no
  memory, so what is refused depends on both.
- 32-bit wrap-around is written out where it can happen: the counter of the mutex, `strtoul`, formatting and mounting.
- `Kernel.Krn` holds a ring buffer as ready queue, one for the messages of each thread, and the priority queue of timed
  events, as `RingQueue` and `PrioQueue` have them; its state as a value, `Now`, has their contents. What is proved about
  runs is about these values, and the contracts of the methods say that each call on the objects is one of their steps.
- Kernel objects are named by their addresses; a table of threads stands for the kernel's heap. Timed events carry a
  serial number, which only the theorems look at.
- Inserting into the priority queue moves its elements at once. The code calls `memcpy` on overlapping ranges
  (`priorityqueue.c`, lines 55 to 58), which C leaves undefined; it is right because `memcpy` and `memmove` are the same
  instruction on this machine (`hwcrt0_stdc.h`, lines 120 to 125).
- Time is a real number.

Where the promises of the code or its comments do not hold, the model follows the code and says exactly when they do:

- A message posted to a thread whose queue is full is dropped when there is no memory, and the poster is told that it
  was posted (`KernelWakes.MessageLost`); nothing is lost if and only if this does not happen
  (`KernelRuns.RunDeliversAll`).
- A thread goes to sleep although its wake-up event finds no memory (`KernelWakes.WakeLost`); no thread sleeps without
  one if and only if this does not happen (`KernelWakes.RunWakes`).
- A thread that sleeps can be woken early: the search for a thread that waits for a mutex compares wait data alone, and
  that of a sleeping thread, its time to wake up, may look like the handle (`KernelClock.Mistakes`). Every other sleep
  lasts until the first tick that is not earlier than its end (`KernelClock.SleepEnds`).
- A repeating timer without interval keeps the kernel in its loop over due events (`KernelTimers.NeverThrough`,
  `KernelWakes.ZeroCanBeSet`), so a tick is modelled for states in which none of them is due; that is all states if
  and only if none is set (`KernelWakes.RunMoves`).
- A wake-up of the mutex can be lost (`Mutex.WakeUpCanBeLost`), and is in a run if and only if a thread goes to sleep,
  or notifies without waking a sleeper, at a moment at which the mutex is free and no other thread is about to notify or
  try again (`Mutex.RunWakes`).
- A raise of the program break that finds some free pages but too few leaves table entries that point to pages which
  have been given back, and only such a raise does (`PageBreaks.SetBrkKeeps`, `PageRuns.RunSafe`); two processes can
  then share a page (`PageFailures.SpoiltTablesShare`, a run from the start of the kernel).
- A break that is raised from a page boundary inside its page is granted without memory behind it
  (`PageBreaks.SetBrkMapped`, `PageFailures.UnbackedGranted`); the requests of the allocator are never of this kind
  (`HeapSteps.RaisesByPages`).
- The check that a granted break yields more than the room asked for can fail although the room suffices
  (`HeapSteps.GrownRoom`, `HeapSteps.ExactGrowth`), and the size that initialising a heap insists on can be too small
  for an unaligned start (`Heap.InitialRoom`).
- A seek behind the end of a file trusts its buffer to hold the sector it seems to show. When that sector was freed and
  written by others, and the file gets it again, it reads bytes that are not on the disk (`FatMisled.MisledSeek`, a run
  from formatting on). Allocation is deterministic, so the clusters that the seek will get are known before it
  (`FatSeekState.Room`): it goes wrong if and only if the buffer is out of step with the disk, shows a sector that the
  file will cover, and is not loaded anew (`FatSeekState.Misled`, `FatSeek.FLseek`), never when the buffer is in step
  (`FatSeekState.InStepGrows`). A run leaves all files in order if and only if none of its seeks is of this kind
  (`FatVolumeRuns.RunInOrder`).
- Formatting can succeed without leaving a cluster, and mounting then fails (`FatNewVolume.FormatThenMount`,
  `FatNewVolume.NoClusterLeft`); a boot sector whose front part wraps around 32 bits is accepted with a layout that
  makes no sense (`FatBoot.MountIsSound`, `FatBoot.WrappingMounts`).
- `strtol` and `strtoul` answer what section 7.20.1.4 of C99 says if and only if the text is neither a "0x" without a
  digit behind it, where C99 finds the zero, nor begins with "0b", which C99 does not know (`Numbers.AnswersStandard`,
  `Numbers.BarePrefix`); `strtol` reads `itoa` back exactly for base 10 and for values that are not negative
  (`Numbers.StrtolInvertsItoa`).
- The comment on the guard page in `mmu_calcPTLayout` says the opposite of the code, which is followed
  (`PageTables.LayoutFits`). The assertion in `mmu_freePageRange` assigns where it means to compare; it has no effect.

## Model

| member | source | states |
|---|---|---|
| `FatEntry.GetAfterPut` | apcpuos/os/fs/extern/fatfs/source/ff.c:1177-1304 | a stored table entry reads back as the value cut to 12, 16 or 28 bits |
| `FatEntry.GetAfterPutOther` | apcpuos/os/fs/extern/fatfs/source/ff.c:1177-1304 | storing an entry changes no other entry, including the FAT12 entry that shares a byte with it |
| `FatEntry.ReservedBitsSurvive` | apcpuos/os/fs/extern/fatfs/source/ff.c:1289-1300 | the top four bits of a FAT32 word survive every store |
| `FatEntry.EntryIsPiece` | apcpuos/os/fs/extern/fatfs/source/ff.c:1177-1304 | an entry is a piece of the table read as one little-endian number: 12, 16 or 32 bits at its place, of which 28 count |
| `FatEntry.MaskIsRemainder` | apcpuos/os/fs/extern/fatfs/source/ff.c:3960 | masking with one less than a cluster size, as the code does, is the remainder that the model writes; `Layout.Sound` keeps cluster sizes to powers of two |
| `FatVolume.FatFs.constructor` | apcpuos/os/fs/extern/fatfs/source/ff.c:1080-1101 | a volume with equal tables, whose window shows a sector outside the second one, is in order, with the chains of the files it holds and the clusters of its directories in use |
| `FatVolume.FatFs.SyncWindow` | apcpuos/os/fs/extern/fatfs/source/ff.c:1058-1076 | afterwards the window is clean, every reader sees the same disk, and the second table may have caught up; the mirror invariant (part of `Valid`) holds |
| `FatVolume.FatFs.MoveWindow` | apcpuos/os/fs/extern/fatfs/source/ff.c:1080-1101 | the window shows the sector asked for; no reader outside the second table sees a difference |
| `FatVolume.FatFs.GetFat12` | apcpuos/os/fs/extern/fatfs/source/ff.c:1194-1201 | an entry that may straddle two sectors is assembled from both |
| `FatVolume.FatFs.GetFat16` | apcpuos/os/fs/extern/fatfs/source/ff.c:1203-1206 | the entry of the table |
| `FatVolume.FatFs.GetFat32` | apcpuos/os/fs/extern/fatfs/source/ff.c:1208-1211 | the entry of the table without its reserved bits |
| `FatVolume.FatFs.GetFat` | apcpuos/os/fs/extern/fatfs/source/ff.c:1177-1245 | the entry of the table for a valid cluster, else 1; the table and all data sectors are as before |
| `FatVolume.FatFs.PutFat12` | apcpuos/os/fs/extern/fatfs/source/ff.c:1268-1280 | the table holds the new entry and is otherwise as before, also across a sector boundary |
| `FatVolume.FatFs.PutFat16` | apcpuos/os/fs/extern/fatfs/source/ff.c:1282-1287 | the table holds the new entry and is otherwise as before |
| `FatVolume.FatFs.PutFat32` | apcpuos/os/fs/extern/fatfs/source/ff.c:1289-1300 | the table holds the new entry and is otherwise as before |
| `FatVolume.FatFs.PutFat` | apcpuos/os/fs/extern/fatfs/source/ff.c:1255-1304 | the table seen as a sequence is updated at exactly this cluster with the value cut to the width, the bytes as `PutEntry` says; an invalid cluster is an internal error and changes nothing; no data sector changes |
| `FatTable.ChainAcyclic` | apcpuos/os/fs/extern/fatfs/source/ff.c:1540-1633 | a chain that ends in an end mark has no repeated cluster |
| `FatTable.StretchKeeps` | apcpuos/os/fs/extern/fatfs/source/ff.c:1540-1633 | stretching appends exactly one previously free cluster as the new end; the table stays a set of disjoint chains that cover all used entries |
| `FatTable.CutKeeps` | apcpuos/os/fs/extern/fatfs/source/ff.c:1445-1531 | removing from the middle ends the remaining prefix in an end mark and frees exactly the rest; the other chains are untouched |
| `FatTable.RemovedSuffix` | apcpuos/os/fs/extern/fatfs/source/ff.c:1470-1502 | on a chain the removal loop clears exactly the clusters of the chain |
| `FatTable.RemovedIsReached` | apcpuos/os/fs/extern/fatfs/source/ff.c:1470-1502 | on a table with any contents, also cyclic, the removal loop clears exactly the clusters reached from its argument, except one that holds 1 |
| `FatTable.RemovedFails` | apcpuos/os/fs/extern/fatfs/source/ff.c:1470-1502 | the removal loop reports an error exactly if a cluster it reaches holds 1 |
| `FatTable.RemovalKeeps` | apcpuos/os/fs/extern/fatfs/source/ff.c:1445-1531 | removing as `f_truncate` asks for it keeps the table a set of disjoint chains and changes one file only |
| `FatTable.NoSpaceIffNoneFree` | apcpuos/os/fs/extern/fatfs/source/ff.c:1540-1633 | with an exact or unknown free count, "no space" is answered exactly when no entry is zero |
| `FatTable.AllocationKeeps` | apcpuos/os/fs/extern/fatfs/source/ff.c:1540-1633 | allocating for a file answers "no space" exactly when no entry is zero, else appends one previously free cluster to that file only |
| `FatTable.CountAfterFree` | apcpuos/os/fs/extern/fatfs/source/ff.c:1479-1482 | an exact free count stays exact when a cluster is freed |
| `FatTable.CountAfterTake` | apcpuos/os/fs/extern/fatfs/source/ff.c:1622-1627 | an exact free count stays exact when a cluster is taken |
| `FatChain.EocIs` | apcpuos/os/fs/extern/fatfs/source/ff.c:1616 | the end mark is all ones in 12, 16 or 28 bits |
| `FatTable.PickedIs` | apcpuos/os/fs/extern/fatfs/source/ff.c:1550-1615 | a cluster is the one handed out if and only if it is, for a new chain, the first free one met cyclically from behind the last one handed out, and behind a cluster the next one, or, if that is used, the first free one as for a new chain; all used, or an entry of 1 met first, are answered with 0 and 1 |
| `FatChain.RemoveChain` | apcpuos/os/fs/extern/fatfs/source/ff.c:1445-1531 | the table afterwards is that of the removal loop on the table whose prefix was ended first, with its error answers; termination on any contents; an exact free count stays exact and an unknown one unknown; no data sector changes |
| `FatChain.FreeFrom` | apcpuos/os/fs/extern/fatfs/source/ff.c:1469-1502 | the loop that frees cluster after cluster does to the table what `Removed` says; an exact free count stays exact |
| `FatChain.FindFree` | apcpuos/os/fs/extern/fatfs/source/ff.c:1602-1615 | the wrap-around scan finds the first zero entry behind its start, as `Scan` says, or has looked at every cluster once and found none |
| `FatChain.Choose` | apcpuos/os/fs/extern/fatfs/source/ff.c:1550-1615 | the cluster chosen is the next one, else the first free one met cyclically from the last one handed out (`Allots`); 0 only if no entry is zero; the table is as before |
| `FatChain.PickedAll` | apcpuos/os/fs/extern/fatfs/source/ff.c:1550-1615 | on a table without entries of 1 no cluster is picked exactly when no entry is zero |
| `FatChain.CreateChain` | apcpuos/os/fs/extern/fatfs/source/ff.c:1540-1633 | the answer and the new table satisfy `Allocation`: existing successor, full, insane table, or one free cluster marked as an end and linked; that cluster is the one nearest in the sense of `Allots` in the state before, and is then the last one handed out; the free count is one less if it was known, and stays exact |
| `FatContent.DirectReads` | apcpuos/os/fs/extern/fatfs/source/ff.c:3981-3999 | sectors read past a dirty private buffer, patched with it, are the bytes of the file |
| `FatContent.DirectWrites` | apcpuos/os/fs/extern/fatfs/source/ff.c:4096-4116 | sectors written past the private buffer, with the buffer refilled, overwrite or extend exactly these bytes |
| `FatContent.FlushKeeps` | apcpuos/os/fs/extern/fatfs/source/ff.c:4088-4091 | writing the dirty buffer back changes no byte of any file |
| `FatSectors.SectsDistinct` | apcpuos/os/fs/extern/fatfs/source/ff.c:1160-1168 | no sector occurs twice in a file |
| `FatSectors.DisjointFiles` | apcpuos/os/fs/extern/fatfs/source/ff.c:1160-1168 | files with disjoint chains share no sector |
| `FatFile.ClustersInPlace` | apcpuos/os/fs/extern/fatfs/source/ff.c:1160-1168 | 0 is answered exactly for no cluster; cluster 2 lies at the start of the data, each next one right behind; the sectors of a cluster lie in the data area of the volume, and those of two clusters do not overlap |
| `FatFile.FollowRead` | apcpuos/os/fs/extern/fatfs/source/ff.c:3960-3977 | at a sector boundary the cluster of the next byte becomes current; the error branches are not taken |
| `FatFile.ReadWhole` | apcpuos/os/fs/extern/fatfs/source/ff.c:3981-3999 | a multi-sector transfer delivers the next bytes of the file |
| `FatFile.ReadPart` | apcpuos/os/fs/extern/fatfs/source/ff.c:4014-4021 | a transfer through the buffer delivers the next bytes of the file |
| `FatFile.ReadRound` | apcpuos/os/fs/extern/fatfs/source/ff.c:3958-4022 | each round of the loop delivers the next bytes and makes progress |
| `FatFile.FRead` | apcpuos/os/fs/extern/fatfs/source/ff.c:3935-4025 | the data is the slice of the file at the file pointer, cut at its end; the file is as before and the pointer moved behind it; without read access nothing |
| `FatFile.NextToWrite` | apcpuos/os/fs/extern/fatfs/source/ff.c:4063-4081 | at a cluster boundary the next cluster of the file, or one appended to it; 0 only when no cluster is free |
| `FatFile.PlaceForWrite` | apcpuos/os/fs/extern/fatfs/source/ff.c:4062-4095 | the file is placed at the cluster to write to with its bytes unchanged, or the disk is full |
| `FatFile.WriteWhole` | apcpuos/os/fs/extern/fatfs/source/ff.c:4096-4116 | a multi-sector transfer overwrites or extends exactly these bytes |
| `FatFile.WritePart` | apcpuos/os/fs/extern/fatfs/source/ff.c:4118-4141 | a transfer through the buffer overwrites or extends exactly these bytes |
| `FatFile.WriteAll` | apcpuos/os/fs/extern/fatfs/source/ff.c:4060-4142 | the rounds write a prefix of the data, shorter than asked for only when no cluster is free and those of the file are used up |
| `FatFile.FWrite` | apcpuos/os/fs/extern/fatfs/source/ff.c:4035-4147 | exactly the reported bytes are overwritten or appended, also when the disk fills part-way; fewer are reported only if no cluster is free and the file pointer has reached the end of the last one, or the file reaches 4 GiB; the set of chains changes for this file only |
| `FatSeekState.SeekReachesOneCluster` | apcpuos/os/fs/extern/fatfs/source/ff.c:4540-4580 | seeks to one byte of one file reach the same cluster, from the current cluster or from the first one |
| `FatSeek.SeekStart` | apcpuos/os/fs/extern/fatfs/source/ff.c:4540-4558 | the start is the current cluster for a target not in front of it, else the first cluster, which a file without clusters gets here; none exactly says that the disk is full |
| `FatSeek.SeekFollow` | apcpuos/os/fs/extern/fatfs/source/ff.c:4559-4580 | following the chain, and stretching it for a target behind the end, reaches the cluster that holds the byte in front of the target, or stops behind the last cluster because none is free |
| `FatSeek.SeekLand` | apcpuos/os/fs/extern/fatfs/source/ff.c:4581-4587 | the pointer is at the target, or behind the last cluster of a full disk, and the sector computed is the one it stands in |
| `FatSeek.SeekEnd` | apcpuos/os/fs/extern/fatfs/source/ff.c:4589-4604 | raising the size and filling the buffer gives the same file standing at the target, or one that is longer and has the clusters `Room` names; that one is in order exactly unless `Misled` held of the state before the seek |
| `FatSeek.FLseek` | apcpuos/os/fs/extern/fatfs/source/ff.c:4530-4607 | inside the file, or without write access, the file stands at the target or at its end with the same bytes; with write access a seek behind the end extends the file to the target, or as far as there are clusters, keeps its bytes and gives it the clusters that `Room` names beforehand; the file is in order then if and only if `Misled` does not hold of the state before the call; the other chains stay |
| `FatWriteState.HandedMeans` | apcpuos/os/fs/extern/fatfs/source/ff.c:1540-1633 | the clusters that a file will be given are determined by table, last cluster and chain: it keeps those it has, the new ones were free, there are as many as needed or none is left free |
| `FatSeekState.InStepGrows` | apcpuos/os/fs/extern/fatfs/source/ff.c:4589-4604 | with a buffer that is to be written back or shows what is on the disk, a seek behind the end always leaves the file in order |
| `FatSeekState.GrownBytes` | apcpuos/os/fs/extern/fatfs/source/ff.c:4589-4604 | the bytes of a file that was extended begin with its old bytes |
| `FatMisled.MisledSeek` | apcpuos/os/fs/extern/fatfs/source/ff.c:4593-4604 | a run of the objects from formatting a drive on: two files in turn write a byte to the one cluster and are cut; the first seeks to byte 100, gets the cluster back, and its buffer shows other bytes than the disk |
| `FatMisled.WillBeMisled` | apcpuos/os/fs/extern/fatfs/source/ff.c:4593-4604 | in the state before that seek `Misled` holds, and the seek will get cluster 2 and end at byte 100 |
| `FatMisled.LayoutChosen` | apcpuos/os/fs/extern/fatfs/source/ff.c:5977-6318 | a drive of 129 sectors aligned to 128 is formatted with one cluster of one sector behind a front part of 128 |
| `FatSeek.DropClusters` | apcpuos/os/fs/extern/fatfs/source/ff.c:4950-4962 | the clusters behind the file pointer are removed from the table |
| `FatSeek.FTruncate` | apcpuos/os/fs/extern/fatfs/source/ff.c:4936-4978 | the bytes up to the file pointer stay, the size is the file pointer, and exactly the clusters behind it are freed; without write access nothing changes |
| `FatVolumeRuns.OthersUntouched` | apcpuos/os/fs/extern/fatfs/source/ff.c:3935-4147 | an operation on one file leaves every other open file with the same bytes and position |
| `FatVolumeRuns.StepKeeps` | apcpuos/os/fs/extern/fatfs/source/ff.c:3935-4147 | an operation on one of the open files keeps the volume in order if and only if it is not a misled seek behind the end, and then answers as a byte sequence with a position would |
| `FatVolumeRuns.RunInOrder` | apcpuos/os/fs/extern/fatfs/source/ff.c:3935-4978 | in every run all files are in order at all times if and only if no seek behind the end of the run is misled by the buffer it starts with |
| `FatVolumeRuns.RunRefines` | apcpuos/os/fs/extern/fatfs/source/ff.c:3935-4608 | in every run of reads, writes, seeks, also behind the end, and truncations, in which no seek is misled, the open files are independent byte sequences with a position |
| `FatVolumeRuns.WriteSeekRead` | apcpuos/os/fs/extern/fatfs/source/ff.c:3935-4608 | writing, seeking back and reading as much yields what was written |
| `FatOpenFiles.MountFiles` | apcpuos/os/fs/extern/fatfs/source/ff.c:3536-3607 | a volume whose table is a set of chains is mounted with the files that have these chains, and the directories named with their clusters in use |
| `FatOpenFiles.MountNewVolume` | apcpuos/os/fs/extern/fatfs/source/ff.c:3536-3607 | what was just formatted is mounted, empty and ready for new files; on FAT32 cluster 2 belongs to the root directory |
| `FatOpenFiles.OpenFile` | apcpuos/os/fs/extern/fatfs/source/ff.c:3874-3892 | a file is opened beside others at its first cluster, with position 0 and its size |
| `FatOpenFiles.Call` | apcpuos/os/fs/extern/fatfs/source/ff.c:3935-4978 | every read, write, seek and truncation of a file is one of the operations of the runs, with the answer the caller gets; a write is short only on a full disk or at 4 GiB |
| `FatOpenFiles.Perform` | apcpuos/os/fs/extern/fatfs/source/ff.c:3935-4978 | with any number of files open, every call on one of them is a step of the runs of `FatVolumeRuns`; the volume stays in order if and only if the call is not a misled seek behind the end, and all other files stay in order even then |
| `FatFormat.NormalUsable` | apcpuos/os/fs/extern/fatfs/source/ff.c:5977-5994 | block size, number of FATs, root entries and cluster size are usable after defaults were put in |
| `FatFormat.RetryProgress` | apcpuos/os/fs/extern/fatfs/source/ff.c:6246-6318 | every retry fixes the cluster size or turns from FAT16 to FAT32 |
| `FatFormat.PlanVolume` | apcpuos/os/fs/extern/fatfs/source/ff.c:6246-6318 | the retry loop ends, with the outcome of the recursion `Plan` |
| `FatFormat.PlanFits` | apcpuos/os/fs/extern/fatfs/source/ff.c:6246-6318 | a settled layout fits the volume in spite of 32-bit arithmetic: used sectors and clusters add up, the FAT holds every entry, the type is the one for the number of clusters, the data area is aligned |
| `FatFormat.Choose` | apcpuos/os/fs/extern/fatfs/source/ff.c:5977-6318 | the layout for a wish and a drive, or why there is none; what that is says `FatChoice.ChosenIs` |
| `FatFormat.ChosenFits` | apcpuos/os/fs/extern/fatfs/source/ff.c:5977-6318 | every layout settled on fits its volume |
| `FatChoice.AutoFatIs` | apcpuos/os/fs/extern/fatfs/source/ff.c:6259-6263 | the automatic cluster size for FAT12 and FAT16, of n = sectors / 4096, is the power of two whose square is above n and whose half squared is not, 32 from 256 on and 64 from 512 on |
| `FatChoice.AutoFat32Is` | apcpuos/os/fs/extern/fatfs/source/ff.c:6250-6253 | that for FAT32, of n = sectors / 131072, is the least power of two above n, and 64 from 32 on |
| `FatChoice.Attempt32Is` | apcpuos/os/fs/extern/fatfs/source/ff.c:6249-6297 | an attempt at FAT32 settles exactly if there are more than 65525 clusters with and at most 0x0FFFFFF5 without tables, and room for 16 of them, 32-bit arithmetic notwithstanding |
| `FatChoice.PlanIs` | apcpuos/os/fs/extern/fatfs/source/ff.c:6246-6318 | the loop of attempts settles on a layout if and only if it is the one that sizes alone describe: the smallest tables, the data on a block boundary, the type the number of clusters calls for, the cluster size asked for or the automatic one, twice that for FAT16 that does not suit, FAT32 if even 64 sectors are too few |
| `FatChoice.MeantIs` | apcpuos/os/fs/extern/fatfs/source/ff.c:5977-5994 | what is usable of a wish is taken, and defaults for the rest |
| `FatChoice.ChosenIs` | apcpuos/os/fs/extern/fatfs/source/ff.c:5977-6318 | for every wish and drive: this layout is chosen if and only if it is the one described, and the request is refused exactly if neither type is allowed or no layout settles |
| `FatBoot.WriteVbr` | apcpuos/os/fs/extern/fatfs/source/ff.c:6324-6358 | the sector written is `Vbr`, store by store |
| `FatBoot.VbrRest` | apcpuos/os/fs/extern/fatfs/source/ff.c:6324-6358 | byte by byte what mounting does not look at: media type, geometry, hidden sectors, drive number, extended signature, serial number, names and zeros |
| `FatBoot.WriteFsInfo` | apcpuos/os/fs/extern/fatfs/source/ff.c:6360-6371 | the FSINFO sector written is `FsInfo` |
| `FatBoot.FsInfoReads` | apcpuos/os/fs/extern/fatfs/source/ff.c:3588-3607 | the FSINFO sector is recognized and yields the number of free clusters and the last one taken; its other bytes are zero |
| `FatBoot.MountVolume` | apcpuos/os/fs/extern/fatfs/source/ff.c:3536-3607 | mounting by the fields of boot and FSINFO sector answers what `Mount` says |
| `FatBoot.MountIsSound` | apcpuos/os/fs/extern/fatfs/source/ff.c:3536-3585 | for any accepted boot sector the layout is sound exactly if the sectors in front of the data do not wrap around 32 bits; then every cluster lies in the volume |
| `FatMount.MountIs` | apcpuos/os/fs/extern/fatfs/source/ff.c:3536-3607 | a boot sector whose front part does not wrap around is mounted if and only if its fields, as numbers, make sense, and then type, clusters, cluster size, tables, root directory and free count found are just what they say |
| `FatBoot.WrappingMounts` | apcpuos/os/fs/extern/fatfs/source/ff.c:3536-3585 | a concrete boot sector whose front part wraps around 32 bits: it is accepted with an unsound layout |
| `FatBoot.MountsWhatWasFormatted` | apcpuos/os/fs/extern/fatfs/source/ff.c:3329-3345 | mounting the boot sector of a layout that fits succeeds exactly if it has a cluster, and recovers type, clusters, cluster size, FAT base and data base |
| `FatNewVolume.FormatVolume` | apcpuos/os/fs/extern/fatfs/source/ff.c:6324-6400 | the disk holds boot sectors, FSINFO, all FAT copies and an empty root directory, and is otherwise as before |
| `FatNewVolume.NewDiskIs` | apcpuos/os/fs/extern/fatfs/source/ff.c:6324-6400 | sector by sector: boot and FSINFO sector have copies in sectors 6 and 7 on FAT32, each table starts with its marks and is zero behind them, the root directory is zero, every other sector is as before |
| `FatNewVolume.Mkfs` | apcpuos/os/fs/extern/fatfs/source/ff.c:5941-6400 | nothing is written unless a layout was settled on; then the disk is that of `NewDisk` |
| `FatNewVolume.NewVolumeMounts` | apcpuos/os/fs/extern/fatfs/source/ff.c:6246-6400 | a new volume with a cluster mounts with the chosen layout, aligned and sound; both tables agree; the table is a set of chains with every cluster free but the FAT32 root directory; the free count found is exact or unknown |
| `FatNewVolume.NewRootEmpty` | apcpuos/os/fs/extern/fatfs/source/ff.c:6394-6400 | every sector of the new root directory is zero |
| `FatNewVolume.FormatThenMount` | apcpuos/os/fs/extern/fatfs/source/ff.c:3536-3585 | whatever was asked for, a successful format mounts exactly if a cluster fits behind the aligned front part of the drive |
| `FatNewVolume.LeavesCluster` | apcpuos/os/fs/extern/fatfs/source/ff.c:6246-6318 | a layout has a cluster exactly if one fits behind the front part, which ends at a boundary of the alignment |
| `FatNewVolume.NoClusterLeft` | apcpuos/os/fs/extern/fatfs/source/ff.c:6278-6291 | a concrete format that succeeds without leaving a cluster, so that its volume cannot be mounted |
| `Heap.InitialRoom` | libraries/stdc/stdc/detail/amalloc.c:323-354 | the size that initialisation insists on suffices exactly if it still does after the start was aligned |
| `Heap.InitialRoomCanFail` | libraries/stdc/stdc/detail/amalloc.c:323-354 | an unaligned start for which it does not |
| `Heap.Allocator.constructor` | libraries/stdc/stdc/detail/amalloc.c:323-354 | a heap of one free block, list and break in order |
| `Heap.Allocator.NodeFacts` | libraries/stdc/stdc/detail/amalloc.c:161-180 | header and capacity of each node as the list of blocks has them; every capacity is at least that of a smallest free node |
| `Heap.Allocator.AddNodeAfter` | libraries/stdc/stdc/detail/amalloc.c:185-192 | the list holds the new node behind the given one |
| `Heap.Allocator.RemoveNode` | libraries/stdc/stdc/detail/amalloc.c:197-205 | the list holds all nodes but that one, whose room goes to its predecessor |
| `Heap.Allocator.TryCoalesce` | libraries/stdc/stdc/detail/amalloc.c:247-255 | a free next node is merged, else nothing changes |
| `Heap.Allocator.FindFree` | libraries/stdc/stdc/detail/amalloc.c:233-242 | first fit once around from the cursor; 0 exactly says that no free node fits |
| `Heap.Allocator.ResizeAsUsed` | libraries/stdc/stdc/detail/amalloc.c:297-316 | the node is in use with its guards set, and room left over becomes a free node; its capacity is what `HeapSteps.ResizedTrimmed` says |
| `HeapSteps.ResizedTrimmed` | libraries/stdc/stdc/detail/amalloc.c:297-316 | a block put to use gives back what it does not need: with enough left over for a block it has exactly the aligned capacity and a free block behind it, else all the room |
| `Heap.Allocator.Grow` | libraries/stdc/stdc/detail/amalloc.c:372-414 | the break is raised to `Wanted` exactly if a break function grants it; then the last node, the old free last one or a new one at the old break, is free and large enough |
| `HeapSteps.WantedLeast` | libraries/stdc/stdc/detail/amalloc.c:372-390 | the break asked for is the least page boundary that leaves enough room, with a free last block or behind one in use |
| `Heap.Allocator.Malloc` | libraries/stdc/stdc/detail/amalloc.c:357-432 | NULL exactly if nothing was asked for or no free node fits and the break cannot grow, and then nothing changed; else a new aligned block in the first node from the cursor that fits, or at the end of the heap, trimmed to what it needs, the cursor behind it; all other blocks keep place and bytes; the break stays or is raised by whole pages |
| `Heap.Allocator.FreeNode` | libraries/stdc/stdc/detail/amalloc.c:438-456 | the node is free and merged with its free neighbours; all other blocks keep their bytes |
| `Heap.Allocator.ReleasePages` | libraries/stdc/stdc/detail/amalloc.c:458-466 | the break sinks to the smallest free last node that it leaves, not below its first value, and stays where the last block is in use or there is no break function |
| `Heap.Allocator.FreeImpl` | libraries/stdc/stdc/detail/amalloc.c:438-467 | exactly this block is gone, no two neighbouring nodes are free, the cursor stands at the free node around it, and the break is where `GaveBack` puts it |
| `Heap.Allocator.Free` | libraries/stdc/stdc/detail/amalloc.c:469-483 | exactly this block is gone; memory behind a free last node is given back down to the first break; the cursor stands at the free node around the block |
| `Heap.Allocator.GuardsIntact` | libraries/stdc/stdc/detail/amalloc.c:258-274 | the guards of every block in use are intact, so the corruption checks never fail |
| `Heap.Allocator.ResizeInPlace` | libraries/stdc/stdc/detail/amalloc.c:531-555 | resizing in place, or into a free next node, keeps the first bytes and every other block; the block is trimmed to what it needs |
| `Heap.Allocator.MergePrevious` | libraries/stdc/stdc/detail/amalloc.c:558-585 | merging with a free previous node keeps the first bytes although the move overlaps, and every other block; the block is trimmed to what it needs |
| `Heap.Allocator.MoveAway` | libraries/stdc/stdc/detail/amalloc.c:587-607 | a new block, placed and trimmed as by `Malloc`, with the first bytes of the old one; NULL leaves everything as it was |
| `Heap.Allocator.ReallocImpl` | libraries/stdc/stdc/detail/amalloc.c:524-608 | NULL exactly if the room with all free neighbours, every free node and the break are too small; else the first that is large enough of: its own room, a free next node, a free previous one, a new block; trimmed to what it needs |
| `Heap.Allocator.Realloc` | libraries/stdc/stdc/detail/amalloc.c:610-628 | all four ways, taken in this order, keep the first min(old, new) bytes and every other block and trim the block; the cursor is behind it; NULL leaves everything as it was |
| `Heap.Allocator.Calloc` | libraries/stdc/stdc/detail/amalloc.c:485-505 | a new block of zeros, placed and trimmed as by `Malloc`, or NULL under its conditions |
| `HeapBlocks.BlocksApart` | libraries/stdc/stdc/detail/amalloc.c:161-180 | blocks do not overlap |
| `HeapLinks.SpliceLinks` | libraries/stdc/stdc/detail/amalloc.c:185-192 | the stores of an insertion leave a circular list of exactly the old nodes and the new one |
| `HeapLinks.UnlinkLinks` | libraries/stdc/stdc/detail/amalloc.c:197-205 | the stores of a removal leave a circular list of exactly the other nodes |
| `HeapSteps.GrownRoom` | libraries/stdc/stdc/detail/amalloc.c:399 | a granted break always suffices; the strict check on it fails exactly if the break was page aligned as asked for |
| `HeapSteps.ExactGrowth` | libraries/stdc/stdc/detail/amalloc.c:399 | a concrete heap and request for which the strict check fails although the room suffices |
| `HeapSteps.RaisesByPages` | libraries/stdc/stdc/detail/amalloc.c:374-391 | whenever the break is raised, a page boundary above it is asked for |
| `HeapSteps.NothingLost` | libraries/stdc/stdc/detail/amalloc.c:640-674 | node headers and capacities add up to the size of the heap |
| `HeapRuns.RunRefines` | libraries/stdc/stdc/detail/amalloc.c:357-628 | in every run the heap is a map from pointers to byte sequences: new blocks are new pointers, a reallocation carries the first bytes over, nothing else changes |
| `HeapCalls.Perform` | libraries/stdc/stdc/detail/amalloc.c:357-628 | every call of `malloc`, `calloc`, `realloc` or `free`, and every write of the user into a block, changes nothing or is a step of the runs of `HeapRuns`; which of the two, the returned pointer says |
| `HeapCalls.NewHeapEmpty` | libraries/stdc/stdc/detail/amalloc.c:323-354 | a new heap is the empty map |
| `PageState.NoSharing` | apcpuos/os/kernel/mmu.c:394-423 | no two user entries hold the same page, and none holds a kernel page |
| `PageState.RollbackRestores` | apcpuos/os/kernel/mmu.c:276-295 | rolling a transaction back restores the page information exactly |
| `PageState.CommitSettles` | apcpuos/os/kernel/mmu.c:276-295 | committing gives exactly the tagged pages to the table, each to the entry that holds it |
| `PageState.SetPagesFails` | apcpuos/os/kernel/mmu.c:394-423 | setting a range fails only when no page is left; it leaves an entry with a page that will be taken back exactly if one was free at the start |
| `PageState.SetPagesOk` | apcpuos/os/kernel/mmu.c:394-423 | setting a range succeeds exactly if there are as many free user pages as entries of the range without a page |
| `Pages.Mmu.PpAlloc` | apcpuos/os/kernel/mmu.c:257-273 | the first free user page is tagged for this virtual page; 0 exactly if none is free |
| `Pages.Mmu.FinishTransaction` | apcpuos/os/kernel/mmu.c:276-295 | every tagged page goes to the table or becomes free, no other page changes, and no transaction is left |
| `Pages.Mmu.FreeTablePages` | apcpuos/os/kernel/mmu.c:304-317 | every page of the table becomes free, no other page changes, and the count is that of the pages it had |
| `Pages.Mmu.FreePageRange` | apcpuos/os/kernel/mmu.c:322-346 | every entry of the range that has a page loses page and keys and keeps its other bits, every other entry is as it was; just the pages behind the range are free now |
| `Pages.Mmu.SetUsrRange` | apcpuos/os/kernel/mmu.c:394-423 | the entries are set page by page, keeping pages that are there and tagging free ones; false at the first entry for which there is none |
| `Pages.Mmu.CreateUsrPT` | apcpuos/os/kernel/mmu.c:555-634 | the new table, refusal or halt that `Create` describes |
| `Pages.Mmu.DestroyPT` | apcpuos/os/kernel/mmu.c:636-647 | exactly the pages of the table become free |
| `Pages.Mmu.SetBrk` | apcpuos/os/process/process.c:371-401 | pages, table and break as the step of the model has them; released entries have no page and no keys, new ones a page and the user's key, all others are as they were |
| `PageEntries.SetBrkMoves` | apcpuos/os/process/process.c:371-401 | the same on values: which entries a move of the break changes, and to what, when it is granted and when it is not |
| `PageEntries.CreateRights` | apcpuos/os/kernel/mmu.c:555-634 | in a new table every entry with a page can be read and written by the user, every other one gives no access, and the guard page has none |
| `PageBreaks.SetBrkKeeps` | apcpuos/os/process/process.c:371-401 | a break is set exactly if it stays in the heap and there are as many free pages as it wants; pages and table entries still match exactly unless there are some free pages but too few; a refusal leaves all page information as it was |
| `PageBreaks.SetBrkMapped` | apcpuos/os/process/process.c:378-381 | every byte below the break stays mapped, except exactly when a successful raise starts at a page boundary without page and stays in its page |
| `PageBreaks.DestroyKeeps` | apcpuos/os/kernel/mmu.c:636-647 | destroying a table frees exactly its pages and keeps the match of all other tables |
| `PageTables.LayoutFits` | apcpuos/os/kernel/mmu.c:136-182 | heap, guard page, stack and shared data follow each other without overlap, are large enough and not a page larger, and there is a guard page exactly if there is a heap |
| `PageTables.CreateKeeps` | apcpuos/os/kernel/mmu.c:555-634 | a created table matches its pages, maps exactly the first heap page and the top of the stack with the shared data, has its break behind that heap page, and keeps the kernel entries; a refusal restores the page information |
| `PageRuns.StepSafe` | apcpuos/os/process/process.c:371-401 | creating and destroying tables and every request of an allocator keep, exactly unless it is a raise that finds some free pages but too few: pages match, the two breaks agree, every heap byte below the break is mapped |
| `PageRuns.RunSafe` | apcpuos/os/process/process.c:371-401 | the same for every run: it holds at all times if and only if no raise of the run finds some free pages but too few |
| `PageRuns.RunRights` | apcpuos/os/process/process.c:371-401 | throughout every run without such a raise no user entry without a page gives any access, and each with a page just the user's |
| `PageRuns.StartSafe` | apcpuos/os/kernel/mmu.c:495-542 | a kernel that has just started, without processes, satisfies what every run keeps |
| `PageRuns.LowerSucceeds` | libraries/stdc/stdc/detail/amalloc.c:460-465 | lowering the break is always granted, so the check of the allocator never fails |
| `PageRuns.HeapBytesOwned` | apcpuos/os/process/process.c:371-401 | every heap address below the break has a page owned by just this table entry; two addresses share a page exactly if they lie in one page of one process |
| `PageFailures.SpoiltTablesShare` | apcpuos/os/kernel/mmu.c:416-418 | a run from the start of the kernel: two processes are created, a raise of the first runs out of pages half-way, a raise of the second is granted, and the two tables refer to one physical page |
| `PageFailures.UnbackedGranted` | apcpuos/os/process/process.c:378-381 | in a state reached from the start of the kernel, a raise from a page boundary inside its page is granted and no page is behind it |
| `PageFailures.TwoReached` | apcpuos/os/process/process.c:371-401 | creating two processes one after the other leads from the start of the kernel to the safe state from which the second failure starts |
| `Mutex.MutualExclusion` | apcpuos/appsdk/app_process.c:294-345 | in every run, under any preemption and spurious wake-ups: at most one thread is between lock and unlock, the owner field names it, and outside lock and unlock the counter is its depth |
| `Mutex.OwnerUndisturbed` | apcpuos/appsdk/app_process.c:294-345 | no step of another thread changes owner, counter or depth of the owner |
| `Mutex.NonOwnerUnlock` | apcpuos/appsdk/app_process.c:329-335 | unlocking a mutex that is not owned changes nothing |
| `Mutex.RunRefines` | apcpuos/appsdk/app_process.c:294-345 | the acquisitions and releases of any run are those of a recursive lock |
| `Mutex.StepWakes` | apcpuos/appsdk/app_process.c:294-345 | a step loses a wake-up exactly if, with the mutex free and no other thread about to notify or try again, it goes to sleep or notifies without waking a sleeper |
| `Mutex.RunWakes` | apcpuos/appsdk/app_process.c:294-345 | in a run every sleeping thread can count on being woken, at all times, if and only if no step of it is one of these |
| `Mutex.StartWakes` | apcpuos/appsdk/app_process.c:294-345 | it holds at the start, with any number of threads |
| `Mutex.WakeUpCanBeLost` | apcpuos/appsdk/app_process.c:298-344 | a run from the start after which a thread sleeps although the mutex is free and nobody is about to notify it: the failed exchange and the waiting call are two steps |
| `KernelTimers.CmpIsTotal` | apcpuos/os/kernel/kernel.c:207-215 | the comparison of events is a total preorder |
| `KernelTimers.PlaceIsPlace` | apcpuos/os/kernel/kernel.c:207-240 | the place of a new event is the one that the binary search of the priority queue finds |
| `KernelTimers.PushInserts` | apcpuos/os/kernel/kernel.c:225-240 | pushing an event on the priority queue gives the queue of the model with the event in place |
| `KernelTimers.InsertOrder` | apcpuos/os/kernel/kernel.c:225-240 | an event stays behind those of the same time that were queued before it |
| `KernelTimers.RunsWhatIsDue` | apcpuos/os/kernel/kernel.c:246-259 | exactly the due events run, in order, and none is due afterwards |
| `KernelTimers.DueOrder` | apcpuos/os/kernel/kernel.c:246-259 | due events run in the order of their times, those of the same time in the order in which they were queued |
| `KernelTimers.NeverThrough` | apcpuos/os/kernel/kernel.c:246-259 | with a due repeating timer without interval the loop does not end: an event is still due after any number of rounds, as long as there is memory to queue it again |
| `KernelTimers.ZeroTimer` | apcpuos/os/process/process.c:344-369 | setting a timer brings the loop into this state exactly if it repeats and 31 bits of its interval are zero |
| `KernelKeeps.WakeupOk` | apcpuos/os/process/process.c:269-278 | waking a user thread keeps all kernel invariants |
| `KernelKeeps.PostOk` | apcpuos/os/process/process.c:417-442 | posting a message keeps all kernel invariants, also when it finds no room and is dropped: no thread stays blocked for a message that it has |
| `KernelKeeps.AddTimerOk` | apcpuos/os/process/process.c:344-369 | setting a timer keeps all kernel invariants, the limit of ten included, whether the event could be queued or not |
| `KernelKeeps.TimerDueOk` | apcpuos/os/process/process.c:280-299 | a due timer keeps all kernel invariants, also when its message or its next event finds no room: its process is charged for at least its pending timers |
| `KernelKeeps.GetMsgOk` | apcpuos/os/syscalls/syscalls.c:198-233 | asking for a message keeps all kernel invariants |
| `KernelKeeps.WakeOneOk` | apcpuos/os/process/process.c:333-342 | waking the first thread that seems to wait keeps all kernel invariants although its wait type is not looked at |
| `KernelTree.DestroyProcessOk` | apcpuos/os/process/process.c:220-243 | destroying a process leaves none of its threads and handles and keeps all kernel invariants |
| `KernelTree.CloseOk` | apcpuos/os/kernel/handles.c:113-148 | closing a handle, also that of the current thread or process, keeps all kernel invariants and leaves no thread that it destroyed |
| `KernelTree.NewThreadOk` | apcpuos/os/process/process.c:17-80 | a new thread keeps all kernel invariants |
| `KernelTree.NewProcessOk` | apcpuos/os/process/process.c:126-213 | a new process with its main thread keeps all kernel invariants |
| `KernelRuns.StepOk` | apcpuos/os/syscalls/syscalls.c:43-269 | every system call and tick keeps all kernel invariants |
| `KernelEffects.StepMeans` | apcpuos/os/syscalls/syscalls.c:43-269 | every enabled call and tick does what `Effect` says of threads, queues, handles and the clock, without the functions of the step: who is blocked, woken, made or gone, what is posted, which event is due when |
| `KernelEffects.CloseIs` | apcpuos/os/syscalls/syscalls.c:140-156 | closing a handle ends just the thread that goes with it, or, for a main thread, its process with all threads and handles; all others are as they were, with their messages and events |
| `KernelRuns.RunSane` | apcpuos/os/kernel/kernel.c:90-137 | from the start of the kernel on, in every run: a user thread is ready exactly if it is in the ready queue, once; the current thread is the idle one or in the queue; no event and no handle refers to a destroyed thread; a thread blocked for a message has none; pending timers are within their charge and that within ten |
| `KernelRuns.TickRunsDue` | apcpuos/os/kernel/kernel.c:57-64 | a tick runs exactly the due events, in the order of their times and, for the same time, in the order in which they were queued, and leaves none |
| `KernelRuns.RunDelivers` | apcpuos/os/process/process.c:417-442 | in every run a thread receives, and still has in its queue, exactly the posts whose push succeeded, in posting order |
| `KernelRuns.RunDeliversAll` | apcpuos/os/process/process.c:417-442 | that is everything posted to it if and only if no post found its queue full without memory to grow |
| `KernelWakes.SleepWakes` | apcpuos/os/process/process.c:306-320 | going to sleep blocks the thread in any case; it has an event to wake up by exactly if that could be queued or an earlier one is still there |
| `KernelWakes.StepWakes` | apcpuos/os/syscalls/syscalls.c:43-269 | a step leaves a sleeping thread without an event exactly if it is a sleep whose event finds no room and no earlier one is queued |
| `KernelWakes.RunWakes` | apcpuos/os/process/process.c:306-320 | in a run every sleeping thread has an event to wake up by, at all times, if and only if no such sleep happens |
| `KernelWakes.StepMoves` | apcpuos/os/process/process.c:344-369 | a step leaves a repeating timer without interval exactly if it sets one |
| `KernelWakes.RunMoves` | apcpuos/os/process/process.c:344-369 | in a run every repeating timer has an interval, at all times, if and only if none is set without one |
| `KernelClock.StepSleeps` | apcpuos/os/process/process.c:306-320 | a step lets a sleeping thread sleep on with the same events, unless it is a tick not earlier than one of its wake-ups or takes the thread for one that waits for a mutex; such a tick wakes it |
| `KernelClock.SleepEnds` | apcpuos/os/process/process.c:306-320 | in every run a sleep of x milliseconds, read as a signed number, lasts until the first tick not earlier than its start plus x / 1000 seconds, and ends with it, unless the thread is destroyed or taken for one that waits for a mutex |
| `KernelClock.EventHappens` | apcpuos/os/kernel/kernel.c:246-259 | in a tick every event that is due is taken out as the last one at some moment and happens, and one that is not due stays |
| `KernelClock.TimerGoesOff` | apcpuos/os/process/process.c:280-369 | in every run a timer of x milliseconds, of which 31 bits count, goes off in the first tick not earlier than its start plus x / 1000 seconds and stays queued until then, unless its thread is destroyed; a repeating one is set again for as long |
| `KernelWakes.MovesTick` | apcpuos/os/kernel/kernel.c:246-259 | then a tick gets through with what is due, at whatever time |
| `KernelWakes.ZeroNeverThrough` | apcpuos/os/process/process.c:344-369 | after a call that sets one the loop over due events does not end |
| `KernelWakes.UserRunsReached` | apcpuos/os/process/process.c:126-213 | a run from the start of the kernel to a state in which a user thread runs |
| `KernelWakes.MessageLost` | apcpuos/os/syscalls/syscalls.c:255-256 | there the thread posts to itself, is told that this worked, and the message is lost |
| `KernelWakes.WakeLost` | apcpuos/os/process/process.c:317-319 | there the thread goes to sleep without an event to wake up by |
| `KernelWakes.ZeroCanBeSet` | apcpuos/os/syscalls/syscalls.c:260-269 | there the thread sets a timer that the kernel does not get through with |
| `Kernel.Krn.constructor` | apcpuos/os/kernel/kernel.c:90-137 | the kernel starts with the idle thread, its ring buffers and its priority queue in order |
| `Kernel.Krn.TcbEnqueue` | apcpuos/os/process/process.c:403-415 | the ring buffer holds the thread once or not at all, as its queue field says, at the end and with all others in their order |
| `Kernel.Krn.PickNextTcb` | apcpuos/os/kernel/kernel.c:37-52 | the first thread in the ring buffer runs and goes to its end, which needs no memory; with an empty one the idle thread runs; what was in order up to the current thread is in order again |
| `Kernel.Krn.WakeupThread` | apcpuos/os/process/process.c:269-278 | the thread is ready, waits for nothing and is at the end of the ring buffer, and all kernel invariants are kept |
| `Kernel.Krn.AddTimedEvent` | apcpuos/os/kernel/kernel.c:225-240 | the binary search of the priority queue puts the event behind all that come before it, those of the same time included, and in front of all others; false and nothing changed exactly without room and memory |
| `Kernel.Krn.PutThreadToSleep` | apcpuos/os/process/process.c:306-320 | the thread is blocked and out of the ring buffer, and its wake-up event in the priority queue exactly if there was room or memory |
| `Kernel.Krn.PutThreadToWait` | apcpuos/os/process/process.c:322-331 | the thread is blocked for the mutex and out of the ring buffer, whose order holds |
| `Kernel.Krn.WakeOneWaitingThread` | apcpuos/os/process/process.c:333-342 | the first thread of the list that is blocked with this wait data is ready and at the end of the ring buffer, everything else as before; without one nothing changes |
| `Kernel.Krn.PostThreadMsg` | apcpuos/os/process/process.c:417-442 | the message is at the end of the ring buffer of the thread, all other buffers are as before, and it wakes the thread if that is blocked for one; false and dropped exactly without room and memory |
| `Kernel.Krn.AddThreadTimer` | apcpuos/os/process/process.c:344-369 | a timer is queued and charged exactly below ten timers and with room or memory |
| `Kernel.Krn.ThreadTimerDue` | apcpuos/os/process/process.c:280-299 | the process is charged for as many timers more or less as the queue has gained or lost; the message is posted or dropped; a repeating timer that finds no room is gone |
| `Kernel.Krn.CheckTimedEvents` | apcpuos/os/kernel/kernel.c:246-259 | the loop over the priority queue ends, has run every due event once, and does what `CheckEvents` says |
| `Kernel.Krn.TaskScheduler` | apcpuos/os/kernel/kernel.c:57-64 | a tick runs one due event after the other until none is due, then the next thread; it is the step of the model and keeps all kernel invariants |
| `Kernel.Krn.HandlesCreate` | apcpuos/os/kernel/handles.c:70-93 | the first free slot from 1 on is filled; 0 exactly when there is none |
| `Kernel.Krn.DestroyTcbImpl` | apcpuos/os/process/process.c:102-124 | nothing refers to the thread any more: it is in no list or queue, has no event and no message queue; the other threads and their messages are as they were |
| `Kernel.Krn.HandlesDestroyImpl` | apcpuos/os/kernel/handles.c:113-125 | the slot is reset and its thread, or with the main thread the process, destroyed; the recursion through process and handles ends |
| `Kernel.Krn.DestroyPcbImpl` | apcpuos/os/process/process.c:220-243 | main thread, then all handles, then the process are gone |
| `Kernel.Krn.DestroyPrcHandles` | apcpuos/os/kernel/handles.c:140-148 | every handle of the process is destroyed |
| `Kernel.Krn.CloseHandle` | apcpuos/os/kernel/handles.c:128-138 | true exactly for a handle of the own process; then its slot is empty, just the threads and handles that go with it are gone and all others are as they were; else nothing has changed; keeps all kernel invariants |
| `Kernel.Krn.CreateTcb` | apcpuos/os/process/process.c:17-80 | thread, handle and queue entry are made together or not at all |
| `Kernel.Krn.CreatePcb` | apcpuos/os/process/process.c:126-213 | the answer is the handle, in the first free slot, of the new main thread, which is ready at the end of the queue, or 0 and nothing has changed, without memory or a free slot; keeps all kernel invariants |
| `Kernel.Krn.HandlesGetData` | apcpuos/os/kernel/handles.c:150-161 | a thread handle of the own process leads to just the thread of this process that has it, and 0 says that none has |
| `Kernel.ThreadTarget` | apcpuos/os/kernel/handles.c:150-161 | the same on states: a handle names a thread of the process if and only if that thread has it |
| `Kernel.Krn.SysSleep` | apcpuos/os/syscalls/syscalls.c:43-51 | the thread is blocked and another one runs; its wake-up is queued for now plus the milliseconds, as a signed number, divided by 1000, unless it finds no room; keeps all kernel invariants |
| `Kernel.Krn.SysWaitForMutex` | apcpuos/os/syscalls/syscalls.c:170-183 | with a mutex handle of the own process the thread is blocked for it and another one runs, else nothing happens; keeps all kernel invariants |
| `Kernel.Krn.SysMutexUnlocked` | apcpuos/os/syscalls/syscalls.c:185-196 | with a mutex handle of the own process the first listed thread that is blocked with it as wait data wakes, and nothing else changes; without such a thread or handle nothing happens; keeps all kernel invariants |
| `Kernel.Krn.SysGetMsg` | apcpuos/os/syscalls/syscalls.c:198-233 | the first message, which is taken out of the queue, or none and, if it wants to wait, blocked; keeps all kernel invariants |
| `Kernel.Krn.SysPostMsg` | apcpuos/os/syscalls/syscalls.c:235-258 | true exactly if a thread of the own process has this handle, also when its message was dropped; the message is the last of that thread and wakes it if it waits for one; keeps all kernel invariants |
| `Kernel.Krn.SysSetTimer` | apcpuos/os/syscalls/syscalls.c:260-269 | true exactly if a timer was queued and charged; it is due after the milliseconds, of which 31 bits count, divided by 1000; else nothing has changed; keeps all kernel invariants |
| `Kernel.Krn.SysCreateMutex` | apcpuos/os/syscalls/syscalls.c:158-168 | the answer is the first free slot, a mutex handle of the own process now, or 0 and no slot is free; nothing else changes; keeps all kernel invariants |
| `Kernel.Krn.SysCreateThread` | apcpuos/os/syscalls/syscalls.c:53-91 | the answer is the handle, in the first free slot, of the new thread of this process, which is ready at the end of the queue, or 0 and nothing has changed, without memory or a free slot; keeps all kernel invariants |
| `RoundRobin.BoundedWait` | apcpuos/os/kernel/kernel.c:37-52 | in every run of calls and ticks a thread at index i of the ready queue has been the current one when the kernel has picked i + 1 times, whatever other threads come, go, wake or are destroyed |
| `RoundRobin.StepWithin` | apcpuos/os/kernel/kernel.c:37-52 | a step in which the kernel picks makes a ready thread the current one or brings it a place closer; no other step takes it further back |
| `RingQueue.Ring.Reserve` | libraries/utils/utils/queue32.c:32-69 | growing keeps the contents, also when they wrap around; without memory nothing changes |
| `RingQueue.Ring.Push` | libraries/utils/utils/queue.c:72-93 | the element is appended; a full buffer, and only that, grows to twice its size; false and nothing changed exactly without room and memory; a buffer of one slot stays empty |
| `RingQueue.Ring.Pop` | libraries/utils/utils/queue.c:95-105 | the first element is taken out, false exactly on an empty queue |
| `RingQueue.Ring.Peek` | libraries/utils/utils/queue.c:107-113 | the first element, false exactly on an empty queue |
| `RingQueue.Ring.Clear` | libraries/utils/utils/queue32.c:103-106 | the queue is empty |
| `RingQueue.Ring.GetAt` | libraries/utils/utils/queue32.c:130-134 | the element at an index of the contents |
| `RingQueue.Ring.Size` | libraries/utils/utils/queue32.c:24-30 | the number of elements, wrapped or not |
| `RingQueue.Ring.Remove` | libraries/utils/utils/queue32.c:108-128 | exactly the elements that satisfy the test are gone, the others keep their order, and the count is right |
| `PrioQueue.OnePlace` | libraries/utils/utils/priorityqueue.c:28-45 | the place of a new element is unique |
| `PrioQueue.InsertedSorted` | libraries/utils/utils/priorityqueue.c:20-63 | inserting at its place keeps the order |
| `PrioQueue.InsertedRanked` | libraries/utils/utils/priorityqueue.c:20-63 | equal elements leave the queue in the order in which they came |
| `PrioQueue.PQueue.Find` | libraries/utils/utils/priorityqueue.c:28-45 | binary search finds the place behind all smaller and in front of all equal or larger elements |
| `PrioQueue.PQueue.Push` | libraries/utils/utils/priorityqueue.c:20-63 | the element is inserted at its place; a full buffer, and only that, grows to twice its size, the first time to 16; without memory to grow nothing changes |
| `PrioQueue.PQueue.Pop` | libraries/utils/utils/priorityqueue.c:73-76 | the last element, which comes first, is taken out |
| `PrioQueue.PQueue.Remove` | libraries/utils/utils/priorityqueue.c:78-101 | exactly the elements that satisfy the test are gone, the others keep their order |
| `Qsort.Med3IsMedian` | libraries/stdc/stdc/extern/apple/qsort.c:114-120 | the element chosen is one of the three and lies between the other two |
| `Qsort.InsertionSort` | libraries/stdc/stdc/extern/apple/qsort.c:137-143 | the stretch is a sorted permutation of what it was |
| `Qsort.ScanUp` | libraries/stdc/stdc/extern/apple/qsort.c:161-168 | the scan keeps the stretch split around the pivot, equal elements at the front |
| `Qsort.ScanDown` | libraries/stdc/stdc/extern/apple/qsort.c:169-176 | the scan keeps the stretch split around the pivot, equal elements at the back |
| `Qsort.Partition` | libraries/stdc/stdc/extern/apple/qsort.c:156-183 | the stretch is a permutation split into equal, smaller, larger and equal elements; if it says that nothing was swapped, the array is as before |
| `Qsort.Gather` | libraries/stdc/stdc/extern/apple/qsort.c:192-196 | smaller elements first, then all equal to the pivot, then larger ones |
| `Qsort.Round` | libraries/stdc/stdc/extern/apple/qsort.c:135-204 | one turn of the outer loop sorts all but a rest, in front of which everything comes |
| `Qsort.Qsort` | libraries/stdc/stdc/extern/apple/qsort.c:122-206 | for every length and every total preorder the stretch is a sorted permutation and nothing else is touched; it terminates |
| `Numbers.DigitsValue` | libraries/stdc/stdc/stdlib.c:18-25 | the digits of a number stand for that number in every base |
| `Numbers.FewDigits` | libraries/stdc/stdc/stdlib.c:6-25 | a number below 2^n has at most n digits in any base |
| `Numbers.DigitsBackwards` | libraries/stdc/stdc/stdlib.c:18-25 | the digits are collected last first, and 32 places always suffice |
| `Numbers.DigitsLower` | libraries/stdc/stdc/stdlib.c:18-25 | digits above nine are lower-case letters |
| `Numbers.DigitsHead` | libraries/stdc/stdc/stdlib.c:18-25 | no zero stands in front of a number |
| `Numbers.Itoa` | libraries/stdc/stdc/stdlib.c:4-36 | the text of the value, in digits and lower-case letters without a zero in front, with its terminator; everything behind that is as before |
| `Numbers.ReadDigits` | libraries/stdc/stdc/extern/apple/strol.c:168-187 | the digits found are summed up exactly unless their value exceeds the limit, which is noticed exactly then |
| `Numbers.Scan` | libraries/stdc/stdc/extern/apple/strol.c:129-149 | white space, sign and base prefix are skipped as `Parse` says, without reading behind the terminator |
| `Numbers.Strtol` | libraries/stdc/stdc/extern/apple/strol.c:112-196 | the value of the digits with its sign, clamped to a long, and where parsing stopped |
| `Numbers.Strtoul` | libraries/stdc/stdc/extern/apple/strol.c:204-267 | the value of the digits, its negation modulo 2^32, or the largest value, and where parsing stopped |
| `Numbers.SignedDigitsClamped` | libraries/stdc/stdc/extern/apple/strol.c:112-196 | on white space, sign and digits without prefix the result is the mathematical value clamped to the range of a long |
| `Numbers.SignedDigitsWrapped` | libraries/stdc/stdc/extern/apple/strol.c:204-267 | on such text `strtoul` answers the value, with a minus its negation modulo 2^32, and the largest value if it does not fit |
| `Numbers.PrefixedDigits` | libraries/stdc/stdc/extern/apple/strol.c:129-149 | "0x" where base 16 is allowed and "0b" where base 2 is are skipped, and exactly the digits behind them are found |
| `Numbers.Characters` | libraries/stdc/stdc/extern/apple/strol.c:89-180 | which characters are white space, and which are digits of what value, in both cases of letters |
| `Numbers.StrtolInvertsItoa` | libraries/stdc/stdc/stdlib.c:4-36 | `strtol` reads back what `itoa` printed exactly for base 10 and for values that are not negative, and stops at the terminator |
| `Numbers.StrtoulInvertsItoa` | libraries/stdc/stdc/stdlib.c:4-36 | `strtoul` reads back what `itoa` printed modulo 2^32 in every base, and stops at the terminator |
| `Numbers.BarePrefix` | libraries/stdc/stdc/extern/apple/strol.c:137-147 | "0x" without a digit behind it yields no digits, not even the zero in front: the case that `AnswersStandard` leaves out |
| `Numbers.AnswersStandard` | libraries/stdc/stdc/extern/apple/strol.c:112-267 | value and end of `strtol` and `strtoul` are those of section 7.20.1.4 of C99 if and only if the text behind white space and sign is neither a bare "0x" nor begins with "0b", where the base allows these |

## Left out

- FatBoot.MountVolume: only a volume that starts at sector 0 of its drive; the search for partitions is not modelled.
- FatNewVolume.Mkfs: only volumes without a partition table (`FM_SFD`), without disk errors; the time-dependent serial number is a parameter.
- Kernel.Krn.SysGetMsg: the message is a result; copying it to user memory and the checks of user pointers are not modelled.
- Kernel.Krn.CheckTimedEvents: not for states with a due repeating timer without interval, where the loop does not end (`KernelTimers.NeverThrough`).
- Kernel.Krn.TaskScheduler: the same.
- Kernel.Krn.TcbEnqueue: a ready queue that cannot grow for lack of memory is not modelled.
- Pages.Mmu.CreateUsrPT: the kernel's entries of a new table are a parameter; lack of memory for the table is a flag.
- Mutex.MutualExclusion: at most 2^32 - 1 nested locks of one thread; beyond that the counter wraps around.
- Mutex.RunWakes: says who can count on being woken, not that the scheduler runs every thread again.
- Heap.Allocator.Malloc: the assertion behind a raised break (`amalloc.c`, line 399), which debug builds check and which can fail (`HeapSteps.GrownRoom`, `HeapSteps.ExactGrowth`), is not part of it; it goes on as a release build does.
- FatOpenFiles.OpenFile: first cluster and size of the file, which its directory entry holds, are parameters; a file opened for appending stands at its start until it is moved.
- Qsort.Qsort: elements are swapped as a whole; the choice between word and byte copies is not modelled.
- Disk errors, the abort flag of a file, time stamps, and directories with everything that names, creates, opens or closes files.
- Writing the FSINFO sector back while a volume is in use (`sync_fs`).
- Caller's buffers of `f_read` and `f_write`, which are values here.
- Heap requests so large that the break would pass 2^32, the fill patterns of debug builds, and allocation tracking.
- The contents of physical pages, accessed and dirty bits, the kernel's own page table, and IO memory.
- Stale handles (the kernel does not look at their counter), thread-local storage, switching of page tables and registers.
- File handles as a kernel resource: their slots are modelled, closing the file behind them is not.
- Which bytes of the disk a seek behind the end uncovers, and what becomes of a file whose seek was misled.
- Allocator and page tables as objects that call each other: they meet on the values of the break, in `PageRuns`.
- Rounding of event times.
- Coroutines, bit operations, hashing, strings, printing of floating-point numbers, and dynamic arrays other than the priority queue's: smaller versions of the same proofs.
