# X OS: proofs about the socket layer, the mbuf code and the image formatter

X OS runs FreeBSD's socket layer on its own kernel. This project models the parts of it that are hardest to
get right, and the formatter that writes its file system images, and proves what they keep.

* **XFS images** (`tools/xfs_mkfs.c`; `Xfs*.dfy`). An image is an array of blocks. Every operation is proved
  against the tree that a reader of the raw blocks sees: formatting gives an empty root, `xfs_mkdir` and
  `xfs_write_file` add or set exactly one path or report failure, and they fail exactly when the disk, the
  parent or the record has no room. Path strings are arbitrary: which components the search takes from a
  string, and which entry creation makes of it, are both specified, and they differ for some strings. Exactly
  then a directory can get a second entry of a name.
* **Socket splicing** (`bsd/kern/uipc_socket.c`, `bsd/kern/uipc_sockbuf.c`; `Splice*.dfy`). Any number of
  threads, sockets, splices and work queues, as interleaved steps between lock operations. One transfer ticket
  per splice, no failed assertion, no lost wakeup, everything reclaimed once. Two things go wrong in some runs:
  a worker can wait for itself, and a splice can carry more than its limit. For both, exactly when.
* **Task queues** (`bsd/kern/subr_taskqueue.c`; `Task*.dfy`). The queue with its insertion hint, and all runs of
  enqueue, cancel, run, timeouts and drains. Enqueues are conserved, the hint is only a cache, and a drain waits
  for what it should, except where 32-bit arithmetic misleads it.
* **Stream socket buffers** (`Sockbuf*.dfy`). The mbuf chain with its counters, not-ready marks and send
  pointer, as a byte queue: append, cut, flush, ready, the send pointer, and a whole `soreceive_stream` call,
  during which the protocol may append whenever the buffer is unlocked.
* **Record socket buffers** (`Record*.dfy`). The same buffer as a list of records on mbufs that share clusters.
* **Mbufs** (`bsd/kern/uipc_mbuf.c`, `bsd/kern/uipc_mbuf2.c`; `Mbuf*.dfy`). Split, concatenate, pull up, pull
  down, collapse, unshare, defragment and append on a memory in which clusters are shared and counted; and the
  protocol of the reference count that is embedded in one of the headers.
* **Callouts** (`bsd/compat/compat_shims.c`; `Callout*.dfy`). The linked list, with callbacks that edit it while
  it is being scanned.
* **Listen queues** (`bsd/kern/uipc_socket.c`; `Listen*.dfy`). The two queues of a listening socket, its
  counters and references, under concurrent adding, eviction, completion, acceptance and closing.

`Basics.dfy` holds the few notions that several of them share.

## Model

| member | source | states |
|---|---|---|
| `XfsImage.Image.Format` | tools/xfs_mkfs.c:389-433 | a fresh image is valid; a reader finds an empty root directory and nothing else; names are unique; the superblock has the right counts |
| `XfsImage.Image.Mkdir` | tools/xfs_mkfs.c:169-253 | for every non-empty string whose way does not lead through a regular file: one that leads somewhere is success without change; otherwise success adds the directory at the string's target and leaves every other path alone, failure changes no path, and it succeeds exactly when there is a name, a parent and room; where the target is there already, success changes no path; names stay unique exactly unless such a success makes a second entry |
| `XfsImage.Image.WriteFile` | tools/xfs_mkfs.c:257-385 | for every non-empty string whose way does not lead through a regular file: success leaves exactly the given bytes at the path and every other path alone; failure leaves every existing path alone and at most a new, empty file; it succeeds exactly when names, records and disk have room; where the string is shadowed neither changes any path, and names stay unique exactly unless a second entry is made; over a directory the bytes, if any, replace its entries, and what is not below it stays |
| `XfsImage.Image.ResolvePath` | tools/xfs_mkfs.c:126-165 | for every string on whose way the records can be read: the loop over the characters and the raw blocks goes to the block that the string's components denote, files on the way being taken for directories |
| `XfsImage.RawIs` | tools/xfs_mkfs.c:126-165 | where the way leads through directories only, that is what the path leads to |
| `XfsImage.Image.BlocksApart` | tools/xfs_mkfs.c:98-107 | in a valid image a block of the data area belongs to one path and one place in it, and is marked in the bitmap |
| `XfsImage.Image.StoreFreeCount` | tools/xfs_mkfs.c:527-535 | in every valid image, so after any operations, the recount finds the blocks in use, stores the free count in a superblock whose other fields are right, and changes no path and no name |
| `XfsImage.Image.MarkReserved` | tools/xfs_mkfs.c:416-418 | exactly the blocks in front of the allocation cursor are marked |
| `XfsImage.Image.BitmapSet` | tools/xfs_mkfs.c:80-88 | the read-modify-write of the bitmap block sets that one mark |
| `XfsImage.Image.BitmapGet` | tools/xfs_mkfs.c:90-96 | reads the mark |
| `XfsImage.Image.AllocBlock` | tools/xfs_mkfs.c:98-107 | the first unmarked block from the cursor on, now marked, or 0 when all are marked |
| `XfsImage.Image.AllocNext` | tools/xfs_mkfs.c:98-107 | in a valid image that is the cursor itself; 0 means every block of the disk is in use; the tree is untouched |
| `XfsImage.Image.FindInSector` | tools/xfs_mkfs.c:149-156 | the scan of one directory block is the lookup of the name in it |
| `XfsImage.Image.FindDirent` | tools/xfs_mkfs.c:142-157 | the scan of all blocks of a directory is the lookup in their concatenation |
| `XfsImage.Image.ReadComponent` | tools/xfs_mkfs.c:136-138 | the bytes up to the next slash, and at most 63 of them, are the component |
| `XfsImage.Image.FindFreeInSector` | tools/xfs_mkfs.c:224-234 | finds the first free slot of a block exactly if there is one |
| `XfsImage.Image.FindFreeSlot` | tools/xfs_mkfs.c:218-235 | finds the first free slot exactly if one of the directory's blocks has one; all in front of it are taken |
| `XfsImage.Image.AddDirent` | tools/xfs_mkfs.c:214-251 | the entry goes into the first free slot, or into a new block that the directory gains; it fails, changing nothing, exactly when there is neither |
| `XfsImage.Image.LastSlash` | tools/xfs_mkfs.c:174-175 | the last slash of the string, or its start |
| `XfsImage.Image.ResolveParent` | tools/xfs_mkfs.c:174-194 | the directory a new entry goes into, looked up in a buffer of 512 bytes, and the entry's name |
| `XfsImage.Image.InitChild` | tools/xfs_mkfs.c:201-212 | a new inode with one zeroed block is a well-formed empty node |
| `XfsImage.Image.EnterChild` | tools/xfs_mkfs.c:214-251 | entering a prepared node makes exactly one new path, or, if the name is taken, changes nothing that a reader sees |
| `XfsImage.Image.CreateEntry` | tools/xfs_mkfs.c:169-253 | creates exactly the target or changes no path, exactly when there is room, at the stated cost in blocks; no inode is lost exactly unless the target was there |
| `XfsImage.Image.GrowFile` | tools/xfs_mkfs.c:352-361 | allocates the missing blocks, or fails exactly when the disk is too small |
| `XfsImage.Image.WriteData` | tools/xfs_mkfs.c:363-380 | the blocks hold the bytes; other blocks are as they were |
| `XfsImage.Image.FillFile` | tools/xfs_mkfs.c:344-384 | a file gets the bytes exactly when there is room; otherwise nothing changes for a reader |
| `XfsImage.Image.StoreFile` | tools/xfs_mkfs.c:363-384 | after the copy and the new record the path denotes the file with the bytes and no other path changed; a file that no path leads to stays so; a directory is overwritten |
| `XfsImage.Image.StoreRecord` | tools/xfs_mkfs.c:363-384 | the blocks hold the bytes and the record says so; nothing else in the data area changed |
| `XfsImage.Image.PlainNotShadowed` | tools/xfs_mkfs.c:169-194 | a string of well-formed components whose parent fits the buffer is never shadowed |
| `XfsImage.Image.DoubledSlashShadowed` | tools/xfs_mkfs.c:126-165 | where something is at p/n, the string p//n names nothing and yet creates p/n, in every image |
| `XfsImage.Image.LongNameShadowed` | tools/xfs_mkfs.c:136-164 | a name of more than 63 bytes whose first 63 name something is shadowed exactly when its pieces lead nowhere |
| `XfsImage.ZerosLoseAll` | tools/xfs_mkfs.c:363-384 | a directory overwritten with zeros has no entries |
| `XfsCodec.LeRoundTrip` | tools/xfs_mkfs.c:29-55 | little-endian fields read back |
| `XfsCodec.PadRoundTrip` | tools/xfs_mkfs.c:40-55 | a name padded with NULs reads back |
| `XfsCodec.InodeRoundTrip` | tools/xfs_mkfs.c:111-122 | the inode record laid over the front of a block reads back in every field |
| `XfsCodec.DecodedFits` | tools/xfs_mkfs.c:111-122 | a record that was read fits the field widths it is written with |
| `XfsCodec.PutDentRoundTrip` | tools/xfs_mkfs.c:225-230 | an entry reads back its name, inode, size and flags, and every other entry of the block is as it was |
| `XfsCodec.WithBitEffect` | tools/xfs_mkfs.c:80-88 | setting a bit of a block changes that bit only |
| `XfsTree.FindInDirIsMap` | tools/xfs_mkfs.c:142-157 | looking a name up in a directory's blocks is looking it up in its entries |
| `XfsTree.PathInoIsWalk` | tools/xfs_mkfs.c:126-165 | the inode that the raw blocks give for a path is where the tree leads |
| `XfsTree.PathsApart` | tools/xfs_mkfs.c:98-107 | on the disk, the blocks of two paths are all different, unless the paths are the same |
| `XfsNames.OnceIsNoneLost` | tools/xfs_mkfs.c:218-251 | the names in a directory's raw blocks are unique exactly if it has no entry that is never found |
| `XfsNames.UniqueIs` | tools/xfs_mkfs.c:142-157 | the names in all directories that paths lead to are unique exactly if the tree has no lost inode |
| `XfsNames.NamedOnce` | tools/xfs_mkfs.c:142-157 | in every valid image, whatever a path leads to has exactly one entry in all directories of the tree: the path's last name, where the rest of the path leads |
| `XfsBitmap.SetMarkEffect` | tools/xfs_mkfs.c:80-96 | setting a block's mark changes the answer for that block and no other |
| `XfsBitmap.MarkNext` | tools/xfs_mkfs.c:98-107 | marking the cursor's block keeps the bitmap exact and the data area as it was |
| `XfsBitmap.ExactFrame` | tools/xfs_mkfs.c:80-96 | writes outside the bitmap keep it exact |
| `XfsPath.ComponentsOfString` | tools/xfs_mkfs.c:134-164 | a path written out as a string, with or without a trailing slash, has that path's components |
| `XfsPath.TargetOfString` | tools/xfs_mkfs.c:174-195 | for such a string without a trailing slash the entry created is the one looked for |
| `XfsPath.DoubledSlash` | tools/xfs_mkfs.c:134-164 | with a doubled slash they differ: the components have an empty name among them, the target does not |
| `XfsPath.LongName` | tools/xfs_mkfs.c:136-164 | with a name of more than 63 bytes they differ: it is looked for in pieces, and created cut off |
| `XfsLink.LinkBySlot` | tools/xfs_mkfs.c:218-235 | an entry put into a free slot links the new node into the tree |
| `XfsLink.LinkByBlock` | tools/xfs_mkfs.c:236-251 | an entry in a new block of the directory does too |
| `XfsLink.ShadowBySlot` | tools/xfs_mkfs.c:218-235 | an entry whose name is in the directory already, in a free slot, leaves the tree as it was |
| `XfsLink.ShadowByBlock` | tools/xfs_mkfs.c:236-251 | in a new block too |
| `XfsChange.LinkRepresents` | tools/xfs_mkfs.c:214-251 | linking keeps the correspondence of blocks and tree |
| `XfsChange.WalkAfterLink` | tools/xfs_mkfs.c:214-251 | a linked node has exactly one path; every other path leads where it led |
| `XfsChange.LookupAfterLink` | tools/xfs_mkfs.c:214-251 | so a reader sees one new entry and nothing else new |
| `XfsChange.LookupWidened` | tools/xfs_mkfs.c:236-251 | no reader notices a block that a directory gains for an entry that is never found |
| `XfsChange.SetFileRepresents` | tools/xfs_mkfs.c:344-384 | rewriting a file keeps the correspondence of blocks and tree |
| `XfsChange.LookupAfterSetFile` | tools/xfs_mkfs.c:344-384 | a reader sees the new bytes at the file's path and no other change |
| `XfsImage.ChunkStored` | tools/xfs_mkfs.c:363-380 | one copied block extends the prefix of the data that is stored |
| `XfsImage.AllStored` | tools/xfs_mkfs.c:363-380 | when every byte is in place the blocks store the data |
| `SpliceSteps.SafeStep` | bsd/kern/uipc_socket.c:380-439 | every enabled step of every thread keeps the invariant |
| `SpliceSteps.SafeRun` | bsd/kern/uipc_socket.c:380-439 | every state of every run satisfies the invariant |
| `SpliceTheorems.OneTicket` | bsd/kern/uipc_socket.c:380-439 | in every run a splice has exactly one transfer ticket outstanding while queued, running or closing, and none otherwise |
| `SpliceTheorems.TicketSays` | bsd/kern/uipc_socket.c:380-439 | who holds a ticket holds it for a splice that is not freed, and on the right queue |
| `SpliceTheorems.TicketExists` | bsd/kern/uipc_socket.c:638-724 | a queued, running or closing splice has its ticket somewhere |
| `SpliceTheorems.NeverPanics` | bsd/kern/uipc_socket.c:638-724 | no assertion fails and no unreachable arm is taken in any run |
| `SpliceTheorems.NamedIsLive` | bsd/kern/uipc_socket.c:1806-1906 | a splice that a thread is working on is not freed |
| `SpliceTheorems.Reclaimed` | bsd/kern/uipc_socket.c:1806-1906 | a splice is unspliced and freed at most once; then it is closed, every reference was dropped once, and nothing names it any more |
| `SpliceProgress.BusyRun` | bsd/kern/uipc_sockbuf.c:504-562 | in every run nothing that a splice has to do is forgotten |
| `SpliceProgress.NoLostWakeup` | bsd/kern/uipc_sockbuf.c:504-562 | an idle splice with data in the source and room in the sink has a push or pull on its way |
| `SpliceSelfWait.SelfWaitForever` | bsd/kern/uipc_socket.c:1866-1872 | once a worker waits for itself, no step ends the wait |
| `SpliceSelfWait.HideDooms` | bsd/kern/uipc_socket.c:1818-1844 | `so_unsplice` sets out to wait for its own caller if and only if the splice is on the caller's list |
| `SpliceSelfWait.DoomedForever` | bsd/kern/uipc_socket.c:1841-1872 | no step of any thread gets it out of there |
| `SpliceSelfWait.DoomedSwitch` | bsd/kern/uipc_socket.c:1866-1872 | and the next look at the state starts the wait |
| `SpliceSelfWait.SelfWaitExactly` | bsd/kern/uipc_socket.c:1806-1873 | in every run: on the way to the wait, or waiting, if and only if it entered so |
| `SpliceSelfWait.NoSelfWait` | bsd/kern/uipc_socket.c:1709-1746 | it does not happen where each splice of a source is freed before the next is installed |
| `SpliceScenario.WorkerCanWaitForItself` | bsd/kern/uipc_socket.c:692-700 | a run that ends in a worker waiting for itself |
| `SpliceLimit.LimitStep` | bsd/kern/uipc_socket.c:659-694 | every step keeps the account of a splice's limit |
| `SpliceLimit.LimitRun` | bsd/kern/uipc_socket.c:659-694 | so does every run |
| `SpliceLimit.LimitBound` | bsd/kern/uipc_socket.c:659-694 | in every run a splice carries at most its limit times one plus the number of further `so_splice` calls on its source |
| `SpliceLimit.NoResets` | bsd/kern/uipc_socket.c:1725-1736 | without such calls the count is never set back |
| `SpliceLimit.LimitKept` | bsd/kern/uipc_socket.c:1725-1736 | and the splice carries at most its limit |
| `SpliceTight.LimitIsTight` | bsd/kern/uipc_socket.c:1725-1736 | for every limit and number of calls, a run that reaches the bound |
| `TaskQueue.HintIsCache` | bsd/kern/subr_taskqueue.c:283-303 | without barriers, insertion by the hint gives the queue that plain stable priority insertion gives, whatever the hint |
| `TaskQueue.StableAt` | bsd/kern/subr_taskqueue.c:283-303 | where stable priority insertion puts a task |
| `TaskQueue.InsertedOk` | bsd/kern/subr_taskqueue.c:283-303 | insertion keeps the order, the barriers and the hint right |
| `TaskQueue.RemovedOk` | bsd/kern/subr_taskqueue.c:578-582 | removal does too |
| `TaskQueue.InsertAtMembers` | bsd/kern/subr_taskqueue.c:283-303 | insertion adds exactly that item |
| `TaskQueue.RemoveAtMembers` | bsd/kern/subr_taskqueue.c:578-582 | removal takes away exactly that item |
| `TaskQueue.Queue.GetBusy` | bsd/kern/subr_taskqueue.c:140-151 | finds the first active worker that runs it |
| `TaskQueue.Queue.EnqueueLocked` | bsd/kern/subr_taskqueue.c:244-315 | the result for every combination of flags; one more pending up to 65535, or the hinted insertion |
| `TaskQueue.Queue.InsertNew` | bsd/kern/subr_taskqueue.c:283-305 | the hinted insertion with its new hint |
| `TaskQueue.Queue.FindPlace` | bsd/kern/subr_taskqueue.c:287-296 | the scan stops where the insertion position is |
| `TaskQueue.Queue.CancelLocked` | bsd/kern/subr_taskqueue.c:571-593 | takes it off the queue, reports its pending count, marks it cancelled if it runs |
| `TaskQueue.Queue.TakeHead` | bsd/kern/subr_taskqueue.c:512-520 | takes the head with its count, moves the hint off it, and numbers the execution modulo 2^32 |
| `TaskQueue.Queue.PutBarrier` | bsd/kern/subr_taskqueue.c:413-441 | the barrier goes behind everything queued and becomes the hint |
| `TaskProofs.InvStep` | bsd/kern/subr_taskqueue.c:244-652 | every step keeps the invariant of queue, hint, workers, drains and tallies |
| `TaskProofs.InvRun` | bsd/kern/subr_taskqueue.c:244-652 | so does every run |
| `TaskProofs.NotAfterIsAge` | bsd/kern/subr_taskqueue.c:448-475 | the 32-bit comparison says that an execution is not after the snapshot if and only if its age modulo 2^32 is at most 2^31 |
| `TaskTheorems.EnqueuesConserved` | bsd/kern/subr_taskqueue.c:244-315 | in every run each accepted enqueue is delivered, cancelled, pending, or swallowed by a full count; a task is queued exactly while it has some pending |
| `TaskTheorems.CalloutsCount` | bsd/kern/subr_taskqueue.c:336-392 | tq_callouts counts the armed timeouts and the drains in their second half |
| `TaskTheorems.TrackedIsOver` | bsd/kern/subr_taskqueue.c:448-475 | an execution that a drain tracks is over when it returns, or looks too old |
| `TaskTheorems.DrainWaitsForRunning` | bsd/kern/subr_taskqueue.c:641-652 | what ran at the call is over at the return, or looks too old |
| `TaskTheorems.DrainWaitsForQueued` | bsd/kern/subr_taskqueue.c:641-652 | everything queued at the call was cancelled, or started and, unless it looks too old, finished |
| `TaskTheorems.BarrierIsGone` | bsd/kern/subr_taskqueue.c:413-441 | no worker runs the barrier on the drainer's stack after the drain returned, unless it looks too old |
| `TaskTheorems.PassesBarrier` | bsd/kern/subr_taskqueue.c:283-303 | a new task goes in front of a barrier if and only if the scan meets something of lower priority first |
| `TaskScenario.DrainReturnsEarly` | bsd/kern/subr_taskqueue.c:448-475 | for every execution and every snapshot to which it looks too old, a run in which the drain returns during it |
| `TaskScenario.EarlyReturnExists` | bsd/kern/subr_taskqueue.c:448-475 | there are such |
| `TaskScenario.NewTaskPasses` | bsd/kern/subr_taskqueue.c:421-431 | a run in which a new task goes in front of the barrier |
| `SockbufValues.AvailableIsReadyPrefix` | bsd/kern/uipc_sockbuf.c:255-276 | sb_acc counts the ready prefix of the byte queue |
| `SockbufChain.Sockbuf.NextReady` | bsd/kern/uipc_sockbuf.c:291-300 | the search for the next mbuf that is not ready, and what becomes available |
| `SockbufChain.Sockbuf.Sbfree` | bsd/kern/uipc_sockbuf.c:282-322 | taking the head off the accounts leaves them right for the rest of the chain, the send pointer included |
| `SockbufChain.Sockbuf.Sballoc` | bsd/kern/uipc_sockbuf.c:255-276 | adding a tail leaves them right for the longer chain |
| `SockbufChain.Sockbuf.DropHead` | bsd/kern/uipc_sockbuf.c:1605-1625 | a whole mbuf leaves the front |
| `SockbufChain.Sockbuf.TrimHead` | bsd/kern/uipc_sockbuf.c:1592-1603 | a part of the first mbuf leaves |
| `SockbufChain.Sockbuf.Cut` | bsd/kern/uipc_sockbuf.c:1557-1668 | the byte queue loses exactly its first bytes; the mbufs to free are returned as a list apart from the rest; no empty mbuf is left in front |
| `SockbufChain.Sockbuf.Flush` | bsd/kern/uipc_sockbuf.c:1525-1543 | everything goes and every field is back to empty |
| `SockbufChain.Sockbuf.LinkTail` | bsd/kern/uipc_sockbuf.c:1445-1454 | an mbuf joins the chain |
| `SockbufChain.Sockbuf.MergeTail` | bsd/kern/uipc_sockbuf.c:1420-1440 | a small mbuf's bytes go into the tail |
| `SockbufChain.Sockbuf.AppendOne` | bsd/kern/uipc_sockbuf.c:1409-1455 | one mbuf is dropped, merged or linked, and the byte queue grows by its bytes |
| `SockbufChain.Sockbuf.Sbcompress` | bsd/kern/uipc_sockbuf.c:1401-1461 | the byte queue grows by exactly the bytes of the chain; only the tail mbuf may change; an end-of-record mark ends up on the last mbuf |
| `SockbufChain.Sockbuf.Demote` | bsd/kern/uipc_mbuf.c:303-317 | strips the flags that have no place in a stream |
| `SockbufChain.Sockbuf.AppendStream` | bsd/kern/uipc_sockbuf.c:1043-1080 | the byte queue grows by exactly the bytes of the chain, and nothing in front of its end changes |
| `SockbufChain.Sockbuf.ClearMarks` | bsd/kern/uipc_sockbuf.c:204-224 | the marks of the given mbufs are cleared |
| `SockbufChain.Sockbuf.Unblock` | bsd/kern/uipc_sockbuf.c:241-245 | everything up to the next mbuf that is not ready becomes available |
| `SockbufChain.Sockbuf.FoldNext` | bsd/kern/uipc_sockbuf.c:160-183 | folding an mbuf into the one before keeps queue and accounts |
| `SockbufChain.Sockbuf.FoldAll` | bsd/kern/uipc_sockbuf.c:117-184 | so does the whole pass |
| `SockbufChain.Sockbuf.ReadyCompress` | bsd/kern/uipc_sockbuf.c:106-187 | and the compression changes no byte of the queue |
| `SockbufChain.Sockbuf.MarkReady` | bsd/kern/uipc_sockbuf.c:204-246 | the bytes of exactly those mbufs become ready |
| `SockbufChain.Sockbuf.Ready` | bsd/kern/uipc_sockbuf.c:194-249 | the same bytes in the same order, those of the given mbufs now ready; it reports whether any became available |
| `SockbufChain.Sockbuf.SndptrNoadv` | bsd/kern/uipc_sockbuf.c:1705-1725 | returns the mbuf and offset that denote the position, from the cached pointer |
| `SockbufChain.Sockbuf.SndptrAdv` | bsd/kern/uipc_sockbuf.c:1727-1751 | the cached pointer moves on as far as whole mbufs go and stays right |
| `SockbufChain.Sockbuf.Advance` | bsd/kern/uipc_sockbuf.c:1733-1750 | one step of it |
| `SockbufChain.Sockbuf.Sndmbuf` | bsd/kern/uipc_sockbuf.c:1757-1783 | the position for any offset, from the pointer or from the head |
| `SockbufChain.DenotesSuffix` | bsd/kern/uipc_sockbuf.c:1705-1783 | an mbuf and offset that denote a position lead to exactly the rest of the queue |
| `SockbufReceive.Uio.Uiomove` | bsd/compat/compat_shims.c:2076-2115 | what is copied fills the vectors in order, and is cut at what they take |
| `SockbufReceive.MbufToUio` | bsd/kern/uipc_mbuf.c:2104-2130 | the vectors get the first bytes of the chain |
| `SockbufReceive.CopyUnlocked` | bsd/kern/uipc_socket.c:3428-3435 | with the protocol appending before the copy and behind every mbuf, the vectors get exactly what was there at first |
| `SockbufReceive.CopyFront` | bsd/kern/uipc_mbuf.c:530-600 | the first bytes of the chain |
| `SockbufReceive.AvailableCuts` | bsd/kern/uipc_socket.c:3384-3445 | what is available may be cut |
| `SockbufReceive.StillAvailable` | bsd/kern/uipc_socket.c:3428-3445 | and stays available while others append |
| `SockbufReceive.Deliver` | bsd/kern/uipc_socket.c:3384-3456 | what goes into the vectors is what leaves the buffer, and what arrived meanwhile stays behind |
| `SockbufReceive.Dequeue` | bsd/kern/uipc_socket.c:3386-3408 | as many whole mbufs as fit leave the buffer as they are: the next one is longer than what is left to deliver |
| `SockbufReceive.CopyRest` | bsd/kern/uipc_socket.c:3409-3445 | the rest is copied and dropped |
| `SockbufReceive.DeliverChain` | bsd/kern/uipc_socket.c:3384-3445 | mbufs and copied tail together are the next bytes of the queue, and the mbufs are as many as fit, also when the copy fails; ENOBUFS exactly when nothing at all could be delivered |
| `SockbufReceive.GivesSomething` | bsd/kern/uipc_socket.c:3321-3378 | data are delivered only when there are some |
| `SockbufReceive.NonblockingWaits` | bsd/kern/uipc_socket.c:3321-3373 | exactly when a reader that must not block blocks |
| `SockbufReceive.Receive` | bsd/kern/uipc_socket.c:3299-3469 | one pass: decision, delivery and what is left |
| `SockbufCall.ReceiveCall` | bsd/kern/uipc_socket.c:3299-3469 | a whole call, given what arrives in each unlocked stretch: the vectors hold exactly the first bytes of what was there and what arrived in the stretches that took place, and the buffer the rest; result, number of bytes and stretches are those of the specified call when no mbuf is empty, as appending leaves it; every error is one of the four that the code can return, and why; 0 bytes without error only at the end of the stream; with MSG_WAITALL fewer than asked for only at the end or on error |
| `SockbufCall.Round` | bsd/kern/uipc_socket.c:3321-3469 | one pass of the call and the unlocked stretch behind it: it is over, with such a result, or goes on and has come nearer |
| `SockbufCall.CallGivesAll` | bsd/kern/uipc_socket.c:3384-3469 | a call that delivers anything delivers all that was ready when its last copy began, or as much as was asked for |
| `SockbufCall.PeekAgain` | bsd/kern/uipc_socket.c:3321-3373 | a look ahead that is given too little is given the same again |
| `SockbufCall.PeekCall` | bsd/kern/uipc_socket.c:3299-3469 | a look ahead with MSG_WAITALL fills the vectors with the available bytes over and over |
| `RecordShape.SumIsLength` | bsd/kern/uipc_sockbuf.c:255-276 | sb_ccc counts the bytes of all records |
| `RecordShape.SumIsPositive` | bsd/kern/uipc_sockbuf.c:255-276 | a buffer that counts nothing is empty |
| `RecordAppend.RecordBuf.Sballoc` | bsd/kern/uipc_sockbuf.c:255-276 | the sums grow by the mbuf |
| `RecordAppend.RecordBuf.Sbfree` | bsd/kern/uipc_sockbuf.c:282-322 | the sums shrink by the mbuf |
| `RecordAppend.RecordBuf.LinkRecord` | bsd/kern/uipc_sockbuf.c:912-919 | a record is linked behind the last |
| `RecordAppend.RecordBuf.CompressOne` | bsd/kern/uipc_sockbuf.c:1409-1455 | one mbuf is dropped, merged or linked |
| `RecordAppend.RecordBuf.Compress` | bsd/kern/uipc_sockbuf.c:1401-1461 | bytes and mbufs are conserved: what is live afterwards was outside before or is in the buffer; only the last record grows |
| `RecordAppend.RecordBuf.AppendRecord` | bsd/kern/uipc_sockbuf.c:1185-1214 | the chain begins a new record |
| `RecordAppend.RecordBuf.FindLast` | bsd/kern/uipc_sockbuf.c:938-941 | the walk finds the last record |
| `RecordAppend.RecordBuf.FindEnd` | bsd/kern/uipc_sockbuf.c:942-947 | and the end of it |
| `RecordAppend.RecordBuf.Append` | bsd/kern/uipc_sockbuf.c:926-971 | the chain joins the last record, or begins a new one exactly when that one has ended |
| `RecordAppend.RecordBuf.AppendWhole` | bsd/kern/uipc_sockbuf.c:1344-1369 | a chain kept as it is becomes a record |
| `RecordAppend.RecordBuf.AppendControl` | bsd/kern/uipc_sockbuf.c:1344-1369 | control data and data become one record with exactly their bytes |
| `RecordCut.Cut` | bsd/kern/uipc_sockbuf.c:1557-1668 | the bytes lose exactly their front, across records; which records are left, and in what form |
| `RecordCut.CutWhole` | bsd/kern/uipc_sockbuf.c:1572-1626 | whole mbufs, record after record |
| `RecordCut.CutEmpties` | bsd/kern/uipc_sockbuf.c:1627-1641 | empty mbufs in front go too |
| `RecordCut.DropRecord` | bsd/kern/uipc_sockbuf.c:1789-1806 | exactly the first record goes |
| `RecordCut.ReleaseAll` | bsd/kern/uipc_sockbuf.c:1797-1803 | its mbufs leave the accounts and are released |
| `RecordCut.Flush` | bsd/kern/uipc_sockbuf.c:1525-1543 | everything goes, and every field is back to empty |
| `RecordCut.FlushOnce` | bsd/kern/uipc_sockbuf.c:1531-1539 | one cut of all there is takes at least one record |
| `RecordCut.CanFlush` | bsd/kern/uipc_sockbuf.c:1531-1538 | a buffer that counts mbufs but no bytes begins with an empty one |
| `MbufMem.PokeOk` | bsd/kern/uipc_mbuf.c:1333-1370 | a write into an area that one mbuf uses changes nobody else's bytes |
| `MbufMem.FreeOneOk` | bsd/compat/compat_shims.c:1489-1525 | freeing an mbuf keeps every count right and every other byte as it was |
| `MbufMem.NewSharedOk` | bsd/kern/uipc_mbuf.c:237-284 | sharing a cluster keeps every count right |
| `MbufPool.Pool.Get` | bsd/sys/mbuf.h:1000-1050 | an empty mbuf, apart from all others, exactly while memory lasts |
| `MbufPool.Pool.MakeTail` | bsd/kern/uipc_mbuf.c:1095-1112 | the mbuf that takes the second half of a split one |
| `MbufPool.Pool.Locate` | bsd/kern/uipc_mbuf.c:1044-1048 | finds the mbuf in which the split falls |
| `MbufPool.Pool.Split` | bsd/kern/uipc_mbuf.c:1037-1113 | two chains with the bytes before and from the split, exactly when there are that many bytes and the mbufs that the split needs; failure leaves bytes and live mbufs as they were |
| `MbufPool.Pool.Last` | bsd/kern/uipc_mbuf.c:786-805 | the end of a chain |
| `MbufPool.Pool.Cat` | bsd/kern/uipc_mbuf.c:786-805 | one chain with the bytes of both, and no byte elsewhere changed |
| `MbufPool.Pool.SplitAndCat` | bsd/kern/uipc_mbuf.c:1037-1113 | splitting and concatenating gives back the bytes, exactly when the split succeeds; else all is as it was |
| `MbufRead.Length` | bsd/kern/uipc_mbuf.c:1537-1555 | the number of bytes of the chain |
| `MbufRead.CopyData` | bsd/kern/uipc_mbuf.c:678-705 | exactly the bytes asked for |
| `MbufCollapse.Count` | bsd/kern/uipc_mbuf.c:1687-1693 | the number of fragments |
| `MbufCollapse.FoldForward` | bsd/kern/uipc_mbuf.c:1700-1717 | one pass of folding keeps the bytes; what it does to lengths and room is the specified pass; it changes nothing exactly when no mbuf can take over its neighbour; it is done exactly when it merged and few enough are left; else, when no two mbufs share storage, no fold is left |
| `MbufCollapse.FindPair` | bsd/kern/uipc_mbuf.c:1723-1726 | finds the first two neighbours that fit into a cluster together; none means there are none |
| `MbufCollapse.ClusterPair` | bsd/kern/uipc_mbuf.c:1727-1740 | replacing them by a cluster keeps the bytes, exactly when there is one |
| `MbufCollapse.Collapse` | bsd/kern/uipc_mbuf.c:1681-1760 | the bytes are kept in every case; success means few enough mbufs, and fewer than before; success, and the lengths of the mbufs left, are those of the specified collapse of the lengths, room and sharing before the call; a chain that is short enough already is collapsed exactly when a neighbour can be taken over, or there is memory and two neighbours behind the first fit into a cluster; a longer one whose bytes fill less than every other of the clusters allowed is always collapsed if there is memory |
| `MbufShape.WritableIs` | bsd/sys/mbuf.h:1141-1148 | an mbuf of a chain may be written exactly if it is not read-only and nobody, in the chain or outside, shares its storage |
| `MbufShape.ShowsTake` | bsd/kern/uipc_mbuf.c:1700-1717 | taking over a neighbour does to lengths, room and sharing what is specified |
| `MbufShape.ShowsPair` | bsd/kern/uipc_mbuf.c:1727-1740 | so does replacing two mbufs by a cluster |
| `MbufCollapse.PairsFill` | bsd/kern/uipc_mbuf.c:1719-1742 | where no two neighbours behind the first fit into a cluster, every two of them hold a cluster's worth |
| `MbufUnshare.FreeChain` | bsd/compat/compat_shims.c:1073-1087 | exactly the chain is released |
| `MbufUnshare.CopyOut` | bsd/kern/uipc_mbuf.c:2213-2249 | new clusters with the bytes, exactly when there are as many as the bytes need, and with what room in the last; else nothing changed |
| `MbufUnshare.Unshare` | bsd/kern/uipc_mbuf.c:2141-2259 | the bytes are kept and every mbuf of the result owns its storage; failure releases the chain and nothing else; success exactly when there are as many clusters as the chain, as it is before the call, needs, and it takes just these |
| `MbufNeed.OwnNow` | bsd/kern/uipc_mbuf.c:2163-2185 | whether an mbuf is still shared when the walk reaches it follows from the counts at first and the mbufs in front |
| `MbufNeed.NeedBound` | bsd/kern/uipc_mbuf.c:2187-2250 | the need is at most what copies of all shared mbufs would take |
| `MbufPull.PullAll` | bsd/kern/uipc_mbuf.c:958-971 | the loop moves bytes to the front |
| `MbufPull.Pullup` | bsd/kern/uipc_mbuf.c:927-981 | the bytes are kept and the first mbuf holds enough of them; success exactly under the stated condition; failure releases the chain and nothing else |
| `MbufPulldown.Adj` | bsd/kern/uipc_mbuf.c:823-860 | the chain loses its front bytes, and no mbuf |
| `MbufPulldown.FindByte` | bsd/kern/uipc_mbuf2.c:116-129 | the mbuf that holds the byte |
| `MbufPulldown.CopyBehind` | bsd/kern/uipc_mbuf2.c:203-213 | the bytes go behind those of the mbuf |
| `MbufPulldown.CopyInFront` | bsd/kern/uipc_mbuf2.c:214-223 | or in front of those of the next |
| `MbufPulldown.SplitOut` | bsd/kern/uipc_mbuf2.c:163-181 | a shared mbuf is parted without touching the shared bytes |
| `MbufPulldown.Assemble` | bsd/kern/uipc_mbuf2.c:225-248 | or all go into a new mbuf |
| `MbufPulldown.Pulldown` | bsd/kern/uipc_mbuf2.c:92-262 | the bytes are kept, and the range lies in one mbuf, at its start unless the caller takes an offset; the mbufs in front of the one that holds its first byte are untouched; success exactly under a condition on the chain and the memory before the call; failure releases the chain and nothing else |
| `MbufAppend.Append` | bsd/kern/uipc_mbuf.c:1333-1370 | exactly as many bytes as the room behind the chain and the mbufs to be had hold are appended, and none elsewhere changed |
| `MbufAppend.Defrag` | bsd/kern/uipc_mbuf.c:1566-1637 | the bytes in as few mbufs as there can be, exactly when there are that many; failure leaves all as it was; a chain without a packet header comes back as it is |
| `MbufAppend.PiecesAreFewest` | bsd/kern/uipc_mbuf.c:1566-1637 | no chain of clusters with those bytes is shorter |
| `MbufRefs.Headers.MbDupcl` | bsd/kern/uipc_mbuf.c:237-284 | the sharer points at the embedded count, which goes up |
| `MbufRefs.Headers.MFree` | bsd/compat/compat_shims.c:1489-1525 | the count goes down; what happens to header and cluster in each case |
| `MbufRefs.StepInv` | bsd/compat/compat_shims.c:1489-1525 | every operation keeps the invariant of counts, owners and zones |
| `MbufRefs.RunInv` | bsd/compat/compat_shims.c:1489-1525 | so does every run |
| `MbufRefs.CountIsUsers` | bsd/kern/uipc_mbuf.c:267-283 | in every run the count that a header reaches is the number of headers in use on its cluster, and the header that holds it is in no zone |
| `MbufRefs.ClusterOnce` | bsd/compat/compat_shims.c:1507-1512 | a cluster goes back once, when its last user is freed |
| `MbufRefs.HeadersBackIff` | bsd/compat/compat_shims.c:1489-1525 | all headers are back if and only if the cluster was never shared; otherwise one is lost per further user |
| `MbufRefs.OwnZoneIff` | bsd/compat/compat_shims.c:1503-1506 | a packet's item goes to its own zone if and only if its own header was freed last |
| `MbufRefs.PacketGoesAstray` | bsd/compat/compat_shims.c:1489-1525 | a run in which it does not |
| `CalloutModel.TickLeavesNoneDue` | bsd/compat/compat_shims.c:1013-1055 | whatever the callbacks do, a scan ends with the list well formed and nothing due |
| `CalloutModel.ArmingsAccounted` | bsd/compat/compat_shims.c:951-1055 | every arming ends in exactly one way: fired, stopped, replaced, or still standing |
| `CalloutModel.TickIsBounded` | bsd/compat/compat_shims.c:1013-1055 | when callbacks arm only for later, each callout due at the start fires at most once and no other does |
| `CalloutModel.TickHasNoBound` | bsd/compat/compat_shims.c:1013-1055 | otherwise a scan can be made as long as one likes |
| `CalloutModel.TickCounts` | bsd/compat/compat_shims.c:1013-1055 | whatever the callbacks do, a scan fires as often as callouts were due at first, plus those made due meanwhile, less those stopped or put off |
| `CalloutModel.QuietTick` | bsd/compat/compat_shims.c:1013-1055 | with callbacks that edit nothing, the due ones fire in list order and the others stay |
| `CalloutModel.TickFires` | bsd/compat/compat_shims.c:1013-1055 | a scan fires the first due callout, and then what the rest of it fires |
| `CalloutList.Callout.constructor` | bsd/compat/compat_shims.c:929-939 | a callout that is not pending |
| `CalloutList.Wheel.constructor` | bsd/compat/compat_shims.c:915-915 | an empty list |
| `CalloutList.Wheel.Unlink` | bsd/compat/compat_shims.c:962-967 | the walk to the pointer that leads to the callout, and around it |
| `CalloutList.Wheel.Bypass` | bsd/compat/compat_shims.c:964-966 | the pointer leads past it, and the rest of the list is as it was |
| `CalloutList.Wheel.Reset` | bsd/compat/compat_shims.c:951-982 | the callout is armed once, at the front, for the right time |
| `CalloutList.Wheel.Push` | bsd/compat/compat_shims.c:969-978 | a callout that is off the list goes to its front |
| `CalloutList.Wheel.Cancel` | bsd/compat/compat_shims.c:984-999 | the callout is off the list; it tells whether it was armed |
| `CalloutList.Wheel.Clear` | bsd/compat/compat_shims.c:992-994 | what is off the list is not pending |
| `CalloutList.Wheel.Callback` | bsd/compat/compat_shims.c:1039-1040 | a callback's edits, in order |
| `CalloutList.Wheel.TakeOut` | bsd/compat/compat_shims.c:1017-1022 | an expired callout leaves the list and fires |
| `CalloutList.Wheel.FireOne` | bsd/compat/compat_shims.c:1015-1050 | one firing, with its callback, is one step of the specified scan |
| `CalloutList.Wheel.Process` | bsd/compat/compat_shims.c:1013-1055 | the scan does what is specified, and leaves nothing pending that is due |
| `ListenProofs.StepInv` | bsd/kern/uipc_socket.c:1303-1351 | every step keeps the invariant of queues, counters and references |
| `ListenProofs.RunInv` | bsd/kern/uipc_socket.c:1303-1351 | so does every run |
| `ListenProofs.EvictFinds` | bsd/kern/uipc_socket.c:1331-1344 | eviction finds a child, on the incomplete queue |
| `ListenTheorems.QueuesAgree` | bsd/kern/uipc_socket.c:1303-1351 | in every run counters, membership, state and references agree, for every child and the listener |
| `ListenTheorems.IncompleteIsBounded` | bsd/kern/uipc_socket.c:1331-1347 | the incomplete queue is never more than one over the limit |
| `ListenTheorems.AcceptsComplete` | bsd/kern/uipc_socket.c:1620-1665 | what is accepted is complete |
| `ListenTheorems.CloseKeepsListener` | bsd/kern/uipc_socket.c:1972-2052 | closing does not drop the listener's last reference for a child |
| `ListenTheorems.ResumeKeepsListener` | bsd/kern/uipc_socket.c:4793-4842 | nor does `soisconnected`, and the child is where it expects it |
| `ListenTheorems.FreedChildRests` | bsd/kern/uipc_socket.c:1955-1970 | no step touches a freed child |
| `ListenTheorems.FreedListenerRests` | bsd/kern/uipc_socket.c:1955-1970 | or a freed listener |
| `ListenTheorems.AllReclaimed` | bsd/kern/uipc_socket.c:1972-2052 | once all have let go, the listener is freed, and every child that was not accepted or held |
| `ListenTheorems.SecondConnectBreaks` | bsd/kern/uipc_socket.c:4793-4842 | a second `soisconnected` for the child during the first would queue it twice |
| `ListenTheorems.CloseWhileAddingStrands` | bsd/kern/uipc_socket.c:1972-2052 | closing while a child is added would leave it on a closed listener |
| `ListenScenario.SecondConnectCanBreak` | bsd/kern/uipc_socket.c:4793-4842 | a run that leads there, for every limit and child |
| `ListenScenario.CloseCanStrand` | bsd/kern/uipc_socket.c:1972-2052 | a run that leads there, for every limit and child |

## Findings

Where the code does not keep a property one would expect of it, the proof says for which inputs, and exactly when
the property holds.

| what fails | input | lemma | exactly when |
|---|---|---|---|
| A splice worker can sleep for ever, waiting for a splice that it itself has to finish (bsd/kern/uipc_socket.c:692-700, 1866-1872). | A splice of a socket is queued; a closer hides it and is delayed; a second splice of the same socket is installed and queued behind it; the worker takes both, fails on the first, and unsplices the socket. | `SpliceScenario.WorkerCanWaitForItself`, `SpliceSelfWait.SelfWaitForever` | A thread is bound to wait for itself if and only if it entered `so_unsplice` while the source's current splice was on the worker's own list: `SpliceSelfWait.HideDooms` for the step, `SpliceSelfWait.SelfWaitExactly` for whole runs. It never happens when each splice of a socket is freed before the next is installed: `SpliceSelfWait.NoSelfWait`. |
| A splice with a byte limit can carry more than its limit: a second `so_splice` call on the source sets the count back to 0 before it is refused (bsd/kern/uipc_socket.c:1726). | The second call comes after the transfer was counted and before the limit is looked at. | `SpliceTight.LimitIsTight`: after k such calls, k + 1 times the limit, for every limit and k | Never more than the limit times one plus the number of calls on that source while the splice exists: `SpliceLimit.LimitBound`. At most the limit when there is none: `SpliceLimit.LimitKept`. |
| `taskqueue_drain_all` can return while a task that was running at the call is still running (bsd/kern/subr_taskqueue.c:448-475). | More than 2^31 other tasks start during that execution. | `TaskScenario.EarlyReturnExists` | If an execution survives the drain, its start lies more than 2^31 (and less than 2^32) starts back, modulo 2^32: `TaskTheorems.TrackedIsOver`. For every such pair of numbers it does happen: `TaskScenario.DrainReturnsEarly`. |
| A task enqueued after a drain began can run in front of the drain's barrier (bsd/kern/subr_taskqueue.c:283-303, 421-431). | Priorities 10, then the drain, then 5, 8 and 20: the last moves the scan back to the head. | `TaskScenario.NewTaskPasses` | It goes in front of a barrier if and only if it does not go to the tail and the scan, from where it starts, meets something of lower priority before the barrier: `TaskTheorems.PassesBarrier`. |
| A read that must not block blocks (bsd/kern/uipc_socket.c:3344-3373). | MSG_WAITALL on a non-blocking socket that holds some of the data. | `SockbufReceive.NonblockingWaits` | If and only if MSG_WAITALL is given, the socket is healthy and open, and there is something, but less than asked for and less than the buffer's limit. |
| A look ahead for more than is there returns the same bytes repeatedly (bsd/kern/uipc_socket.c:3439-3463). | MSG_PEEK with MSG_WAITALL, when the buffer is at its limit, closed or in error with less than asked for. | `SockbufCall.PeekCall` | What is returned is the available bytes over and over until the request is full, so each byte once if and only if the request is no longer than they are. That a short pass is always repeated: `SockbufCall.PeekAgain`. |
| `callout_process` has no bound: it starts again at the head after every callback (bsd/compat/compat_shims.c:1013-1055). | A callback that arms its own callout for now. | `CalloutModel.TickHasNoBound` | It fires more often than callouts were due at the start if and only if the callbacks make more callouts due than they stop or put off, and by how much: `CalloutModel.TickCounts`. When they arm only for later, each due callout fires at most once and no other does: `CalloutModel.TickIsBounded`. |
| `xfs_mkdir` and `xfs_write_file` report success and nothing can be found of it: they enter a name a second time, behind the entry that is found (tools/xfs_mkfs.c:134-164, 174-195, 257-300). | A string with a doubled slash, or with a name of more than 63 bytes: the search takes other components from it than creation does. | `XfsImage.Image.DoubledSlashShadowed`, `XfsImage.Image.LongNameShadowed` | A success takes effect if and only if the string leads somewhere or nothing is at its target; otherwise no path changes: `XfsImage.Image.Mkdir`, `XfsImage.Image.WriteFile`. The names in the directories stay unique if and only if no such second entry is made (the same members); even then every inode that a path leads to has one entry only: `XfsNames.NamedOnce`. Strings of well-formed components are safe: `XfsImage.Image.PlainNotShadowed`. |
| `xfs_write_file` replaces the entries of a directory by the bytes (tools/xfs_mkfs.c:257-262, 344-384). | The path of a directory; zeros, for instance, leave it empty. | `XfsImage.ZerosLoseAll` | The bytes are where the entries were if the string names a directory, there is room and there are bytes; in every other case the image stays valid: `XfsImage.Image.WriteFile`. |
| Headers of mbufs that share a cluster are never returned to a zone, and one may go to the wrong zone (bsd/compat/compat_shims.c:1489-1525). | A packet from `m_getcl`, shared once, its first header freed first. | `MbufRefs.PacketGoesAstray` | Once the last user is freed, all headers are back if and only if the cluster was never shared; one is lost for every other user: `MbufRefs.HeadersBackIff`. A packet's item goes to its own zone if and only if its own header was freed last: `MbufRefs.OwnZoneIff`. The cluster itself is right in every run: `MbufRefs.ClusterOnce`. |
| `m_collapse` reports failure on a chain that is short enough already (bsd/kern/uipc_mbuf.c:1681-1760). | A chain of one mbuf, always. | `MbufCollapse.Collapse` | On a chain that is short enough it succeeds if and only if some mbuf can be written and has more room behind its bytes than the next has bytes, or there is memory for a cluster and two neighbours behind the first hold less than one. For longer chains, the collapse of the lengths alone decides: `MbufShape.Shrink`, which the method is proved to follow. It always succeeds when there is memory and the bytes fill less than every other of the clusters allowed. |
| `m_pullup` drops a packet although the bytes are there (bsd/kern/uipc_mbuf.c:927-981). | More than MHLEN bytes from an mbuf that has no room for them. | `MbufPull.Pullup` | It succeeds if and only if the chain is long enough and either the first mbuf has the room, or MHLEN does and memory is available. |
| Two `soisconnected` calls for one child, or closing a listener while a child is being added, would corrupt the queues (bsd/kern/uipc_socket.c:4793-4842, 1972-2052). | Overlaps that the protocol's lock and the callers exclude. | `ListenScenario.SecondConnectCanBreak`, `ListenScenario.CloseCanStrand` | Without these overlaps every run keeps them right: `ListenTheorems.QueuesAgree`, `ListenTheorems.AllReclaimed`. |

## Left out

- XfsImage.Image.ResolvePath: requires that the records met on the way can be read. Behind a regular file, whose bytes it takes for entries, that need not be so; the code would read outside its arrays or the image.
- XfsImage.Image.Mkdir: requires a non-empty string, behind whose end the code would look for the name, and that neither the way to its components nor the way to its target leads through a regular file, into whose bytes the code would enter the new name.
- XfsImage.Image.WriteFile: the same; and over a directory it says what the directory's blocks hold and that nothing outside it changes, not what a reader finds below it.
- The formatter's command line, its tree of standard directories and the copying of host files, which only call the operations above.
- Disks of 2^32 blocks and more, which the 32-bit block numbers of the format cannot address.
- Splices: the idle timeout, KERN_TLS, and the reference a worker holds while it unsplices. Refusals of unconnected or listening sockets, and transfer errors, are free choices in the model. Identities of freed splices are not used again.
- Task queues: `taskqueue_block`, `taskqueue_drain` of one task, thread start and termination, the epoch tracker, and the callout that a timeout rests on.
- SockbufCall.ReceiveCall: does not clear `so_error` when it reports it; `last` keeps what the last pass found.
- SockbufReceive.DeliverChain: the tail that `m_copym` shares is a copy of the bytes; sharing is modelled in the mbuf memory only.
- SockbufReceive.CopyUnlocked: one mbuf's `uiomove` is one step, and copying to user memory does not fault.
- Stream buffers: record marks and control data beyond their effect on the counters, TLS receive buffers, socket-buffer limits and wakeups (those of splicing apart).
- Record buffers: `sbappendaddr`, and the not-ready and send-pointer fields, which the stream buffer has.
- Mbufs: `m_pkthdr.len`, `m_dup`, `m_copym`, `m_copyback`, `m_devget`, `m_fragment`, unmapped pages, mbuf types; `M_ALIGN` is a free choice of offset; read-only is a flag of the mbuf.
- MbufPulldown.Adj: trims from the front only, as `m_pulldown` uses it.
- MbufRefs.Headers.MFree: takes `ext_free` of a sharer as unset; `mb_dupcl` does not copy that field. Counts do not reach 2^32.
- Callouts: the interrupt that calls `callout_process` and the lock around it.
- Listen queues: accept filters, the over-limit test of `solisten_clone`, and the wakeups. That `soisconnected` runs once at a time for a child, and that aborting the child waits for it, is taken from the protocol's lock.
- The kernel proper, its drivers, loader and shell, and the rest of the network stack.
