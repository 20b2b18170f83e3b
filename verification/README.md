# VDisc, modelled in Dafny

VDisc "burns" a file tree into ISO 9660 metadata plus a compressed map of extents, and "loads" that map back as one
virtual read-only disc whose reads go through caches. This project models the parts of it that carry the hard
properties, and proves those properties for all inputs and all runs:

* the URI radix trie, split and extended in place, its inversion into parent-pointer nodes, and the walk that spells
  a URI back (`Trie`, `Inversion`);
* the ISO 9660 codec and layout: system-use entries (`Susp`), Rock Ridge names and links (`RockRidge`), the entries of
  an inode (`InodeEntries`), continuation areas and their expansion (`Continuation`, `Expansion`), directory records and
  extents (`Directory`, `RecordScan`, `DirectoryExtent`), the volume descriptor (`Descriptor`), inode parts and
  identifiers (`Inode`, `Identifier`, `DirectoryInodes`, `Visiting`), the packing of a directory (`Packing`,
  `ToDirectory`, `Aliasing`) and the two-pass layout (`Sectors`, `Placement`, `Layout`);
* everything read back from it: the records and entries of a directory (`ReadBack`, `ReadDir`, `Listings`, `Children`),
  what a listing shows of an inode (`FileInfos`, `FirstRecords`), whole directories (`Mounted`) and paths (`Lookup`,
  `Walker`), so that whatever was added under a name is found under it, with its size, its address and its bytes;
* the agreement of burning and loading (`BurnLoad`, `Burning`);
* the read path: concatenation, cached reads, read-ahead (`Concat`, `CachedRead`, `ReadAhead`);
* the concurrent protocols, as step systems over every interleaving: the multi-process disk cache, the shared memory
  cache, the SCSI command pool and the multipart uploader (`DiskCache`, `MemCache`, `CmdPool`, `Uploader`).

Code that updates things in place is imperative here too: classes with `Valid()` and an abstract value, methods with
loops, each proved against a specification function whose own properties are lemmas. In a step system a state is a
datatype, `After(s, step)` is what one atomic step of one thread does, and `RunsAreSafe` speaks of every state of
every run. Go's `uint32` arithmetic is written out (`Wrap32`); Go's runes are Dafny characters.

Where the verifier needs to carry a definition whole, its body is guarded by `Unfold` or a guard like it; `P(x) == true`
in a contract means no more than `P(x)`.

## What the code does not do

Some properties one would expect are false of the code. Each has a lemma that says when they hold: exactly, but for
the wrapped addresses, where something else is read that is not characterised further.

* `RockRidge.LinkRoundTrip`: a link whose last segment is `.`, `..` or empty is written but never found again, because
  such a component skips the check for the last entry (pkg/iso9660/rrip/sl.go:229-242 against :249).
* `Aliasing.FirstRecordReadsBack`: all parts of a file share one slice of entries that `append` overwrites; the first
  record leads back to just the entries exactly if the second part does not overflow at the same entry as the first. If
  it does (`FirstRecords.ClobberedExample`: a name of 165 bytes and two parts), some entries come more than once;
  `FirstRecords.FirstRecordShows` says that a listing still shows the inode as it is.
* `ReadBack.HighDirectoryIsLost`: byte addresses are computed in a uint32, so that a directory is read from its block
  modulo 2^21 (`ReadBack.SectionWraps`); below block 2^21 everything is read back.
* `Concat.ReadAt`: even if no part fails, a read past the end is cut short exactly if the last part is empty
  (`Concat.Stuck`, `Concat.StuckExample`). A loaded disc never has such a part (`Burning.ReadDisc`).
* `BurnLoad.UrlsRight`: every extent leads to its own object exactly if no URL is repeated (`BurnLoad.RepeatedUrl`).
* `BurnLoad.OwnImageIs`: the volume's own image is the loaded one exactly if no file is empty (`BurnLoad.EmptyFile`).
* `CmdPool.HarmlessUntilWaited`: a device may come up at any time, also while the pool is being closed, exactly until
  `Close` has stopped waiting; a later one can send on a closed channel (`CmdPool.PanickingRun`).

## Model

| member | source | states |
|---|---|---|
| `Trie.TrieMap.Put` | pkg/vdisc/trie.go:51-126 | through every split and extension the contents become the old map with the key updated, and the trie stays packed: every node is terminal, or branches, or is the empty root, and children are filed under their first rune |
| `Trie.TrieMap.Get` | pkg/vdisc/trie.go:128-155 | agrees with the ordinary map for every key, present or absent |
| `Trie.TrieMap.constructor` | pkg/vdisc/trie.go:41-49 | a new trie is valid and empty |
| `Trie.TrieMap.Split` | pkg/vdisc/trie.go:61-72 | splitting a node inside its content changes no contents and keeps every path |
| `Trie.Walk` | pkg/vdisc/trie.go:128-155 | one rune of the descent reaches exactly the position that spells the longer prefix, or proves that no key has it |
| `Trie.Absent` | pkg/vdisc/trie.go:128-155 | a key with a prefix that no path spells is not stored |
| `Trie.SplitStep` | pkg/vdisc/trie.go:61-72 | the invariant survives the split of a node at any position |
| `Trie.LeafStep` | pkg/vdisc/trie.go:89-99 | the invariant survives a new leaf under a free rune |
| `Trie.ExtendStep` | pkg/vdisc/trie.go:100-104 | the invariant survives the growth of the newest leaf by a rune |
| `Trie.EndStep` | pkg/vdisc/trie.go:124-125 | marking the final node stores exactly the key and value |
| `Inversion.Invert` | pkg/vdisc/trie.go:163-214 | succeeds exactly if no two keys have the same value (it panics otherwise), and then every stored key is spelled back from the leaf filed under its value, and there are no other leaves |
| `Inversion.Url` | pkg/vdisc/extent.go:45-65 | the parent walk ends, since every parent comes before its node, and yields what the branch and all its ancestors spell |
| `Inversion.AllVisited` | pkg/vdisc/trie.go:163-214 | when the queue is empty every node of the trie has been visited |
| `Inversion.Turn` | pkg/vdisc/trie.go:182-211 | one turn of the queue keeps every queued prefix equal to what its stored parent index spells |
| `Inversion.Clash` | pkg/vdisc/trie.go:185-188 | the panic happens only if two keys share a value |
| `DiskCache.RunsAreSafe` | pkg/caching/disk.go:198-356 | in every state of every interleaving of readers, read-aheads, lock races, hash collisions, sources shorter than announced, crashes and garbage collection: committed files hold exactly the source bytes of their key, answers are source bytes, at most one filler is at work per cache path, nobody reads the source for a slice that is cached, and every lock held belongs to somebody who will give it back |
| `DiskCache.StepKeepsInv` | pkg/caching/disk.go:245-356 | every atomic step keeps the invariant: locks held, pooled buffers apart, what each thread has seen |
| `DiskCache.InvIsSafe` | pkg/caching/disk.go:198-236 | the invariant implies safety |
| `DiskCache.StepKeepsWhole` | pkg/caching/disk.go:245-356 | the invariant with what a filler saw after locking: every step keeps that the slice being filled is not cached |
| `DiskCache.FailuresCaused` | pkg/caching/disk.go:198-300 | in every run, a call that returned an error had its own lock or its own fill fail just before, and did nothing since |
| `DiskCache.FirstStep` | pkg/caching/disk.go:203-243 | in every run, a read first looks into the cache, a read-ahead goes for the lock at once |
| `DiskCache.CommittedIsServed` | pkg/caching/disk.go:204-216 | in every run, a slice that was committed and neither collected nor replaced since is served from the cache: the next step of whoever opens it answers with the bytes asked for |
| `DiskCache.BuffersReturn` | pkg/caching/disk.go:278-310 | in every run without a crash, every buffer that the pool has not let go waits there or is in somebody's hands: none is lost |
| `DiskCache.SomeoneGoesOn` | pkg/caching/disk.go:245-356 | in every state that can be reached, whoever has not returned can go on without failing, or waits for a lock whose holder can |
| `MemCache.RunsAreSafe` | pkg/caching/mem.go:152-226 | in every state of every interleaving, with failing fills and read-aheads: bytes returned for a key are that key's source bytes, as many as were asked for, even if the buffer was reassigned after the lookup; the end of file is only reported behind the slice or for a slice whose read-ahead failed; the pool stays within its buffer count, no buffer is filed under two keys, and every lock held belongs to somebody who will give it back |
| `MemCache.StepKeepsInv` | pkg/caching/mem.go:187-226 | every step keeps the invariant |
| `MemCache.GetKeeps` | pkg/caching/mem.go:152-179 | a lookup keeps the pool orderly on a hit, while it grows, and when it evicts, and files the key last |
| `MemCache.FiledExactly` | pkg/caching/mem.go:152-179 | after any sequence of lookups, a key is filed exactly if it was looked up and fewer than the buffer count of other keys were since: the pool is LRU |
| `MemCache.OldestMakesRoom` | pkg/caching/mem.go:160-178 | the key that makes room is the one whose last lookup is the earliest, and its buffer is the one handed out |
| `MemCache.RunPool` | pkg/caching/mem.go:152-179 | in every run the pool is the one that its lookups make, whatever happens in between |
| `MemCache.FailuresCaused` | pkg/caching/mem.go:187-226 | in every run, a call that returned an error had its own fill fail just before |
| `MemCache.HitIsServed` | pkg/caching/mem.go:198-226 | in every run, a reader that locks a buffer which holds its slice is answered from it by its next two steps, without reading the source |
| `MemCache.SomeoneGoesOn` | pkg/caching/mem.go:152-226 | in every state that can be reached, whoever has not returned can go on, or waits for a lock whose holder can; a fill only has to fail if the source does |
| `CmdPool.RunsAreSafe` | pkg/blockdev/cmdpool.go:49-112 | in every state of every run in which no device comes up after `Close` has stopped waiting: nothing is sent on a closed channel; a device's output closes only after its input and after every accepted command has exactly one response, and a device that has exited before the shutdown has closed it; no worker leaves before the shutdown; and at most one read command per device is dropped then |
| `CmdPool.HarmlessUntilWaited` | pkg/blockdev/cmdpool.go:70-73 | from any state that a run can reach, a new device leads to no panic in any continuation exactly if `Close` has not stopped waiting |
| `CmdPool.LateDevicePanics` | pkg/blockdev/cmdpool.go:95-98 | after that, some continuation sends on the closed channel |
| `CmdPool.PanickingRun` | pkg/blockdev/cmdpool.go:107-112 | a whole run, from a new pool, that ends in this panic |
| `CmdPool.StepKeepsInv` | pkg/blockdev/cmdpool.go:49-112 | every step but a late device keeps the invariant, wait-group counters included |
| `CmdPool.NoPanic` | pkg/blockdev/cmdpool.go:70-112 | no step sends on a closed channel or closes one twice |
| `CmdPool.DevicesTold` | pkg/blockdev/cmdpool.go:49-112 | in every such run, what a device has accepted, answered and in which order, dropped and closed is exactly what the steps so far did |
| `CmdPool.ClosedAndAnswered` | pkg/blockdev/cmdpool.go:75-93 | in every such run, once a device has closed its output it stays closed, and every command the device ever took was answered |
| `CmdPool.CallersGoOn` | pkg/blockdev/cmdpool.go:70-112 | exactly when a command can be handed in, an input closed, and the pool closed to the end |
| `CmdPool.SomeoneGoesOn` | pkg/blockdev/cmdpool.go:49-112 | as long as a device has anything left to do, or `Close` waits for a goroutine, some worker or device can go on |
| `CmdPool.WorkIsDone` | pkg/blockdev/cmdpool.go:49-112 | left alone, workers and devices come to rest after a bounded number of steps, in whatever order they take them; then every command taken is answered, or dropped because of the shutdown, every device whose input is closed has closed its output or gone because of the shutdown, and `Close` has nobody left to wait for |
| `Uploader.Body.constructor` | pkg/s3util/uploader.go:151-170 | the part size is raised only if the body would need more than the allowed number of parts, and then to the least with which it needs fewer |
| `Uploader.Body.NextReader` | pkg/s3util/uploader.go:176-206 | hands out the next contiguous chunk of at most a part, with EOF exactly at the end |
| `Uploader.Body.Split` | pkg/s3util/uploader.go:300-342 | the chunks are contiguous, cover the body exactly and never exceed the maximum number of parts; below 5 MiB a part size is refused, and more than 10000 parts are too many |
| `Uploader.TilesGather` | pkg/s3util/uploader.go:300-342 | contiguous chunks put together are the body |
| `Uploader.RunsAreSafe` | pkg/s3util/uploader.go:362-477 | for every interleaving of producer and workers, success implies that the sorted list is exactly parts 1 to k |
| `Uploader.CompletedOk` | pkg/s3util/uploader.go:446-477 | any sorted arrangement of the parts sent, once all were sent, is 1 to k |
| `Uploader.UploadedIsBody` | pkg/s3util/uploader.go:282-477 | in every run, what a completed upload is assembled to is the body |
| `Uploader.FailuresCaused` | pkg/s3util/uploader.go:282-477 | in every run, an error is only there because there are too many parts, a part could not be sent, or S3 refused the list |
| `Uploader.ErrorStops` | pkg/s3util/uploader.go:362-379 | in every run, after an error no further part is read from the body and none is sent but those being sent already |
| `Uploader.SomeoneGoesOn` | pkg/s3util/uploader.go:282-477 | as long as there is no verdict, somebody can go on, and not only by failing unless something has failed before |
| `Uploader.UploadCompletes` | pkg/s3util/uploader.go:282-477 | every run ends, after at most six steps per part, one per worker and one more; one in which nothing failed ends with all parts sent and the list 1 to k completed |
| `ReadAhead.Controller.Update` | pkg/caching/readahead.go:50-78 | tracks runs, issues at most the run's length rounded up to blocks, each right after the one before, and stops early only for want of tokens or at the window's or object's end |
| `ReadAhead.Controller.Note` | pkg/caching/readahead.go:54-68 | how position, run length and next block follow from a read |
| `ReadAhead.Controller.IssueUpTo` | pkg/caching/readahead.go:71-77 | the issuing loop, under any schedule of tokens taken and returned meanwhile |
| `ReadAhead.Replay` | pkg/caching/readahead.go:50-87 | over every sequence of reads: each issued block lies after the current one, within the window and inside the object, no run issues a block twice, and tokens held plus tokens free stay constant |
| `ReadAhead.InsideObject` | pkg/caching/readahead.go:25-34 | a block number below the block count is one that starts inside the object |
| `Concat.IntersectionCorrect` | pkg/interval/interval.go:22-29 | the result contains exactly the points of both intervals, and there is none exactly if they are disjoint |
| `Concat.Build` | pkg/storage/concat.go:49-54 | the ordered parts lie end to end over the concatenation of all objects |
| `Concat.Concatenate` | pkg/storage/concat.go:44-61 | a single object is returned as it is; otherwise the ordered parts, the last of them the last object |
| `Concat.ReadImage` | pkg/storage/concat.go:44-163 | if no object fails and the last is not empty, a read yields the slice of the simple concatenation, cut short only at its end, through the shortcut for a single object too |
| `Concat.Collect` | pkg/storage/concat.go:97-141 | the chosen sub-slices tile the request from its top down, and reach its start exactly if the descent does not get stuck; each is just what the request takes from its part |
| `Concat.TilingApart` | pkg/storage/concat.go:112-122 | the sub-slices write to disjoint pieces of the buffer |
| `Concat.FetchAll` | pkg/storage/concat.go:124-143 | whatever the order in which sub-slices arrive, each delivers its own bytes and disturbs no other |
| `Concat.Sum` | pkg/storage/concat.go:145-162 | succeeds exactly if every sub-slice arrived whole, with or without an EOF beside it; else the bytes of all sub-slices before the first that did not, and what that one delivered, are counted, and are right |
| `Concat.ReadAt` | pkg/storage/concat.go:88-163 | a read yields the slice of the simple concatenation, in both modes: what is counted is right whatever fails, EOF comes exactly past the end, and it succeeds exactly if every part delivers its share and the descent is not stuck |
| `Concat.StuckExample` | pkg/storage/concat.go:109-116 | a trailing empty part stops an over-read |
| `CachedRead.ReadAt` | pkg/caching/cache.go:98-134 | equals the source slice clipped to the object, for every block size, offset and length; on an error the bytes counted are still right; the rest of the buffer is untouched |
| `CachedRead.Slices` | pkg/caching/cache.go:115-120 | consecutive blocks cover a stretch of the source |
| `CachedRead.Window` | pkg/caching/cache.go:103-120 | the chosen blocks contain the clipped request, also if its end falls on a block boundary and one more, possibly empty, block is added |
| `CachedRead.Slice` | pkg/caching/mem.go:46-71 | a block holds the source bytes from its offset, cut off at the end |
| `Susp.EncodeLen` | pkg/iso9660/susp/ce.go:49-81 | for every kind of entry, the declared length equals the bytes written |
| `Susp.DecodeSystemUseEntries` | pkg/iso9660/directoryrecord.go:215-285 | the loop computes the list that the bytes spell, unknown entries skipped, or fails |
| `Susp.EntryRoundTrip` | pkg/iso9660/directoryrecord.go:287-547 | a written entry of any kind, followed by anything, is read back and takes its declared length |
| `Susp.RoundTrip` | pkg/iso9660/directoryrecord.go:215-547 | any list of entries is read back as written |
| `Susp.Both32RoundTrip` | pkg/iso9660/ioutil.go:37-47 | a number in both byte orders is read back, and what follows is left |
| `Susp.Both16RoundTrip` | pkg/iso9660/ioutil.go:25-35 | the same for 16 bits |
| `Susp.EntryExactly` | pkg/iso9660/directoryrecord.go:287-547 | nothing is decoded as an entry but bytes under its tag that spell it; reserved flags and bytes behind the fields are ignored |
| `Susp.StoredForms` | pkg/iso9660/rrip/sl.go:28-33 | the flag bits of link components and the sizes of the two forms of times |
| `Susp.Both32Only` | pkg/iso9660/ioutil.go:167-183 | nothing but a number in both byte orders is taken for one |
| `RockRidge.NewName` | pkg/iso9660/rrip/nm.go:45-65 | succeeds exactly on valid names, with the chunks of at most 250 bytes, all but the last continued |
| `RockRidge.DecodeName` | pkg/iso9660/rrip/nm.go:117-129 | joins the name entries up to the first that is not continued |
| `RockRidge.NameEntriesValid` | pkg/iso9660/rrip/nm.go:45-115 | every entry of a name of any length fits its one-byte length |
| `RockRidge.NameEntriesFull` | pkg/iso9660/rrip/nm.go:50-63 | every entry of a name that is continued is as long as an entry can be |
| `RockRidge.NameAmongOthers` | pkg/iso9660/rrip/nm.go:45-129 | a name of any positive length survives splitting and joining, wherever its entries stand among others |
| `RockRidge.NewSymlink` | pkg/iso9660/rrip/sl.go:143-165 | succeeds exactly if every segment is valid, with the components of all segments in order, the last one terminal |
| `RockRidge.DecodeSymlink` | pkg/iso9660/rrip/sl.go:220-255 | rejoins segments; special components never end the link |
| `RockRidge.LinkValid` | pkg/iso9660/rrip/sl.go:42-85 | every entry of a link to any target fits its one-byte length |
| `RockRidge.LinkFull` | pkg/iso9660/rrip/sl.go:64-84 | a segment of a link is only cut where an entry is full |
| `RockRidge.LinkRoundTrip` | pkg/iso9660/rrip/sl.go:42-255 | a cleaned target is read back from among other entries exactly if its last segment is ordinary; otherwise no link is found |
| `RockRidge.ParentLinkIsLost` | pkg/iso9660/rrip/sl.go:229-249 | a link to `..` is written and then not found |
| `RockRidge.JoinSplit` | pkg/iso9660/rrip/sl.go:143-146 | joining the segments of a path gives the path |
| `RockRidge.SplitWhole` | pkg/iso9660/rrip/sl.go:143-146 | no segment holds a slash |
| `InodeEntries.InodeSystemUseEntries` | pkg/iso9660/inode.go:155-207 | succeeds exactly if the name and every segment of a link's target are valid, with the entries in their order |
| `InodeEntries.SystemUseValid` | pkg/iso9660/inode.go:155-207 | every entry of an inode can be written, and none is a CE |
| `InodeEntries.TimesValid` | pkg/iso9660/inode.go:191-199 | the two times take 19 bytes |
| `InodeEntries.ModeIs` | pkg/iso9660/inode.go:172-180 | the mode is the POSIX type, 8 for a file, 4 for a directory and 10 for a link, with the permissions |
| `InodeEntries.PosixBytes` | pkg/iso9660/inode.go:182-189 | the bytes of the PX entry: mode, link count, owner and group 0, and the inode number |
| `InodeEntries.TimesBytes` | pkg/iso9660/inode.go:191-199 | the bytes of the TF entry: the bits of creation and modification, and then the two times in this order |
| `InodeEntries.Markers` | pkg/iso9660/inode.go:158-164 | only `.` of the root has the SP entry, as the first; directories and no others have the extension references |
| `FileInfos.Inform` | pkg/iso9660/walk.go:391-462 | what is shown of a record is made from its entries, expanded through the image, or the decoding error |
| `FileInfos.MakeInfo` | pkg/iso9660/walk.go:398-460 | name, size, mode, link count, inode number, time, address and target from the entries, with the defaults where an entry is missing |
| `FileInfos.ModeTells` | pkg/iso9660/walk.go:420-431 | type and permissions survive in the mode |
| `FileInfos.KindsOfTypes` | pkg/iso9660/walk.go:420-431 | what each POSIX file type is shown as; a block device and a socket are shown as directories |
| `FileInfos.TimesShown` | pkg/iso9660/walk.go:433-440 | of the times read back, the first is the creation and the second the modification |
| `FileInfos.InodeShown` | pkg/iso9660/walk.go:391-462 | from an inode's own entries, just what the inode is: its name, attributes and time, and a link's target exactly if its last segment is ordinary |
| `Continuation.ContinuationArea.Append` | pkg/iso9660/continuation.go:33-92 | nested loops and recursion terminate and compute `Appended`: entries popped until the rest fits with a CE, a new sector if nothing fits, the overflow spilled |
| `Continuation.Pop` | pkg/iso9660/continuation.go:46-60 | keeps the longest run of entries that fits, leaving room for a CE if any entry goes |
| `Continuation.SpillOpens` | pkg/iso9660/continuation.go:77-90 | what is spilled never fits the room left in its sector, so the recursion opens a new one |
| `Continuation.AppendKeeps` | pkg/iso9660/continuation.go:33-92 | every append leaves no sector empty or overfull, only grows sectors at their ends, and returns a CE whose chain leads to exactly its entries, run by run, each ended by the CE for the start of the next sector |
| `Continuation.ChainKept` | pkg/iso9660/continuation.go:33-92 | later appends disturb no chain |
| `Continuation.ContinuationArea.WriteTo` | pkg/iso9660/continuation.go:98-120 | writes exactly one sector's bytes per sector |
| `Continuation.RunBytes` | pkg/iso9660/continuation.go:98-120 | a run of entries lies in its sector at the sum of the lengths before it |
| `Expansion.AllSystemUseEntries` | pkg/iso9660/walk.go:287-311 | whenever the worklist comes to an end, the result is the expansion in worklist order, or the decoding error |
| `Expansion.FuelIrrelevant` | pkg/iso9660/walk.go:287-311 | the expansion does not depend on the bound by which it is defined |
| `Expansion.ReadRun` | pkg/iso9660/walk.go:294-303 | following a CE that describes a run yields the run, for areas below block 2^21 |
| `Expansion.ChainExpands` | pkg/iso9660/walk.go:287-311 | a list that ends in a CE comes out as the list and all that its chain leads to, in order |
| `Directory.EncodeRecordLen` | pkg/iso9660/directoryrecord.go:52-148 | a record takes exactly the length it declares |
| `Directory.RecordRoundTrip` | pkg/iso9660/directoryrecord.go:52-213 | every valid record is read back, all fields and entries |
| `Directory.DecodesExactly` | pkg/iso9660/directoryrecord.go:151-213 | exactly the bytes that start like a record, with entries behind, are decoded as that record |
| `RecordScan.PieceInPlace` | pkg/iso9660/directory.go:43-66 | every record lies in the extent at its computed start |
| `RecordScan.NoPieceCrosses` | pkg/iso9660/directory.go:43-66 | no record lies across a sector boundary |
| `RecordScan.NoNeedlessGap` | pkg/iso9660/directory.go:50-56 | a record follows the one before without padding exactly if it fits in that sector, and else starts the next one |
| `RecordScan.ExtentRoundTrip` | pkg/iso9660/directory.go:68-98 | scanning from any record on yields the records that follow; padding is never taken for a record |
| `DirectoryExtent.WriteTo` | pkg/iso9660/directory.go:43-66 | succeeds exactly if every record, every identifier and the whole directory are small enough, with the records laid out sector by sector |
| `DirectoryExtent.DecodeDirectory` | pkg/iso9660/directory.go:68-98 | the loop computes the list of records, or fails |
| `DirectoryExtent.WrittenRoundTrip` | pkg/iso9660/directory.go:43-98 | any list of records is decoded as written, with the last sector padded out or not |
| `DirectoryExtent.NoRecordCrosses` | pkg/iso9660/directory.go:41-66 | every record's bytes lie in one sector |
| `Inode.InodeParts` | pkg/iso9660/inode.go:97-125 | succeeds exactly if no part starts past the last block address, with contiguous parts |
| `Inode.PartsContiguous` | pkg/iso9660/inode.go:97-125 | each part starts where the one before ends |
| `Inode.PartSizesSum` | pkg/iso9660/inode.go:97-125 | sizes add up to the file's; all parts but the last are full and sector-aligned |
| `Inode.SectorCountsAgree` | pkg/vdisc/builder.go:302-308 | the sectors of all parts add up to the builder's independent count, for every size below 2^32 sectors |
| `Inode.InodeAllocator.Next` | pkg/iso9660/inode.go:145-153 | numbers are never repeated and never zero; it fails exactly when all are used |
| `Identifier.IdentifiersDiffer` | pkg/iso9660/identifier.go:35-44 | identifiers never repeat, not even between a directory and another child |
| `Identifier.IdentifierFits` | pkg/iso9660/identifier.go:35-44 | identifiers have 1 to 18 bytes, so a record can always hold one |
| `Identifier.UvarintRoundTrip` | pkg/iso9660/identifier.go:36-38 | the varint of the counter can be read back |
| `Identifier.Base32Injective` | pkg/iso9660/identifier.go:40-43 | different bytes have different padded encodings |
| `Identifier.LetterIs` | pkg/iso9660/identifier.go:22-24 | the letters are the alphabet of section 6 of RFC 4648 |
| `Identifier.BlockDecodes` | pkg/iso9660/identifier.go:40-43 | eight letters, read as a number in base 32, are the five bytes, read as one in base 256 |
| `Identifier.FirstIdentifiers` | pkg/iso9660/identifier.go:35-44 | the identifiers of the first file and the first directory, letter by letter |
| `Identifier.IdentifierAllocator.Next` | pkg/iso9660/identifier.go:35-44 | the identifier is one never given out before, until the 64-bit counter wraps around; then they come again in the same order |
| `DirectoryInodes.DirectoryInode.AddChild` | pkg/iso9660/directoryinode.go:109-134 | adds a child exactly if its name is allowed and new, under an identifier not used before; otherwise changes nothing |
| `DirectoryInodes.DirectoryInode.GetChild` | pkg/iso9660/directoryinode.go:137-146 | finds exactly the children added, by name |
| `DirectoryInodes.AddKeeps` | pkg/iso9660/directoryinode.go:109-134 | the maps of names and identifiers stay inverse to each other |
| `DirectoryInodes.SameNumber` | pkg/iso9660/directoryinode.go:109-134 | there are as many children as names |
| `DirectoryInodes.ValidatorsAgree` | pkg/iso9660/namevalidator.go:33-90 | a name that either volume takes is a valid Rock Ridge name, so that it can be written |
| `Visiting.VisitDirectories` | pkg/iso9660/directoryinode.go:202-234 | visits the directories level by level, from the root down, every one exactly as often as it occurs, and none before its parent |
| `Visiting.VisitFiles` | pkg/iso9660/directoryinode.go:237-262 | visits the files of the directories in that order, every one exactly as often as it occurs |
| `Visiting.ToPathTable` | pkg/iso9660/directoryinode.go:355-381 | one entry per visit, with its identifier and the number of the visit to its parent, modulo 2^16; it panics exactly if a parent was never visited |
| `Packing.SplitInode` | pkg/iso9660/directoryinode.go:275-324 | the records of all parts, with the list of entries they share as the last part left it |
| `Packing.RecordsOk` | pkg/iso9660/directoryinode.go:300-321 | every record fits in 255 bytes, whatever later parts put into the shared list |
| `Packing.SplitKeeps` | pkg/iso9660/directoryinode.go:316-319 | the continuation area stays in order and only grows |
| `ToDirectory.PackAll` | pkg/iso9660/directoryinode.go:271-352 | packs `.`, `..` and all children in order |
| `ToDirectory.PackInOrder` | pkg/iso9660/directoryinode.go:271-352 | every record of a packed directory can be written, and its area is in order |
| `ToDirectory.ItemRecords` | pkg/iso9660/directoryinode.go:281-298 | each item has one record per part, in place, with the part's address and size, the item's identifier and time, volume 1, the directory flag exactly on directories, the flag for further records exactly on all parts but the last, and no other flag |
| `ToDirectory.AppendedSame` | pkg/iso9660/continuation.go:33-92 | an append takes the same room wherever the area lies |
| `ToDirectory.PackSame` | pkg/iso9660/directoryinode.go:271-352 | no record's length and no area's size depends on any address |
| `Aliasing.FirstRecordReadsBack` | pkg/iso9660/directoryinode.go:281-321 | for any number of parts, the first record leads back to just the inode's entries through the image exactly if it is not clobbered; a clobbered one leads to exactly those entries and a known surplus |
| `Aliasing.ItemReadsBack` | pkg/iso9660/walk.go:287-311 | in any image that holds a directory's area, every item's first record has its identifier, address and size, and leads back to its entries exactly if not clobbered |
| `Aliasing.ClobberedIsLost` | pkg/iso9660/directoryinode.go:310-318 | a clobbered first record expands to the entries it kept, followed by the others with those behind the CE repeated once per further part |
| `FirstRecords.ClobberedExample` | pkg/iso9660/directoryinode.go:303-319 | a two-part file with a name of 165 bytes, as the first child of its directory, is clobbered |
| `FirstRecords.ClobberedFile` | pkg/iso9660/directoryinode.go:303-319 | a clobbered file has its name in one entry, and only that entry stays in the record |
| `FirstRecords.FirstRecordShows` | pkg/iso9660/walk.go:391-462 | whatever the number of parts, clobbered or not, a listing shows of the first record just what the inode is |
| `Aliasing.BagIsExpansion` | pkg/iso9660/walk.go:287-311 | an expansion ends with exactly the entries its CEs lead to, each as often |
| `Placement.AllocDir` | pkg/iso9660/volume.go:222-237 | the allocator advances by exactly the sectors of a directory and its continuation area |
| `Placement.AllocFile` | pkg/iso9660/volume.go:252-256 | allocating part by part advances by the sectors of the whole file |
| `Placement.AllocFixed` | pkg/iso9660/volume.go:207-213 | the system area, descriptors and path tables take their fixed places |
| `Placement.StartsFitIn` | pkg/iso9660/volume.go:206-263 | no planned start exceeds a block address |
| `Sectors.SectorAllocator.Alloc` | pkg/iso9660/sectorallocator.go:32-36 | gives out the next sectors, in uint32 arithmetic |
| `Sectors.BytesToSectors` | pkg/iso9660/ioutil.go:64-70 | the least number of sectors that holds the bytes, but one for none |
| `Layout.LengthsFixed` | pkg/iso9660/directoryinode.go:265-352 | the length of every directory and of its continuation area is the same in every state of the inodes |
| `Layout.PathTable` | pkg/iso9660/pathtable.go:52-82 | the encoded length does not depend on the locations |
| `Layout.PathTableReads` | pkg/iso9660/pathtable.go:52-82 | read from behind the entries before it, entry d of either table is directory d: identifier, location and parent, in the byte order of the table |
| `Layout.Volume.Measure` | pkg/iso9660/volume.go:215-223 | what a directory is measured to in the first pass does not depend on what the inodes hold meanwhile |
| `Layout.Volume.AssignAddresses` | pkg/iso9660/volume.go:206-263 | from any earlier state, every directory and file gets its planned address, and the descriptor the places of the path tables and of the root, and the size of the whole volume |
| `Layout.Volume.WriteDir` | pkg/iso9660/volume.go:333-361 | a directory and its area are written padded out, in as many sectors as were planned |
| `Layout.Volume.WriteMetadataTo` | pkg/iso9660/volume.go:265-364 | no address check can fail; the descriptor with the root's address and length, the path tables and every directory's bytes lie in their places, and the metadata ends exactly at the first file's start |
| `Descriptor.PvdRoundTrip` | pkg/iso9660/pvd.go:57-405 | a volume descriptor with allowed texts takes 2048 bytes and is read back, all fields |
| `Descriptor.LabelsRoundTrip` | pkg/iso9660/stra.go:26-39 | whatever its texts are, a descriptor is written, and read back with its texts in upper case, cut off, and with a mark in place of every character not allowed; exactly allowed texts stay as they are |
| `Descriptor.DecodedOk` | pkg/iso9660/pvd.go:240-405 | whatever is read as a descriptor can be written again |
| `Descriptor.PvdParts` | pkg/iso9660/pvd.go:57-231 | where each field lies, and what else the sector holds |
| `Descriptor.TerminatorIs` | pkg/iso9660/volume.go:304-311 | the bytes of the set terminator |
| `Descriptor.TextRoundTrip` | pkg/iso9660/ioutil.go:115-147 | a text of allowed characters survives filling up and trimming |
| `Descriptor.ReadsExactly` | pkg/iso9660/ioutil.go:115-147 | exactly a text of allowed characters in either case, filled up with spaces, is read as that text |
| `Descriptor.CharactersAre` | pkg/iso9660/stra.go:41-51 | the allowed characters are those of annex A of ECMA-119 |
| `Descriptor.WriteFront` | pkg/iso9660/volume.go:297-311 | the system area and both descriptors take 18 sectors, the primary one in sector 16 |
| `Descriptor.FrontRead` | pkg/iso9660/walk.go:185-190 | in any image that starts with the metadata, the descriptor is found as it was written |
| `ReadBack.DirectoryReadsBack` | pkg/iso9660/volume.go:333-361 | in any image that starts with the metadata, the section a directory record points to lists exactly the records packed for it, below block 2^21 |
| `ReadBack.PartReadsBack` | pkg/iso9660/directoryinode.go:281-298 | and so every part of every child is read back from the image, flags, time and volume included |
| `ReadBack.NodeReadsBack` | pkg/iso9660/walk.go:287-311 | every child's first record holds the address assigned in the first pass, and leads to just its entries exactly if not clobbered |
| `ReadBack.SectionWraps` | pkg/iso9660/walk.go:471-487 | what is read for a directory is the section at its block modulo 2^21 |
| `ReadBack.HighDirectoryIsLost` | pkg/iso9660/walk.go:471-487 | a directory from block 2^21 on whose address wraps into the system area lists nothing |
| `ReadDir.RecordIterator.Next` | pkg/iso9660/walk.go:501-544 | returns the next record past any padding with the bytes consumed, or the end, or an error |
| `ReadDir.ReadDirIterator.Gather` | pkg/iso9660/walk.go:369-389 | the look-ahead consumes exactly the records with the same identifier and keeps the next one |
| `ReadDir.ReadDirIterator.Next` | pkg/iso9660/walk.go:343-462 | each call returns the entry at the sum of all lengths returned so far, made from the image: a function of that offset alone, errors included |
| `ReadDir.CleanHalts` | pkg/iso9660/walk.go:287-311 | in a listing without an error every expansion ends |
| `ReadDir.Resume` | pkg/iso9660/walk.go:315-389 | restarting behind any number of entries yields exactly the others, and the same error if any |
| `ReadDir.ListFrom` | pkg/isofuse/dir.go:171-205 | a read returns entries from the beginning of the rest of the listing, stops only if the next does not fit, and fails only if the listing does |
| `ReadDir.ReadsAreListing` | pkg/isofuse/dir.go:171-198 | chunked reads skip and repeat nothing |
| `Listings.OneEntryPerGroup` | pkg/iso9660/walk.go:343-389 | a directory of groups of records lists one entry per group, made from its first record and all its lengths |
| `Children.OneEntryPerItem` | pkg/iso9660/walk.go:343-389 | a packed and written directory lists exactly one entry per item, in order, with the size of all its parts, if neighbours have different identifiers |
| `Children.ChildrenApart` | pkg/iso9660/directoryinode.go:328-352 | `.`, `..` and the children of a directory filled by `AddChild`, in any order, do have different identifiers |
| `Children.OneEntryPerChild` | pkg/iso9660/walk.go:343-389 | such a directory lists `.`, `..` and exactly one entry per name |
| `Children.FileSum` | pkg/iso9660/inode.go:97-125 | the parts of a file add up to its size |
| `Mounted.ChildrenShown` | pkg/iso9660/walk.go:343-462 | a directory that was filled, laid out below block 2^21 and written lists `.`, `..` and every child once, each under its name, with its attributes, its address and the size of all its parts, and the listing comes to an end without an error |
| `Mounted.FoundByName` | pkg/iso9660/directoryinode.go:109-146 | what is listed under a name is the child added under it, and nothing else is |
| `Lookup.Find` | pkg/iso9660/walk.go:257-266 | finds the first entry under a name, or that there is none, in any listing without an error |
| `Walker.Lstat` | pkg/iso9660/walk.go:180-239 | on any disc that starts with such metadata, a path leads through the descriptor and the directories to the entry of the inode that was added there; an error comes exactly if a part does not exist, or if one on the way is no directory |
| `Walker.WrittenDisc` | pkg/iso9660/volume.go:265-364 | what `WriteMetadataTo` leaves behind is such metadata |
| `Walker.OpenReads` | pkg/iso9660/walk.go:115-127 | the section opened for a file that was found is the file's bytes |
| `BurnLoad.Build` | pkg/vdisc/builder.go:183-264 | each extent has the right blocks and padding; its URL is spelled back if no later object has the same, and is empty otherwise |
| `BurnLoad.FillTrie` | pkg/vdisc/builder.go:183-189 | the trie maps each URL to the address of the last object that has it |
| `BurnLoad.UrlsRight` | pkg/vdisc/builder.go:183-264 | every extent leads to its own object exactly if no URL is repeated |
| `BurnLoad.RepeatedUrl` | pkg/vdisc/builder.go:183-264 | of two files with one URL, the extent of the first leads nowhere |
| `BurnLoad.Load` | pkg/vdisc/loader.go:100-134 | extents are indexed by position, and the image is what each contributes, in order; its last object is not empty if no extent is |
| `BurnLoad.IndexedAt` | pkg/vdisc/loader.go:100-132 | the loader files every extent under the address its object has on the volume |
| `BurnLoad.LayoutAgrees` | pkg/iso9660/volume.go:245-261 | the volume's addresses are those of the loaded image |
| `BurnLoad.LoadAgrees` | pkg/vdisc/loader.go:100-148 | whatever storage holds objects with different URLs, the loaded image is each of them, filled up with zeros to whole sectors, an empty one to one sector |
| `BurnLoad.BurnedFull` | pkg/vdisc/loader.go:107-131 | no extent of a burned disc contributes nothing |
| `Burning.Burn` | pkg/vdisc/builder.go:141-264 | from a volume and its files: every file's address in the metadata is the key of its extent and the place of its bytes in the image, the image starts with the metadata, and for every storage that holds the objects under different URLs loading yields that image |
| `Burning.ReadDisc` | pkg/vdisc/loader.go:100-148 | every read of a loaded disc yields the bytes of the image, cut short only at its end |
| `BurnLoad.WriteVolume` | pkg/iso9660/volume.go:366-409 | writes the image if no file is empty, all but its last sector if only the last file is, and else fails at an address check |
| `BurnLoad.OwnImageIs` | pkg/iso9660/volume.go:366-409 | that is the loaded image exactly if no file is empty |
| `BurnLoad.EmptyFile` | pkg/iso9660/volume.go:390-396 | an empty file before another one fails the check |

## Left out

- Trie.TrieMap.Put: keys are sequences of runes; Go's rune loop would replace invalid UTF-8.
- RockRidge.NewName: a byte of a name is checked by its value alone, while Go's check is by rune.
- RockRidge.NewSymlink: takes a cleaned target; path cleaning is not part of this model.
- InodeEntries.InodeSystemUseEntries: the two extension references of a directory are a parameter, any valid ER entries.
- FileInfos.Inform: times stay bytes, with none for a missing entry (the code shows the epoch) and for an entry without a modification time (the code dereferences nil).
- Expansion.AllSystemUseEntries: stated for lists on which its loop ends; a cycle of continuation entries never ends.
- DirectoryExtent.DecodeDirectory: extents of 2^32 bytes and more are excluded, as no directory record can name one.
- DirectoryInodes.DirectoryInode.AddChild: what the directory holds is stated until the 64-bit counter of identifiers wraps around.
- Descriptor.LabelsRoundTrip: texts are bytes, while Go's substitution is by rune.
- Layout.Volume.WriteMetadataTo: takes the tree as the lists in which it is visited, excludes trees with 2^32 sectors or with a continuation area of 2^32 bytes, and takes part starts in uint32 arithmetic where `InodeParts` would panic on addresses left from an earlier layout.
- Layout.PathTableReads: parent numbers are those given, of 16 bits as in the code, which counts from 0 (section 9.4.4 of ECMA-119 from 1).
- Visiting.ToPathTable: takes the relationships in the order in which they are visited.
- ReadBack.NodeReadsBack: the metadata must lie below block 2^21, where byte addresses fit a uint32; above, only the section read instead is stated.
- ReadDir.ReadDirIterator.Next: errors of the underlying reads are left out, and expansions must end.
- ReadDir.ListFrom: how many bytes an entry needs is a parameter.
- Walker.Lstat: with an empty cache; symbolic links are not followed, as in `lstat` itself.
- BurnLoad.Build: an extent's URL is what the trie spells; resolution against a base URL, Cap'n Proto and gzip are left out.
- DiskCache.FailuresCaused: reading a cached file that was opened and carries the right key does not fail.
- MemCache.RunsAreSafe: a slice whose read-ahead failed may be reported as ended, as in the code, until its buffer is given away.
- CmdPool.WorkIsDone: whoever sends commands takes the responses, so that sending one never blocks for ever.
- CmdPool.RunsAreSafe: a second `Close`, which closes a closed channel, is left out.
- Uploader.RunsAreSafe: uploads are of a seekable body from position 0; retries, signing and single-part uploads are left out.
- `Read`, `Seek` and negative offsets of all objects; only positioned reads are modelled.
- `addLeaf`: directories are filled by `AddChild` one at a time; the lists of a tree are not derived from `VisitDirectories` and `VisitFiles`.
- `Walk`, `stat`, `File.ReadDir`, storage drivers, FUSE and TCMU mounting, metrics and the CLI.
