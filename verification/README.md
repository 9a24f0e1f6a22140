# Data structures and protocols of the nginx core

This project models the parts of nginx 1.22.0 that everything else in the server
rests on, and proves what they promise: the red-black tree behind timers and
caches, the slab allocator and the mutex of shared memory, the thread pool, the
output chain, the open file cache, the radix tree, the static hash, the queue
sort, the dates of HTTP, the texts of addresses, the names in DNS messages, and
the message digests and checksums.

How the code's own form is kept:

- The red-black tree is a heap of `Node` objects with parent links and one
  sentinel, changed in place; the tree a node belongs to, and the place in it,
  are a ghost value tied to the heap. The root's parent is not constrained.
- The slab pool is a class over an array of page records. A record's two words
  are datatypes (`Slab`, `Tagged`) instead of tagged integers; chunk maps are
  rows of bits, scanned word by word as in the code. Addresses are counted from
  the first page, `end` is the end of the pool counted so.
- The mutex and the thread pool are state machines: one step of one process or
  thread is one atomic action, and theorems are about every finite run; that
  something is never out of reach is said by the continuation of the run that gets
  there. The wait counter wraps around at 64 bits.
- The output chain is a class with the chains and buffers of the code; the filter
  takes any number of bytes at each call. The streams are sequences of bytes and
  of marks (flush, last_buf, last_in_chain) that follow the last byte of their
  buffer. What the filter does is a function of the number of its call.
- The open file cache is a class; the file system is an oracle that answers each
  look and each open.
- The radix tree keeps its nodes in a sequence, with indices for pointers. The
  queue is a ring of `Link` objects relinked in place.
- Parsers, printers and table loops are methods with one cursor, each proved to
  compute a function about which the rest is proved.

## Where the code keeps less than it seems to promise

Each of these is kept as the code has it, shown at an input, and bounded by an
exact condition.

- A free of a chunk that holds the chunk map of its page goes through, shows the
  map as a free chunk, and breaks the pool exactly then; the range check of a free
  lets the addresses past the last page through, for which there is no page record
  (`SlabSlots.SlabPool.FreeLocked`, `SlabChunks.AcceptedIff`,
  `SlabChunks.MapSlipsThrough`).
- A copy buffer keeps the marks of its last use, so that a later copy of a part of
  a buffer sends them once more, and an empty buffer that is not special is dropped
  with its marks. The marked stream is right exactly if neither happened
  (`OutputChain.OutputChain.MarksKeptIff`); how often it happens in a call follows,
  with one copy buffer, from the buffers to come alone
  (`OutputChain.OutputChain.Output`, `OutputChain.StrayFlush`).
- A retest of a cached file loses a descriptor if the file is gone when its name is
  looked at and back when it is opened, and shares or reuses a closed one if the
  name then leads to a directory of the same inode number; nothing else breaks the
  cache (`FileCache.FileCache.OpenCached`, `FileCache.LoseDescriptor`,
  `FileCache.ShareDescriptor`).
- The date formula wraps around in January and February of the year 0
  (`ParseTime.StampIsInstant`); the day 0 is accepted; and the result for an error
  is also that of one instant (`ParseTime.ErrorIsAmbiguousIff`).
- The limit of 128 in the DNS decoder counts labels and pointers together, so that
  a legal name can be refused although the comment beside it takes the limit to be
  enough (`Resolver.WalkFinds`, `Resolver.LegalNameRefused`). The encoder lets
  labels of 64 to 255 bytes through (`Resolver.NameReadBack`).
- The two IPv6 addresses printed with an embedded 255.255.255.255 are not parsed,
  as this is the value for errors (`Inet.RoundTrip`).

## Model

| member | source | states |
|---|---|---|
| RbTree.RbTree.Insert | nginx/src/core/ngx_rbtree.c:24-93 | after the tree's own insert function and the repair loop the tree is red-black again, with parent links and sentinel right, holds one node more, and the in-order list has the new node right behind every node that does not come after it, keys as before |
| RbTree.RbTree.InsertValue | nginx/src/core/ngx_rbtree.c:96-118 | the plain descent hangs the new red leaf where the keys on the way put it, equal keys to the right |
| RbTree.RbTree.InsertTimerValue | nginx/src/core/ngx_rbtree.c:121-153 | the same with keys compared by their signed difference, which wraps around |
| RbTree.RbTree.RebalanceInserted | nginx/src/core/ngx_rbtree.c:46-93 | the repair loop ends, and turns a tree with one red node out of place into a red-black tree with the same in-order list |
| RbTree.RbTree.Delete | nginx/src/core/ngx_rbtree.c:156-315 | any node of the tree can be taken out: the rest is a red-black tree on exactly the other nodes, in the same order, and the node forgets its links |
| RbTree.RbTree.CutOutInner | nginx/src/core/ngx_rbtree.c:183-249 | a node with two children is replaced by its successor, in the node's colour, links of all neighbours right, also when the successor is its child |
| RbTree.RbTree.RebalanceDeleted | nginx/src/core/ngx_rbtree.c:250-315 | the repair loop ends, starting from the sentinel if need be, and fills the gap of one black node: the tree is red-black again with the same in-order list |
| RbTree.RbTree.LeftRotate | nginx/src/core/ngx_rbtree.c:318-345 | a left rotation at any node, the root's link included, as a change of the links of the nodes in memory |
| RbTree.RbTree.RightRotate | nginx/src/core/ngx_rbtree.c:348-375 | a right rotation likewise |
| RbTree.RbTree.Min | nginx/src/core/ngx_rbtree.h:76-84 | the node reached has no left child and is reached by left links only |
| RbTree.RbTree.First | nginx/src/core/ngx_rbtree.h:76-84 | the minimum of a tree is the first node in order |
| RbTree.RbTree.Next | nginx/src/core/ngx_rbtree.c:378-404 | the next node in order, or null after the last |
| RbShape.HeightIsLogarithmic | nginx/src/core/ngx_rbtree.c:24-93 | a red-black tree of n nodes has height at most 2 * log2(n + 1), written as 2^height <= (n + 1)^2 |
| RbBalance.FollowedPlaces | nginx/src/core/ngx_rbtree.c:96-153 | a new key at the end of a descent comes in order behind the keys that are not greater and before the others, so that equal keys stay first-in-first-out |
| RbBalance.FirstIsEarliest | nginx/src/core/ngx_rbtree.c:121-153 | while all timer keys fit in a window of half the key range, the first node has the earliest key, wrap-around included |
| RbBalance.DropsKeepsSorted | nginx/src/core/ngx_rbtree.c:156-315 | taking a node out keeps the others in order and in their window |
| SlabInit.Init | nginx/src/core/ngx_slab.c:98-165 | heads, statistics, records and aligned pages fit in the memory, which has room for fewer than two pages more; nothing is live |
| SlabInit.PagesFit | nginx/src/core/ngx_slab.c:127-155 | the number of pages, first guessed and then cut for the alignment, fits with its records |
| Slab.PagePool.constructor | nginx/src/core/ngx_slab.c:129-155 | the pool starts as one free run, with the boundary records the page functions rely on |
| Slab.PagePool.AllocPages | nginx/src/core/ngx_slab.c:677-730 | null if and only if no k contiguous pages are free, and then nothing changes; else the first k pages of a free run are allocated, the rest stays free, and pfree drops by k |
| Slab.PagePool.FreePages | nginx/src/core/ngx_slab.c:733-810 | the freed pages, and no others, join the free ones, merged with free neighbours on both sides; pfree grows by their number; no other run changes |
| SlabRuns.ServableIff | nginx/src/core/ngx_slab.c:677-730 | a long enough free run exists if and only if so many contiguous free pages exist |
| SlabRuns.ContiguousInOneRun | nginx/src/core/ngx_slab.c:733-810 | no two free runs are neighbours, so contiguous free pages lie in one |
| SlabRuns.AllFreeIsOneRun | nginx/src/core/ngx_slab.c:733-810 | with nothing allocated one free run is the whole pool |
| SlabRuns.FreePagesGrow | nginx/src/core/ngx_slab.c:733-810 | the set of free pages after a free, and its size |
| SlabSlots.SlabPool.AllocLocked | nginx/src/core/ngx_slab.c:183-417 | none if and only if there is neither a free chunk of the size class nor a page for one, or no contiguous free pages can hold the size; else exactly one block more is live, which holds the size, of the smallest class, or of less than a page too much, and the statistics count it |
| SlabSlots.SlabPool.FreeLocked | nginx/src/core/ngx_slab.c:460-674 | the verdict of the checks for every address: an accepted free ends exactly the block that starts there, a rejected one changes nothing, and the free of a chunk map is accepted and shows the map as a free chunk; the pool stays in order if and only if the address is not that of a chunk map. A record that does not exist is read exactly for the addresses from the end of the last page to the end of the pool |
| SlabSlots.SlabPool.FreeMapChunk | nginx/src/core/ngx_slab.c:496-530 | what the accepted free of a map does: its bit is cleared, the page shown with a free chunk, the statistics one less in use, and the pool is out of order |
| SlabSlots.SlabPool.FreeChunk | nginx/src/core/ngx_slab.c:482-618 | exactly one chunk less is live; its page is listed in its slot if it has others in use, and given back with its last chunk |
| SlabSlots.SlabPool.AllocationsApart | nginx/src/core/ngx_slab.c:183-417 | live blocks lie in the pool, are aligned to their size, and overlap neither each other nor a chunk map |
| SlabSlots.SlabPool.SlotListsNonFull | nginx/src/core/ngx_slab.c:183-417 | a slot lists exactly the pages of its size with a free chunk, and no page of chunks is without one in use |
| SlabSlots.SlabPool.NothingLive | nginx/src/core/ngx_slab.c:460-674 | with no block live the pool is one free run again |
| SlabChunks.LiveDisjoint | nginx/src/core/ngx_slab.c:183-417 | any two live blocks are disjoint and inside the pool, from the run layout alone |
| SlabChunks.LiveClearOfMaps | nginx/src/core/ngx_slab.c:332-358 | no live block overlaps the chunk map in a page of small chunks |
| SlabChunks.AcceptedIff | nginx/src/core/ngx_slab.c:460-674 | a free is accepted if and only if a live block starts at the address, or a chunk that holds a chunk map |
| SlabChunks.MapSlipsThrough | nginx/src/core/ngx_slab.c:482-500 | the start of every page of small chunks is accepted though no block is live there |
| SlabWords.FindShift | nginx/src/core/ngx_slab.c:208-216 | the size class is the smallest that fits |
| SlabWords.NewMap | nginx/src/core/ngx_slab.c:332-358 | the first map of a page of small chunks marks the chunks that hold the map and the one allocated, written word by word |
| SlabWords.FirstClearByWords | nginx/src/core/ngx_slab.c:232-262 | the scan over full words finds the first free chunk |
| SlabStats.StartLive | nginx/src/core/ngx_slab.c:332-400 | a fresh page turned into chunks has exactly one of them live |
| Shmtx.MutualExclusion | nginx/src/core/ngx_shmtx.c:62-161 | in every run at most one process is between taking the lock and giving it back |
| Shmtx.WaitersConserved | nginx/src/core/ngx_shmtx.c:69-196 | in every state of every run the signed wait counter, the semaphore and the posts still owed add up to the number of processes that wait |
| Shmtx.NoLostWakeup | nginx/src/core/ngx_shmtx.c:69-196 | no process sleeps on a free lock with an empty semaphore unless somebody is about to test the lock or to wake a sleeper |
| Shmtx.NeverStuck | nginx/src/core/ngx_shmtx.c:69-196 | while a process sleeps on an empty semaphore and no dead process holds the lock, another process can take a step that changes the state |
| ShmtxProgress.PostWakes | nginx/src/core/ngx_shmtx.c:111-128 | a process that sleeps goes on as soon as there is a post: it takes the post and tries the lock again, whatever the others do |
| ShmtxProgress.LockCanBeHad | nginx/src/core/ngx_shmtx.c:69-196 | from every state of every run a process inside the lock call can still get the lock; if the owner has died, with an idle process to force it open |
| ShmtxProgress.LockAlone | nginx/src/core/ngx_shmtx.c:69-132 | a process that finds the lock free gets it by its own steps, one that finds it taken goes to sleep by them, after the spin |
| ShmtxProgress.TryAlone | nginx/src/core/ngx_shmtx.c:62-66 | a try without waiting gets a free lock and gives up on a taken one |
| ShmtxProgress.UnlockFrees | nginx/src/core/ngx_shmtx.c:136-146 | giving the lock back frees it and leads on to the sleepers |
| ThreadPool.WaitingCounts | nginx/src/core/ngx_thread_pool.c:230-361 | in every run waiting is the number of queued tasks less the threads that have decremented it and not dequeued yet |
| ThreadPool.JobsRunOnce | nginx/src/core/ngx_thread_pool.c:277-394 | a job taken is either with exactly one thread or in the done list or beyond, never twice |
| ThreadPool.QueueIsFifo | nginx/src/core/ngx_thread_pool.c:230-361 | the queue holds the posted jobs in the order of their posts, from the first not taken on |
| ThreadPool.ActiveMeansOneOpenJob | nginx/src/core/ngx_thread_pool.c:230-394 | a task is active if and only if one job of it is open, and then only one |
| ThreadPool.NoLostSignal | nginx/src/core/ngx_thread_pool.c:230-361 | a queue with work never meets a pool that is all asleep unsignalled; sleepers are left only while as many threads as jobs are on their way |
| ThreadPool.QueueStaysBounded | nginx/src/core/ngx_thread_pool.c:243-264 | the queue never outgrows max_queue by more than the number of threads |
| ThreadPool.NoLostCompletion | nginx/src/core/ngx_thread_pool.c:332-394 | a finished job on the done list is always announced to the event loop |
| PoolProgress.PostOutcome | nginx/src/core/ngx_thread_pool.c:230-274 | the post of a task is refused, with nothing changed, if and only if max_queue or more wait when that is tested; else it is active and its job was queued as the last |
| PoolProgress.JobCanBeCompleted | nginx/src/core/ngx_thread_pool.c:230-394 | from every state of every run an open job can still be run and completed, as long as there is a thread |
| PoolProgress.TaskCanBePosted | nginx/src/core/ngx_thread_pool.c:230-394 | from every state of every run a task can still be made active, as long as there is a thread and room for one |
| OutputChain.OutputChain.Output | nginx/src/core/ngx_output_chain.c:41-240 | over any calls, with any filter: bytes and marks that came in grow by exactly the argument's, nothing is lost or repeated, at most bufs.num buffers are allocated, NGX_OK leaves nothing behind; no mark strays in a call if copy buffers have none and only the last buffer to come has marks and needs a copy, which holds for good if not even that one does; and with one copy buffer the marks that stray or are lost until all has gone out are, whatever the filter takes, exactly those counted from the buffers to come; the answer is that of the filter to its last call, or NGX_AGAIN with all copy buffers made, none free and the first busy one not all sent, or NGX_ERROR for a failed read; and if the filter takes all each time and reads succeed, the call ends with NGX_OK and all that came in has been taken |
| OutputChain.StrayFlush | nginx/src/core/ngx_output_chain.c:101-210 | two buffers for which one flush goes out twice, whatever the filter takes and when; with a filter that takes all, the call ends with NGX_OK |
| Sole.TallyCopy | nginx/src/core/ngx_output_chain.c:498-649 | with one copy buffer a copy moves one stray mark from those to come to those that came, or none |
| OutputChain.OutputChain.MarksKeptIff | nginx/src/core/ngx_output_chain.c:41-240 | bytes taken, on their way and left are always those that came in; with the marks, if and only if no mark was ever sent twice or dropped |
| OutputChain.OutputChain.CopyBuffersApart | nginx/src/core/ngx_output_chain.c:41-240 | a buffer that may be written to is neither with the filter nor in the input |
| OutputChain.OutputChain.CheckAsIs | nginx/src/core/ngx_output_chain.c:243-300 | the test whether a buffer passes without a copy; all it clears is in_file of a buffer that is in memory too |
| Chains.PassesIff | nginx/src/core/ngx_output_chain.c:243-300 | what a buffer that passes as it is has to have: bytes in memory if the mode or the file asks for that, and memory that may be written to |
| Homes.WithFilter | nginx/src/core/ngx_buf.c:184-223 | a busy copy buffer that is not all sent is with the filter |
| OutputChain.OutputChain.CopyBuf | nginx/src/core/ngx_output_chain.c:498-649 | a copy moves the first bytes of the source to the buffer, and with the last of them the marks |
| OutputChain.OutputChain.BackOne | nginx/src/core/ngx_buf.c:184-223 | a buffer comes back free only once all of it was taken |
| Chains.CopyTokens | nginx/src/core/ngx_output_chain.c:498-649 | what a copy adds to the output and takes from its source: the same bytes, and either the source's marks or those the copy buffer had |
| Streams.GoingCopy | nginx/src/core/ngx_output_chain.c:189-210 | one copy keeps the streams, and counts a fault exactly if a part goes into a buffer that has marks |
| Streams.GoingDrop | nginx/src/core/ngx_output_chain.c:101-122 | dropping an empty buffer keeps the bytes, and counts a fault exactly if it had marks |
| Streams.FlushStrays | nginx/src/core/ngx_output_chain.c:498-649 | a run of three copies after which the flush of a first response goes out once more in the middle of a second |
| Marking.SameIffNoFault | nginx/src/core/ngx_output_chain.c:498-649 | two records of a marked stream that differ by a stray or lost mark never agree again |
| Bufs.UpdateSent | nginx/src/core/ngx_buf.c:271-314 | what is left of a chain after so many bytes were sent is exactly what flowed before without its first bytes, marks included |
| FileCache.FileCache.OpenCached | nginx/src/core/ngx_open_file_cache.c:143-486 | the answer is the entry's if that is young enough and has the number wanted, if any, and the file system's else; an old descriptor is the answer only then or if the name still has its number; what the file system says is remembered, errors if asked, and an entry just used is the first of the queue; requests keep their descriptors, a new one is registered; and the cache stays in order if and only if the retest meets neither of the two cases named above |
| FileCache.LoseDescriptor | nginx/src/core/ngx_open_file_cache.c:271-345 | a run of two opens that breaks the cache: a descriptor that nobody owns stays open |
| FileCache.ShareDescriptor | nginx/src/core/ngx_open_file_cache.c:295-345 | a run of two opens that breaks the cache: two entries with one descriptor |
| FileCache.FileCache.Cleanup | nginx/src/core/ngx_open_file_cache.c:1017-1028 | a request gives its use back; the cache stays in order |
| FileCache.FileCache.CloseCached | nginx/src/core/ngx_open_file_cache.c:1031-1074 | a descriptor is closed exactly if no request uses it and its entry was used too rarely or is out of the tree, and at most once; entries out of the tree go with their last use |
| FileCache.FileCache.Expire | nginx/src/core/ngx_open_file_cache.c:1094-1142 | the entries that go are the last of the queue, each unused for longer than allowed but for a first one that goes by force; at most two go, or three with that one, and fewer only if the queue is empty or its last entry was used lately; the others stay as they are |
| FileCache.OpenAndStat | nginx/src/core/ngx_open_file_cache.c:839-945 | what a look at a name finds, keeping the descriptor of an unchanged file |
| FileCache.LookTells | nginx/src/core/ngx_open_file_cache.c:839-945 | a descriptor is kept exactly if the name has the number of its file, a new one is a file's that was opened, an error is one that was met |
| FileState.HeldIsOpen | nginx/src/core/ngx_open_file_cache.c:143-486 | a descriptor that a request holds is open and its entry still there |
| FileState.OpenIsCachedOrHeld | nginx/src/core/ngx_open_file_cache.c:1031-1074 | every open descriptor is in a cached entry or held by a request |
| Radix.RadixTree.Find | nginx/src/core/ngx_radix_tree.c:236-263 | the value of the longest stored prefix of the key, or none |
| Radix.RadixTree.Insert | nginx/src/core/ngx_radix_tree.c:108-170 | busy if and only if the prefix is stored; else exactly this prefix is added, new nodes are made only when the free list is used up |
| Radix.RadixTree.Delete | nginx/src/core/ngx_radix_tree.c:173-233 | ok if and only if the prefix is stored; exactly it goes, every leaf left without a value is pruned, and its nodes go to the free list with none lost |
| Radix.RadixTree.CutLeaf | nginx/src/core/ngx_radix_tree.c:206-216 | a leaf is unlinked from its parent and put on the free list |
| Radix.PrefixIn | nginx/src/core/ngx_radix_tree.c:108-170 | every prefix of a prefix in the tree is in the tree |
| Times.CivilDay | nginx/src/core/ngx_times.c:323-400 | the Gauss formula gives the valid Gregorian date with that day count |
| Times.GmTime | nginx/src/core/ngx_times.c:323-425 | date, clock and weekday of every instant, clamped to 1970 to 9999 |
| ParseTime.NamesOf2022 | nginx/src/core/ngx_times.c:61-63 | all names of months and days, at dates that are known |
| ParseTime.OneInstant | nginx/src/core/ngx_parse_time.c:14-277 | the example of RFC 9110 in the three formats |
| Calendar.GaussIsDayNumber | nginx/src/core/ngx_parse_time.c:236-262 | the closed formula counts the days as the calendar does year by year and month by month |
| Calendar.DateIsUnique | nginx/src/core/ngx_times.c:323-425 | two dates and clocks with the same second count are the same |
| ParseTime.ParseHttpTime | nginx/src/core/ngx_parse_time.c:14-277 | the cursor of the parser stays in the text and reads what the three formats say; the result is the formula's, or -1 |
| ParseTime.HttpTime | nginx/src/core/ngx_times.c:278-293 | the text of an instant parses to that instant |
| ParseTime.ShowDate | nginx/src/core/ngx_times.c:323-425 | showing the instant of a valid date from 1970 to 9999 gives the date back |
| ParseTime.TextParses | nginx/src/core/ngx_parse_time.c:14-277 | the preferred format of a date parses to its instant, for years from 1000 |
| ParseTime.AsctimeParses | nginx/src/core/ngx_parse_time.c:149-172 | the asctime format parses to the instant if and only if the date is not in January or February of the year 0 |
| ParseTime.Rfc850Parses | nginx/src/core/ngx_parse_time.c:139-147 | the two-digit format parses to the instant for 1970 to 2069 |
| ParseTime.StampIsInstant | nginx/src/core/ngx_parse_time.c:236-276 | the formula in 64-bit arithmetic gives the instant if and only if the year does not wrap around |
| ParseTime.ErrorIsAmbiguousIff | nginx/src/core/ngx_parse_time.c:223-276 | a text parses to -1 if and only if it names the last second of 1969, the day 0 of January 1970 being that day too; from 1970 and day 1 on -1 means an error |
| ParseTime.ErrorIsAmbiguous | nginx/src/core/ngx_parse_time.c:223-276 | both texts occur |
| Hash.Init | nginx/src/core/ngx_hash.c:251-486 | each error exactly in its case; else the first size whose buckets are short enough, or the last, and a table in which each bucket lists its names in order and ends, no two elements overlapping |
| Hash.Find | nginx/src/core/ngx_hash.c:12-49 | the walk ends, inside its bucket, at the first element with the name, or with none |
| Hash.BucketEnough | nginx/src/core/ngx_hash.c:12-49 | the bucket of a query's key holds every name that could match it, in order |
| Hash.Query | nginx/src/core/ngx_hash.c:12-49 | built for names hashed in lower case, the table gives the value of the first that is the query, letter case aside, or none |
| Hash.SpotsClear | nginx/src/core/ngx_hash.c:423-450 | elements and bucket ends do not overlap |
| Hash.KeyLc | nginx/src/core/ngx_hash.c:649-661 | the key of a text is that of its lower-cased form, in 64 bits |
| Hash.OneKey | nginx/src/core/ngx_hash.c:633-662 | a key that is known |
| Inet.LongestRun | nginx/src/core/ngx_inet.c:306-332 | one pass finds the first of the longest runs of two zero groups or more |
| Inet.Ntop | nginx/src/core/ngx_inet.c:295-369 | the text of an address, with "::" for that run and the last groups as IPv4 where the code does so |
| Inet.Inet6Addr | nginx/src/core/ngx_inet.c:64-177 | the parser, with the zeros of "::" spread in place, computes the address that the text says, or an error |
| Inet.HexBoth | nginx/src/core/ngx_inet.c:135-147 | digits of both cases mean the same |
| Inet.InetAddr | nginx/src/core/ngx_inet.c:19-59 | the IPv4 parser, whose value for errors is also that of 255.255.255.255 |
| Inet.ParsesBack | nginx/src/core/ngx_inet.c:64-177 | what the printer writes the parser reads back, but for the texts that end in 255.255.255.255 |
| Inet.RoundTrip | nginx/src/core/ngx_inet.c:64-177 | printing and parsing gives the same sixteen bytes if and only if the address is not one of two |
| Resolver.Copy | nginx/src/core/ngx_resolver.c:3940-4034 | for every message and start inside it: an error, or the name in lower case with dots; all reads are inside the message |
| Resolver.Retrace | nginx/src/core/ngx_resolver.c:4015-4033 | the second pass, without bounds of its own, ends and fills exactly the bytes the first pass counted |
| Resolver.WalkFinds | nginx/src/core/ngx_resolver.c:3950-3990 | a name is found if and only if its labels and pointers are fewer than 128, else taken for a loop |
| Resolver.FoundIsSpelled | nginx/src/core/ngx_resolver.c:3950-3990 | a name found is the one that the bytes spell |
| Resolver.EncodeName | nginx/src/core/ngx_resolver.c:3693-3724 | a name is encoded, from its end, if and only if no part is empty or over 255 bytes |
| Resolver.NameReadBack | nginx/src/core/ngx_resolver.c:3693-3724 | an encoded name, anywhere in a message, is read back in lower case if and only if its labels are at most 63 bytes long and at most 127 |
| Resolver.LongNotRead | nginx/src/core/ngx_resolver.c:3950-3990 | no message whatever gives back a name with a label of 64 bytes or more |
| Resolver.LegalNameRefused | nginx/src/core/ngx_resolver.c:3950-3990 | a name of 129 bytes, behind the header of a message, each label but the first behind a pointer, is refused |
| Queue.Sort | nginx/src/core/ngx_queue.c:50-80 | for any comparison the ring is relinked, in place, to the same head and the insertion-sorted members |
| Queue.SortedIsStable | nginx/src/core/ngx_queue.c:50-80 | for a total preorder the result has the same members, in order, equal ones as they were |
| Queue.StableIsUnique | nginx/src/core/ngx_queue.c:50-80 | no other arrangement is both ordered and stable |
| Queue.Middle | nginx/src/core/ngx_queue.c:17-45 | the member at index n / 2 of any ring, the head of an empty one |
| Queue.InsertTail | nginx/src/core/ngx_queue.h:43-47 | a new member becomes the last |
| Queue.Split | nginx/src/core/ngx_queue.h:87-93 | the members from q on move to the new head, both rings whole |
| Queue.Add | nginx/src/core/ngx_queue.h:96-100 | the members of one ring move to the end of the other, an empty one included |
| Queue.RingIsDetermined | nginx/src/core/ngx_queue.h:24-100 | a ring has one reading |
| Digest.Context.Update | nginx/src/core/ngx_md5.c:30-58 | the context stands for the whole message so far, however it was split |
| Digest.Context.Final | nginx/src/core/ngx_md5.c:61-111 | the result is the words of the state, byte by byte, after compressing the once-padded whole message block by block; SHA-1 differs in the order of the bytes |
| Digest.StartBytes | nginx/src/core/ngx_md5.c:18-27 | the start states of MD5 and SHA-1 as bytes, each in its order |
| Digest.OneBytePadded | nginx/src/core/ngx_sha1.c:63-117 | a message of one byte as it is padded for MD5 and for SHA-1 |
| Digest.ResultTells | nginx/src/core/ngx_md5.c:92-110 | no two states give the same result bytes |
| Digest.Context.Body | nginx/src/core/ngx_sha1.c:156-294 | the blocks of the data are compressed in order |
| Digest.BlocksJoin | nginx/src/core/ngx_sha1.c:32-60 | whole blocks in two pieces give the state of the two in one |
| Digest.PaddingTellsApart | nginx/src/core/ngx_sha1.c:63-117 | messages below 2^61 bytes are told apart by their padding |
| Digest.PaddedShort | nginx/src/core/ngx_sha1.c:63-117 | the padding is the shortest that leaves room for the length |
| Crc32.CrcShort | nginx/src/core/ngx_crc32.h:20-35 | half a byte at a time, with the table of 16: the division by the polynomial, bit by bit |
| Crc32.CrcLong | nginx/src/core/ngx_crc32.h:38-50 | a byte at a time, with the table of 256: the same |
| Crc32.Update | nginx/src/core/ngx_crc32.h:58-69 | the remainder carried on over the data |
| Crc32.UpdatesJoin | nginx/src/core/ngx_crc32.h:58-69 | updating by two pieces is updating by both in one |
| Crc32.Table256Is | nginx/src/core/ngx_crc32.c:34-99 | each of the 256 entries is eight steps of the division |
| Crc32.Table16Is | nginx/src/core/ngx_crc32.c:26-31 | each of the 16 entries is four steps |

## Left out

- SlabSlots.SlabPool.FreeLocked: says nothing of what happens after a page record that does not exist is read.
- SlabInit.Init: memory without room for a page is excluded, for which the code starts with a free run of no pages; `min_size` and the log fields are not modelled.
- Slab: the page size is fixed at 4096, min_shift at 3 and the word at 64 bits; `ngx_slab_calloc`, junk filling and the log are not modelled.
- ShmtxProgress.LockCanBeHad: says that the lock can still be had, not that it will be, which takes a fair scheduler; so do `PoolProgress.JobCanBeCompleted` and `PoolProgress.TaskCanBePosted`.
- Shmtx: the variants without atomic operations and with file locks, and failures of the semaphore other than by a signal.
- ThreadPool: creation and teardown of the pool, and failures of its primitives; the done list is that of one pool, though several pools of a process share it.
- OutputChain.OutputChain.Output: with two or more copy buffers, which marks stray depends on what the filter takes and when; only the condition under which none does is given then, and for one copy buffer only without files read around the page cache. The filter that takes all is one that would take more than there is, as an empty buffer behind exactly all bytes taken stays in the chain. It says nothing of the streams after NGX_ERROR or NGX_DONE, when the caller gives the request up; asynchronous and threaded reads, NGX_SENDFILE_LIMIT, negative buffer sizes and failed allocations are not modelled.
- FileCache.FileCache.OpenCached: the tree is a map from names to entries instead of the red-black tree over checksums; vnode events, symlink checks, access times, sizes and failed allocations are not modelled; fields of a new entry that the code leaves unset are taken as false; descriptors are never reused, and fewer than 2^24 requests hold files.
- Radix.RadixTree.Delete: not for the empty prefix on a childless root, whose parent the code follows; preallocation, the value that stands for none, and the 128-bit tree are not modelled.
- RbTree: the position of a node in a larger struct; the comparison functions of the file cache and the resolver.
- ParseTime: 32-bit `time_t`; the cached time strings, the cookie and log formats.
- Hash.Init: with no name at all the bucket size must have room for one element, as the code divides by it; cache lines have 64 bytes; failed allocations, wildcard hashes, `ngx_hash_add_key` and the combined lookup are not modelled.
- Inet: the other printers and the URL parsers.
- Resolver: the rest of the resolver; the header of the query.
- Digest: the compression functions of MD5 and SHA-1 stay parameters.
- Crc32: the alignment of the short table.
- Everything that waits for the operating system: sockets, events, signals, configuration, logging.
