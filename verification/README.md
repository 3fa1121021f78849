# The nginx 1.8.1 core: data structures, protocols and codecs

This project models the hard parts of the C library in `server/ngx_cpp/nginx/src/core` and proves what that code is for.
Code that changes memory step by step is a class or a method with loops here, proved against a specification; the
laws are lemmas about the specifications. All results are for all inputs, all runs or all reachable states.

| files | component |
|---|---|
| `RbShape`, `RbBalance`, `RbOrder`, `RbTree` | the red-black tree with parent links and one shared sentinel, with both comparators |
| `Shmtx` | the mutex in shared memory: lock word, waiter counter and semaphore, as atomic steps of any number of processes |
| `CacheState`, `OpenFileCache`, `FileLookup` | the cache of open files: tree, queue, use counts and descriptors |
| `Buf`, `ChainState`, `OutputChain` | the output chain, with its bounded number of temporary buffers, and the chain writer below it |
| `PackedHash`, `Wildcard`, `WildcardHash` | the byte-packed static hash, and the trie for wildcard host names |
| `Radix` | the radix tree for IPv4 prefixes, with its free list |
| `Pool` | the pool allocator, and the array that grows in it |
| `ConfToken`, `ConfWords` | the tokenizer for configuration files, with its sliding window, and what it makes of a text |
| `DnsName` | DNS question names, there and back |
| `Md5Rounds`, `Md5`, `Crc32` | streaming MD5 with its 64 steps, and the two table-driven forms of CRC-32 |
| `ParseTime` | times such as "1h 30m", with guards against overflow |
| `Queue` | intrusive circular lists: links, middle, and the stable sort |

How the models are laid out:

- The memory of the red-black tree, the radix tree and the queue is a heap of nodes. The red-black proofs follow the code
  with a pair of a subtree and the frames above it; the parent link of the root is not part of the invariant, because
  deletion leaves it stale and nothing reads it.
- Several invariants are stated as "the set of places where it fails is empty" (`Faults`, `Gaps`, `Harm`, `Astray` and
  so on); a lemma next to each says what that means.
- The operating system, the connection and the memory allocator answer as they like. Their answers are parameters
  (`Os`, `System`), nondeterministic choices, or addresses about which only freshness is known.
- Pointers into byte buffers are positions; 64-bit wrap-around is written out where the code relies on it (timer keys,
  the test for room in a pool block, the MD5 byte counter, `ngx_int_t` in times).

Some results say that the code does not keep a promise, and exactly when it does:

- The open file cache gives a descriptor to two owners, or closes it and keeps it, if and only if `OpenFileCache.Clash`
  holds: stat sees a directory with the inode number of the cached file. The comparison leaves out the device, so a mount
  or a renamed path is enough.
- It loses a descriptor if and only if `OpenFileCache.Race` holds: stat sees another inode, and the open that follows gets
  the cached one again.
- An array grows without memory if and only if a size or an address wraps around at 64 bits (`Pool.Array.Sized`).
- A hash table runs over the room of a bucket if and only if the bucket needs 64 KB (`PackedHash.RoomIs`), which only the
  fallback to max_size allows when bucket_size is small.
- Deleting the empty prefix from a radix tree without other nodes follows a null link, and nothing else does
  (`Radix.RadixTree.Delete`).
- A copy in a temporary buffer that was used before keeps the flush flags of its last use unless it has the last byte of
  its source (`OutputChain.FilledFlags`).
- A variable in braces at the start of a bare word is not read as one: the brace opens a block (`ConfWords.DollarFirst`);
  further on in a word, and in quotes, it is (`ConfWords.Reads`).
- A wakeup of the mutex is lost if and only if a process dies and no live process is acting (`Shmtx.WakeupIff`).
- A name that the DNS encoder accepts can be decoded if and only if its labels have at most 63 octets and there are at most
  127 of them, while the encoder accepts labels of up to 255.

## Model

| member | source | states |
|---|---|---|
| `RbTree.RbTree.constructor` | server/ngx_cpp/nginx/src/core/ngx_rbtree.h:44-48 | An empty tree with a black sentinel is a valid red-black tree without nodes. |
| `RbTree.RbTree.LeftRotate` | server/ngx_cpp/nginx/src/core/ngx_rbtree.c:323-350 | The pointer writes of the rotation, root and sentinel cases included; `RotL0` and `RbBalance.RotLOrder` say that the in-order sequence stays. |
| `RbTree.RbTree.RightRotate` | server/ngx_cpp/nginx/src/core/ngx_rbtree.c:353-380 | The mirror image of the left rotation. |
| `RbBalance.RotLOrder` | server/ngx_cpp/nginx/src/core/ngx_rbtree.c:323-350 | A left rotation keeps the in-order sequence of nodes. |
| `RbTree.RbTree.FindHole` | server/ngx_cpp/nginx/src/core/ngx_rbtree.c:96-118 | The search loop of both comparators ends at a hole with no greater key before it and only greater keys after it. |
| `RbTree.RbTree.Link` | server/ngx_cpp/nginx/src/core/ngx_rbtree.c:113-117 | The new node hangs as a red leaf in the hole that was found, on the right side of its parent. |
| `RbTree.RbTree.FixInsertStep` | server/ngx_cpp/nginx/src/core/ngx_rbtree.c:48-90 | One turn of the insertion fixup: one red node stays to be looked at, nearer to the root, and the in-order sequence stays. |
| `RbTree.RbTree.FixInsert` | server/ngx_cpp/nginx/src/core/ngx_rbtree.c:44-92 | The fixup ends with a red-black tree (black root, no red-red edge, equal black heights, right parent links) with the same in-order sequence. |
| `RbTree.RbTree.Insert` | server/ngx_cpp/nginx/src/core/ngx_rbtree.c:24-93 | A valid tree stays valid; the new node is put after every node whose key is not greater and before every greater one, all others keep their places. Validity includes that equal keys are in the order of insertion. |
| `RbTree.RbTree.Min` | server/ngx_cpp/nginx/src/core/ngx_rbtree.h:71-79 | The walk to the left ends at the first node, in order, of the subtree. |
| `RbTree.RbTree.Earliest` | server/ngx_cpp/nginx/src/core/ngx_rbtree.h:71-79 | On the root it gives the first node, and no node has a smaller key, by value or, for timers, by distance from the start of the half range. |
| `RbTree.RbTree.Bypass` | server/ngx_cpp/nginx/src/core/ngx_rbtree.c:185-209 | Taking out a node with at most one child; the stale parent of a new root is allowed. |
| `RbTree.RbTree.CutSubst` | server/ngx_cpp/nginx/src/core/ngx_rbtree.c:198-218 | The successor is cut out of its place, and its child gets the right parent, also when the successor is the child of the deleted node. |
| `RbTree.RbTree.PlaceSubst` | server/ngx_cpp/nginx/src/core/ngx_rbtree.c:220-249 | The successor node itself takes the place, the colour and the children of the deleted node. |
| `RbTree.RbTree.FixDelete` | server/ngx_cpp/nginx/src/core/ngx_rbtree.c:255-320 | From one missing black level below a hole to a red-black tree with the same in-order sequence. |
| `RbTree.RbTree.Delete` | server/ngx_cpp/nginx/src/core/ngx_rbtree.c:156-320 | For every valid tree and every node in it: the tree is valid again, and its in-order sequence is the old one without exactly that node. |
| `RbBalance.HeightBound` | server/ngx_cpp/nginx/src/core/ngx_rbtree.h:16-40 | A balanced tree of black height h has at least 2^h - 1 nodes. |
| `RbBalance.Logarithmic` | server/ngx_cpp/nginx/src/core/ngx_rbtree.h:16-40 | The height of a red-black tree of n nodes is at most twice the logarithm of n + 1. |
| `RbBalance.FillBal` | server/ngx_cpp/nginx/src/core/ngx_rbtree.c:44-92 | Balance around the node that a fixup looks at is balance of the whole tree. |
| `RbOrder.LessIsRank` | server/ngx_cpp/nginx/src/core/ngx_rbtree.c:121-153 | Within half the key range the wrap-around comparison is the comparison of distances from the start of the range. |
| `RbOrder.TimerCycle` | server/ngx_cpp/nginx/src/core/ngx_rbtree.c:121-153 | Beyond half the key range the comparison has cycles, so the condition is needed. |
| `RbOrder.FifoInsert` | server/ngx_cpp/nginx/src/core/ngx_rbtree.c:96-118 | A node with the latest stamp, put where its key belongs, keeps the nodes sorted by key and then by time of insertion. |
| `RbOrder.FifoRemove` | server/ngx_cpp/nginx/src/core/ngx_rbtree.c:156-320 | Taking a node out keeps the others in that order. |
| `RbOrder.FirstIsLeast` | server/ngx_cpp/nginx/src/core/ngx_rbtree.h:71-79 | The first node in that order has the least key. |
| `Shmtx.NextInv` | server/ngx_cpp/nginx/src/core/ngx_shmtx.c:62-196 | Every atomic step of every process (reads, compare-and-set, fetch-add, sem_wait with EINTR, sem_post, crashes and forced unlocks) keeps the invariant. |
| `Shmtx.RunInv` | server/ngx_cpp/nginx/src/core/ngx_shmtx.c:62-196 | The invariant holds after every finite schedule. |
| `Shmtx.MutualExclusion` | server/ngx_cpp/nginx/src/core/ngx_shmtx.c:62-161 | In every state of every run, the lock word is the pid of the only process that holds the lock. |
| `Shmtx.WaitersCounted` | server/ngx_cpp/nginx/src/core/ngx_shmtx.c:98-131 | In every state of every run, the counter plus the semaphore plus the posts under way is the number of registered waiters, and the counter stays within the number of processes on both sides of zero. |
| `Shmtx.NoLostWakeup` | server/ngx_cpp/nginx/src/core/ngx_shmtx.c:98-196 | In every state of every run without crashes in which the lock is free and a process sleeps on an empty semaphore, a live process is acting: inside lock or trylock, about to post, or inside wakeup with a waiter to count down. |
| `Shmtx.WakeupIff` | server/ngx_cpp/nginx/src/core/ngx_shmtx.c:98-196 | In every such state of every run, crashes included: the processes inside can go on until one has the lock if and only if a live process is acting. |
| `Shmtx.DeathLosesWakeup` | server/ngx_cpp/nginx/src/core/ngx_shmtx.c:182-190 | A run in which the wakeup is lost: the unlocking process dies between the count and the post. |
| `Shmtx.NoDeadlock` | server/ngx_cpp/nginx/src/core/ngx_shmtx.c:69-196 | From every such state of a run without crashes, the processes inside the mutex can go on by themselves until one has the lock. |
| `Shmtx.Acquire` | server/ngx_cpp/nginx/src/core/ngx_shmtx.c:69-133 | A process inside lock that is awake takes a free lock if it is left alone, whatever it was doing. |
| `Shmtx.WakeUp` | server/ngx_cpp/nginx/src/core/ngx_shmtx.c:164-196 | Posts that are due are made, and the sleeper that they wake takes the lock. |
| `Shmtx.TryLockFree` | server/ngx_cpp/nginx/src/core/ngx_shmtx.c:62-66 | From every state in which the lock is free, trylock by an idle process that is left alone ends with the lock word its pid and the process holding; nothing else changes. |
| `Shmtx.TryLockHeld` | server/ngx_cpp/nginx/src/core/ngx_shmtx.c:62-66 | When the lock is held, or is taken between the read and the compare-and-set, trylock ends without it, and changes nothing. |
| `Shmtx.LockFree` | server/ngx_cpp/nginx/src/core/ngx_shmtx.c:69-79 | lock takes a free lock in two steps. |
| `Shmtx.LookHeld` | server/ngx_cpp/nginx/src/core/ngx_shmtx.c:81-116 | One look at a lock that is held, or that is taken before the compare-and-set: the next pause, or the count, or the sleep. |
| `Shmtx.LockHeld` | server/ngx_cpp/nginx/src/core/ngx_shmtx.c:69-131 | With a semaphore, a process that finds the lock held looks at it after every pause, is counted exactly once, and sleeps. |
| `Shmtx.LockSpins` | server/ngx_cpp/nginx/src/core/ngx_shmtx.c:69-133 | Without one it looks for ever and changes nothing, for every number of steps. |
| `Shmtx.WakeAlone` | server/ngx_cpp/nginx/src/core/ngx_shmtx.c:164-196 | wakeup left alone takes one waiter off the count and posts once if there is a waiter, and else changes nothing. |
| `Shmtx.WakeAgain` | server/ngx_cpp/nginx/src/core/ngx_shmtx.c:178-184 | It reads the count again when the count has changed. |
| `Shmtx.Unlocks` | server/ngx_cpp/nginx/src/core/ngx_shmtx.c:136-146 | unlock by the holder frees the lock and wakes one waiter, if any; by anybody else it changes nothing. |
| `Shmtx.ForceUnlocks` | server/ngx_cpp/nginx/src/core/ngx_shmtx.c:149-161 | force_unlock of a dead process that has the lock frees it and wakes one waiter, if any; of one that has not it changes nothing. |
| `OpenFileCache.OpenFileCache.constructor` | server/ngx_cpp/nginx/src/core/ngx_open_file_cache.c:56-85 | An empty cache is valid. |
| `OpenFileCache.OpenFileCache.OpenAndStat` | server/ngx_cpp/nginx/src/core/ngx_open_file_cache.c:839-945 | What the caller is told for every answer of the system, and which descriptor is open afterwards: none is lost on an error path. |
| `OpenFileCache.OpenFileCache.CloseCachedFile` | server/ngx_cpp/nginx/src/core/ngx_open_file_cache.c:1031-1074 | An entry still in the cache goes to the head of the queue; it is closed, and freed if it has left the cache, only without users. |
| `OpenFileCache.OpenFileCache.Expire` | server/ngx_cpp/nginx/src/core/ngx_open_file_cache.c:1094-1142 | At most three entries, or two with n = 1, leave from the end of the queue; all but a forced one were idle for longer than `inactive`; when it stops early the last entry is recent. The cache stays valid. |
| `OpenFileCache.ExpiredAreOldest` | server/ngx_cpp/nginx/src/core/ngx_open_file_cache.c:1094-1142 | No entry that stays was used before an entry that goes: forced expiry removes the least recently accessed entry. |
| `OpenFileCache.OpenFileCache.Leave` | server/ngx_cpp/nginx/src/core/ngx_open_file_cache.c:1017-1024 | A request ends. The descriptor is closed exactly when this was its last user and the entry has left the cache or was used less than min_uses times; the entry is freed exactly when it has left and this was its last user; else it moves to the head of the queue. Nothing else changes. |
| `OpenFileCache.OpenFileCache.Cleanup` | server/ngx_cpp/nginx/src/core/ngx_open_file_cache.c:1017-1028 | That, and then at most two entries leave from the end of the queue, each of them idle; fewer only when the last one left is recent. The cache stays valid: descriptors of requests still running stay open. |
| `OpenFileCache.OpenFileCache.Retest` | server/ngx_cpp/nginx/src/core/ngx_open_file_cache.c:271-349 | An entry too old to be trusted is looked at again, for every answer of the system: it is served, refused, or left to its users and replaced, with every descriptor owned or closed as stated. The cache is valid afterwards unless `Clash` holds and the entry is served. |
| `OpenFileCache.OpenFileCache.Reopen` | server/ngx_cpp/nginx/src/core/ngx_open_file_cache.c:217-228 | An entry that was closed for lack of use is opened again. |
| `OpenFileCache.OpenFileCache.Answer` | server/ngx_cpp/nginx/src/core/ngx_open_file_cache.c:230-269 | A fresh entry answers without the system, and counts one more user if there is a descriptor. |
| `OpenFileCache.OpenFileCache.MakeRoom` | server/ngx_cpp/nginx/src/core/ngx_open_file_cache.c:360-364 | After the label `create` there is room: at least one and at most three entries leave from the end of a full queue, none of a queue with room. |
| `OpenFileCache.OpenFileCache.AddEntry` | server/ngx_cpp/nginx/src/core/ngx_open_file_cache.c:366-430 | The new entry is in the tree and at the head of the queue and owns the descriptor. |
| `OpenFileCache.OpenFileCache.Open` | server/ngx_cpp/nginx/src/core/ngx_open_file_cache.c:143-486 | For every valid cache, request and answer of the system: the cache is valid afterwards (tree, queue and `current` agree, current <= max, the queue is ordered by access, each descriptor has one owner, counts are the numbers of users, users' descriptors are open) if and only if `Clash` does not hold for the entry. The name has an entry afterwards exactly when it is served, or renewed with memory; the entry holds the answer, was accessed now, has one more use, and was created now exactly when the system was asked. The request gets a cleanup with its descriptor exactly when it got a file. Exactly the descriptors in `Leaks` get lost; and after a clash the descriptor is where `Doubled` says. |
| `OpenFileCache.RecentAnswers` | server/ngx_cpp/nginx/src/core/ngx_open_file_cache.c:230-269 | An entry about which the system was asked less than of.valid ago, for the same treatment of links and with the inode that the caller wants, if any, answers with its data or its error, whatever the system would say. |
| `OpenFileCache.SystemAnswers` | server/ngx_cpp/nginx/src/core/ngx_open_file_cache.c:217-318 | Without such an entry the answer is what the system says now: when there is a descriptor, or a directory is expected, a failed stat is an error with its number and no descriptor; the descriptor is kept, with the new size and times, exactly when stat sees its inode; an expected directory is not opened; else it is what open and fstat say. |
| `OpenFileCache.FateIs` | server/ngx_cpp/nginx/src/core/ngx_open_file_cache.c:217-364 | It is refused exactly when the system fails and the error has no number or is not to be cached; it gets a new entry exactly when the name has none, or when users of the old one read another file than the one under the name now. |
| `OpenFileCache.OpenFileCache.Run` | server/ngx_cpp/nginx/src/core/ngx_open_file_cache.c:143-486 | Any run of opens and cleanups whose times do not fall, from any valid cache and whatever the system answers: the cache is valid after every step until a request clashes; a request that is still running has the descriptor that it had, and it is open; a descriptor gets lost only where stat and open do not agree about the inode. |
| `OpenFileCache.RaceLoses` | server/ngx_cpp/nginx/src/core/ngx_open_file_cache.c:286-318 | A descriptor can be lost: stat() sees another inode, and the file that is then opened has the cached inode again. `Race`, a condition on the entry and on the answers, says exactly when. |
| `OpenFileCache.ClashDoubles` | server/ngx_cpp/nginx/src/core/ngx_open_file_cache.c:846-855 | The promise of one owner can fail: stat() sees a directory with the inode number of the cached file (the number alone is compared, not the device), and the directory is given the descriptor of the file. |
| `OpenFileCache.Dangling` | server/ngx_cpp/nginx/src/core/ngx_open_file_cache.c:331-340 | Why a clash without users is a fault: the descriptor is closed, and the entry has it still. |
| `OpenFileCache.Shared` | server/ngx_cpp/nginx/src/core/ngx_open_file_cache.c:343-399 | Why a clash with users is one: two entries have the same descriptor. |
| `FileLookup.Lookup` | server/ngx_cpp/nginx/src/core/ngx_open_file_cache.c:1186-1223 | In a tree ordered by hash and then by name, the walk finds the entry with the name and its hash, and NULL exactly when there is none. |
| `FileLookup.FindHole` | server/ngx_cpp/nginx/src/core/ngx_open_file_cache.c:1145-1183 | The insertion walk ends at a hole: all entries before it precede the new one, all after it follow. |
| `FileLookup.InsertedOrdered` | server/ngx_cpp/nginx/src/core/ngx_open_file_cache.c:1145-1183 | With the new entry there, and after any change that keeps the sequence of nodes, the tree is ordered again. |
| `FileLookup.RemovedOrdered` | server/ngx_cpp/nginx/src/core/ngx_open_file_cache.c:1126-1128 | Taking an entry out keeps the tree ordered. |
| `FileLookup.IsMap` | server/ngx_cpp/nginx/src/core/ngx_open_file_cache.c:1186-1223 | An ordered tree has at most one entry for a name: it is the map from names to entries that the cache is modelled with. |
| `CacheState.Refresh` | server/ngx_cpp/nginx/src/core/ngx_open_file_cache.c:397-430 | An entry of the cache changes its descriptor, its users and its time of access as allowed, and all parts of the invariant hold again. |
| `CacheState.Unlink` | server/ngx_cpp/nginx/src/core/ngx_open_file_cache.c:343-347 | An entry with users leaves the tree, the queue and `current`, and keeps its descriptor open. |
| `CacheState.Discard` | server/ngx_cpp/nginx/src/core/ngx_open_file_cache.c:1052-1074 | An entry without users is closed once and freed once. |
| `CacheState.FreeLast` | server/ngx_cpp/nginx/src/core/ngx_open_file_cache.c:1052-1074 | The last user of an entry that has left closes its descriptor and frees it. |
| `Buf.UpdateSent` | server/ngx_cpp/nginx/src/core/ngx_buf.c:305-367 | The loop computes `Sent`, whose meaning the next rows give. |
| `Buf.SentFlow` | server/ngx_cpp/nginx/src/core/ngx_buf.c:305-367 | Exactly the first `sent` bytes of the chain are gone, with the special buffers before and between them and those that come next; the rest follows in order. |
| `Buf.LeftIs` | server/ngx_cpp/nginx/src/core/ngx_buf.c:305-367 | What goes and what is left make up the whole, min(sent, all) bytes go, and what is left starts with a byte. |
| `Buf.SentSplit` | server/ngx_cpp/nginx/src/core/ngx_buf.c:305-367 | What is returned is a tail of the chain, and all buffers before it are empty. |
| `Buf.SentAdvanced` | server/ngx_cpp/nginx/src/core/ngx_buf.c:305-367 | Only the positions of buffers of the chain have moved, and only forward. |
| `Buf.UpdateChains` | server/ngx_cpp/nginx/src/core/ngx_buf.c:205-257 | The loop computes `Recycled` of the busy chain followed by the output chain. |
| `ChainState.RecycledStrips` | server/ngx_cpp/nginx/src/core/ngx_buf.c:205-257 | Exactly the empty buffers at the head of the line leave it; those with our tag are reset, all others are untouched. |
| `ChainState.RecycledGains` | server/ngx_cpp/nginx/src/core/ngx_buf.c:205-257 | Exactly those with our tag join the free chain. |
| `OutputChain.OutputChain.AsIs` | server/ngx_cpp/nginx/src/core/ngx_output_chain.c:227-281 | A buffer goes as it is exactly when it is special, or is in memory (or sendfile may be used and memory is not needed) and is not read-only where temporary memory is needed; without sendfile the file flag is cleared. |
| `OutputChain.TaggedOk` | server/ngx_cpp/nginx/src/core/ngx_output_chain.c:257-265 | Passing a buffer on changes nothing but the file flag, which is cleared exactly when sendfile may not be used and the buffer is in memory. |
| `OutputChain.OutputChain.GetBuf` | server/ngx_cpp/nginx/src/core/ngx_output_chain.c:425-498 | A new, empty temporary buffer without flags, counted within bufs.num; it has bufs.size bytes, or exactly the size of a last part that is smaller, or less than a quarter larger when there is only one buffer. |
| `OutputChain.OutputChain.CopyBuf` | server/ngx_cpp/nginx/src/core/ngx_output_chain.c:501-552 | As many bytes as fit are copied from memory or file, and the source moves on by as many. |
| `OutputChain.FilledFlags` | server/ngx_cpp/nginx/src/core/ngx_output_chain.c:525-644 | The copy has the flags of the source exactly when it has its last byte; a copy of less keeps the flags of its own last use. It stands for the file as well exactly when the source does and sendfile may be used, and then for the same bytes of it. |
| `OutputChain.OutputChain.Fill` | server/ngx_cpp/nginx/src/core/ngx_output_chain.c:98-203 | The inner loop: it stops with input left only when there is no buffer to copy into; whenever it makes output, the work left has become less. |
| `OutputChain.OutputChain.Write` | server/ngx_cpp/nginx/src/core/ngx_output_chain.c:651-763 | The writer appends what is not empty and drops exactly the bytes that the connection took, with the special buffers among them. The connection is asked unless it buffers nothing and no byte is pending. NGX_OK only when no byte is pending and the connection buffers nothing, and with nothing pending at all if it was asked; NGX_AGAIN only when something is pending or buffered. |
| `OutputChain.OutputChain.Send` | server/ngx_cpp/nginx/src/core/ngx_output_chain.c:45-224 | Across all calls without error: what was sent, then what is pending, then what is still in ctx->in is what was submitted, bytes and special buffers in order. NGX_OK only when ctx->in is empty, all bytes that were ever submitted have been sent and the connection buffers nothing; NGX_AGAIN only when something is left, pending or buffered. Input is left only with NGX_AGAIN and when all bufs.num buffers are on their way. The loop ends. |
| `ChainState.Conservation` | server/ngx_cpp/nginx/src/core/ngx_output_chain.c:45-224 | The invariant of the context gives that equation in every state between calls. |
| `ChainState.BoundedBuffers` | server/ngx_cpp/nginx/src/core/ngx_output_chain.c:45-224 | Every buffer that was allocated is free, held or on its way, and there are never more than bufs.num. |
| `ChainState.Copy` | server/ngx_cpp/nginx/src/core/ngx_output_chain.c:173-202 | Copying into an empty buffer of our own and appending it keeps the invariant: a buffer on its way is never written. |
| `ChainState.Flush` | server/ngx_cpp/nginx/src/core/ngx_output_chain.c:205-222 | Handing out the chain and taking back what was sent keeps the invariant, whatever number of bytes went. |
| `Wildcard.WildcardInit` | server/ngx_cpp/nginx/src/core/ngx_hash.c:457-599 | The loops with their recursion build `Build(names)`, for all names in order. |
| `Wildcard.Collect` | server/ngx_cpp/nginx/src/core/ngx_hash.c:489-564 | One pass gathers exactly the names with the first label of the first name, without that label. |
| `Wildcard.FindHead` | server/ngx_cpp/nginx/src/core/ngx_hash.c:52-143 | The recursive search over the name from its end computes `HeadFind` of its labels. |
| `Wildcard.FindTail` | server/ngx_cpp/nginx/src/core/ngx_hash.c:146-207 | The recursive search from the start computes `TailFind` of its labels. |
| `Wildcard.LookupIsBest` | server/ngx_cpp/nginx/src/core/ngx_hash.c:52-207 | The search in the trie that was built gives the best match among the names, and the value of the node itself if there is none. |
| `Wildcard.BestIsLongest` | server/ngx_cpp/nginx/src/core/ngx_hash.c:52-207 | The best match exists exactly when a name matches, and no match has more labels. |
| `Wildcard.HeadLongest` | server/ngx_cpp/nginx/src/core/ngx_hash.c:52-143 | The head search gives the value of the longest registered key that matches the reversed labels. |
| `Wildcard.TailLongest` | server/ngx_cpp/nginx/src/core/ngx_hash.c:146-207 | The tail search gives the value of the longest key that is a proper prefix of the labels. |
| `Wildcard.BackwardIs` | server/ngx_cpp/nginx/src/core/ngx_hash.c:62-70 | Cutting labels off the end gives the labels in reverse. |
| `Wildcard.ConvertHead` | server/ngx_cpp/nginx/src/core/ngx_hash.c:871-923 | The loop turns the wildcard round, label by label, as `Remaining` says. |
| `Wildcard.ConvertedIs` | server/ngx_cpp/nginx/src/core/ngx_hash.c:871-923 | "*.host" becomes the reversed labels with a dot at the end, ".host" those without it. |
| `Wildcard.HeadKeyCovers` | server/ngx_cpp/nginx/src/core/ngx_hash.c:871-923 | "*.host" takes the names below the host, ".host" the host as well, and nothing else. |
| `Wildcard.WildcardLookup` | server/ngx_cpp/nginx/src/core/ngx_hash.c:52-143 | End to end: for wildcards as they are written, the trie answers with the value of the longest one that covers the host name, and NULL exactly when none does. |
| `WildcardHash.BuildDistinct` | server/ngx_cpp/nginx/src/core/ngx_hash.c:457-599 | No two entries of a node of the trie have the same name. |
| `WildcardHash.NodeFind` | server/ngx_cpp/nginx/src/core/ngx_hash.c:52-207 | So looking a label up in the packed table of a node, with any number of buckets, finds what the trie search assumes. |
| `PackedHash.Stride` | server/ngx_cpp/nginx/src/core/ngx_hash.c:43-45 | The step from element to element in the search is NGX_HASH_ELT_SIZE. |
| `PackedHash.SameName` | server/ngx_cpp/nginx/src/core/ngx_hash.c:29-39 | The comparison of length and letters is equality of names. |
| `PackedHash.Find` | server/ngx_cpp/nginx/src/core/ngx_hash.c:12-49 | On a table that holds the names, the walk over the bytes of a bucket gives the value of the name in that bucket, or NULL. |
| `PackedHash.Measure` | server/ngx_cpp/nginx/src/core/ngx_hash.c:326-337 | The sizes of the buckets, in wrapping 16-bit sums, are the sums of their elements and the NULL pointer modulo 64 KB. |
| `PackedHash.Lay` | server/ngx_cpp/nginx/src/core/ngx_hash.c:339-386 | Each bucket with names gets room of its own, aligned, one behind the other. |
| `PackedHash.Fill` | server/ngx_cpp/nginx/src/core/ngx_hash.c:388-406 | Every element is in the bucket of its hash, in order, and no write hits another one. |
| `PackedHash.Finish` | server/ngx_cpp/nginx/src/core/ngx_hash.c:408-416 | Every bucket with names ends with a NULL value inside its room, and its elements are whole. |
| `PackedHash.Suits` | server/ngx_cpp/nginx/src/core/ngx_hash.c:287-308 | The test of a number of buckets, in wrapping 16-bit sums, says yes exactly when the elements of every bucket fit into bucket_size without the pointer at its end, if bucket_size and an element fit into 16 bits. |
| `PackedHash.Choose` | server/ngx_cpp/nginx/src/core/ngx_hash.c:273-315 | The number of buckets is then the least one that is tried and that suits, and max_size if there is none. |
| `PackedHash.NoneBefore` | server/ngx_cpp/nginx/src/core/ngx_hash.c:276-285 | The numbers of buckets below the first one that is tried do not suit, for any names and hashes: some bucket would have too many names. So the least of all numbers is found, unless max_size is above 10000 and less than a hundred times the number of names. |
| `PackedHash.Init` | server/ngx_cpp/nginx/src/core/ngx_hash.c:251-454 | It fails exactly when some name does not fit into a bucket, and it runs over exactly when a bucket needs 64 KB (up to a cache line) with the number of buckets that is chosen; else it gives a table that holds the names. What u_short has to hold (`WithinShort`) excludes running over; then every bucket is within bucket_size whenever some number of buckets that is tried allows it. |
| `PackedHash.RoomIs` | server/ngx_cpp/nginx/src/core/ngx_hash.c:341-349 | The room that a bucket gets is enough for its elements if and only if what it needs, up to a cache line, is below 64 KB. |
| `PackedHash.FullBucket` | server/ngx_cpp/nginx/src/core/ngx_hash.c:330-349 | 4096 short names in one bucket need 64 KB and a pointer, and get no room. |
| `PackedHash.HashIsMap` | server/ngx_cpp/nginx/src/core/ngx_hash.c:12-49 | With distinct names and a hash that is a function of the name, the lookup gives each name's value, and NULL for every other name. |
| `Radix.RadixTree.Find` | server/ngx_cpp/nginx/src/core/ngx_radix_tree.c:236-268 | The value is that of the stored prefix with the most leading bits in common with the key, and NGX_RADIX_NO_VALUE exactly when no stored prefix covers it. |
| `Radix.BitsAre` | server/ngx_cpp/nginx/src/core/ngx_radix_tree.c:108-137 | The bits that the loops look at, from the highest one on while the mask has them, are the first n bits of the key for a mask of n leading ones, and in a lookup all 32. |
| `Radix.SamePrefix` | server/ngx_cpp/nginx/src/core/ngx_radix_tree.c:108-170 | Two prefixes are the same if and only if they have the same length and the same leading bits. |
| `Radix.LongestIs` | server/ngx_cpp/nginx/src/core/ngx_radix_tree.c:236-263 | What that is: NO_VALUE exactly when no prefix is stored, and else the value of a stored prefix such that no longer one is stored. |
| `Radix.RadixTree.Insert` | server/ngx_cpp/nginx/src/core/ngx_radix_tree.c:108-170 | NGX_BUSY, with nothing changed, exactly when a prefix of the same length with the same leading bits is stored; else exactly this prefix gets the value. |
| `Radix.RadixTree.Delete` | server/ngx_cpp/nginx/src/core/ngx_radix_tree.c:173-233 | NGX_ERROR exactly when the prefix is not stored; exactly this prefix goes; nodes that are not needed are cut off and go to the free list, every leaf but the root has a value. It follows a null parent link if and only if the empty prefix is deleted from a root without children. |
| `Radix.RadixTree.Alloc` | server/ngx_cpp/nginx/src/core/ngx_radix_tree.c:463-488 | A node from the free list or a new one; it is not in the tree. |
| `Radix.AddShape` | server/ngx_cpp/nginx/src/core/ngx_radix_tree.c:145-165 | Adding a node below another one keeps child and parent links right for all nodes. |
| `Radix.RemoveShape` | server/ngx_cpp/nginx/src/core/ngx_radix_tree.c:206-230 | Cutting off a leaf keeps them right. |
| `Radix.LongestAt` | server/ngx_cpp/nginx/src/core/ngx_radix_tree.c:236-263 | Nothing is stored below a place without a node, so the search may stop. |
| `Pool.Pool.constructor` | server/ngx_cpp/nginx/src/core/ngx_palloc.c:16-41 | A new pool is valid and has nothing in use. |
| `Pool.Pool.Search` | server/ngx_cpp/nginx/src/core/ngx_palloc.c:125-140 | The first block from the current one on with room, after alignment on request, gives the region, and only its free part moves; NULL exactly when none of them has room. |
| `Pool.Pool.NewBlock` | server/ngx_cpp/nginx/src/core/ngx_palloc.c:180-212 | The new block, of the size of the others, serves the request, unless the system has none; all blocks from the current one on but the last count one more failure, and the search starts behind the last of them that had more than four. |
| `Pool.Pool.Alloc` | server/ngx_cpp/nginx/src/core/ngx_palloc.c:120-251 | The new region is apart from all that is in use, which stays in use; ngx_palloc aligns it to a word; sizes above pool->max are regions on their own. It fails exactly when there is no room and the system has none (`Gets`). |
| `Pool.Pool.OnItsOwn` | server/ngx_cpp/nginx/src/core/ngx_palloc.c:216-251 | A large region has a list node, a free one among the first five or a new one, and is apart from all others; NULL exactly when the system has no memory for it or there is none for the node. |
| `Pool.Pool.Pfree` | server/ngx_cpp/nginx/src/core/ngx_palloc.c:279-296 | Exactly the large region with this address goes, and it fails exactly when there is none. |
| `Pool.Pool.Reset` | server/ngx_cpp/nginx/src/core/ngx_palloc.c:96-116 | Nothing is in use any more, and the pool is valid. |
| `Pool.LiveApart` | server/ngx_cpp/nginx/src/core/ngx_palloc.c:119-251 | In every valid pool any two different regions in use have no address in common. |
| `Pool.MisalignedEnd` | server/ngx_cpp/nginx/src/core/ngx_palloc.c:129-136 | Why the size must be a multiple of the word: at a misaligned end the test for room wraps round and grants any size. |
| `Pool.Grow` | server/ngx_cpp/nginx/src/core/ngx_array.c:110-119 | The last region of a block may grow up to the end of the block. |
| `Pool.LastOfFirst` | server/ngx_cpp/nginx/src/core/ngx_array.c:110-112 | A region that ends where the free part of the first block starts was cut from that block. |
| `Pool.Array.constructor` | server/ngx_cpp/nginx/src/core/ngx_array.c:12-27 | A new array is valid, empty, and has the given memory in the given pool. |
| `Pool.Array.Extend` | server/ngx_cpp/nginx/src/core/ngx_array.c:108-119 | Growth in place, in wrapping addresses: if nothing wraps around, the elements and every other region are kept. |
| `Pool.Array.Room` | server/ngx_cpp/nginx/src/core/ngx_array.c:102-135 | There is room afterwards if and only if nothing that was computed has wrapped around (`Sized`); a failed allocation changes nothing. |
| `Pool.Array.PushN` | server/ngx_cpp/nginx/src/core/ngx_array.c:94-141 | It fails exactly when there are no free elements, no free addresses behind the array, and no new place (`Gains`). Else the array is right afterwards, with n more elements, if and only if nothing wraps around. Then, whether it grows in place or is copied: the elements keep their bytes, the new ones are inside the array, and every other region stays in use, apart from the array, with its bytes. `ngx_array_push` is the same for one element. |
| `Pool.WrappedProduct` | server/ngx_cpp/nginx/src/core/ngx_array.c:102 | 2^63 elements of two bytes take no room in 64 bits. |
| `ConfToken.ConfFile.ReadToken` | server/ngx_cpp/nginx/src/core/ngx_conf_file.c:501-805 | Through the refilled window: the return code, the words and the position are those of `Run` over the whole text. |
| `ConfToken.ConfFile.Refill` | server/ngx_cpp/nginx/src/core/ngx_conf_file.c:531-605 | The window moves on over the file, and the word that has been started is kept whole at its front. |
| `ConfToken.RunIsWhole` | server/ngx_cpp/nginx/src/core/ngx_conf_file.c:501-805 | That is the result of a tokenizer without a window unless the too-long error is returned. |
| `ConfToken.StepInStep` | server/ngx_cpp/nginx/src/core/ngx_conf_file.c:607-746 | The flag of an open escape agrees with the copying loop at every character, so a word never ends inside an escape. |
| `ConfToken.DecodeWord` | server/ngx_cpp/nginx/src/core/ngx_conf_file.c:759-791 | The copying loop computes `Decode` and never reads behind the word. |
| `ConfWords.DecodeWritten` | server/ngx_cpp/nginx/src/core/ngx_conf_file.c:759-791 | Escapes mean what they should in every word: quotes and backslashes are themselves, t, r and n are tab, CR and LF, and any other character keeps the backslash. |
| `ConfWords.RunPieces` | server/ngx_cpp/nginx/src/core/ngx_conf_file.c:607-804 | From any state of the tokenizer, any readable text of words (bare or in quotes of either kind), white space and comments is passed, and exactly its words are added; comments and white space add nothing. |
| `ConfWords.Reads` | server/ngx_cpp/nginx/src/core/ngx_conf_file.c:607-804 | For every such text, wherever it stands in a file: its words are read back, and the code is NGX_OK before a semicolon and NGX_CONF_BLOCK_START before an opening brace, with and without a space before them, and an error without words; NGX_CONF_BLOCK_DONE before a closing brace without words and else an error; an error behind a closing quote before anything but white space, a semicolon, an opening brace or a closing parenthesis. A brace behind a dollar sign within a word belongs to the word. |
| `ConfWords.ReadsToEnd` | server/ngx_cpp/nginx/src/core/ngx_conf_file.c:532-550 | At the end of the file the code is NGX_CONF_FILE_DONE exactly when no words are left. |
| `ConfWords.DollarFirst` | server/ngx_cpp/nginx/src/core/ngx_conf_file.c:682-718 | A dollar sign that starts a bare word does not keep the brace behind it: the text ${ opens a block named $. |
| `ConfWords.ReadBack` | server/ngx_cpp/nginx/src/core/ngx_conf_file.c:607-804 | Any words, with any characters, can be written in double quotes so that they read back unchanged. |
| `DnsName.Spell` | server/ngx_cpp/nginx/src/core/ngx_resolver.c:2586-2609 | The loop from the end of the name: each length byte counts the letters behind it. |
| `DnsName.Encode` | server/ngx_cpp/nginx/src/core/ngx_resolver.c:2523-2615 | It is refused exactly when some label is empty or longer than 255, and else the bytes are the labels with their lengths and a zero. |
| `DnsName.Measure` | server/ngx_cpp/nginx/src/core/ngx_resolver.c:2752-2799 | The first loop accepts exactly what parses within 128 length bytes, and counts the bytes that the second one writes. |
| `DnsName.NameSizeIs` | server/ngx_cpp/nginx/src/core/ngx_resolver.c:2753-2774 | The count is the length of the name with its dots. |
| `DnsName.Copy` | server/ngx_cpp/nginx/src/core/ngx_resolver.c:2743-2834 | The name is the labels in lower case with dots between them. |
| `DnsName.LowerAt` | server/ngx_cpp/nginx/src/core/ngx_string.c:20-29 | Capital letters become small ones, and nothing else changes. |
| `DnsName.ParseWire` | server/ngx_cpp/nginx/src/core/ngx_resolver.c:2752-2780 | What was encoded parses back to its labels if and only if no label is longer than 63 and there are at most 127. |
| `DnsName.RoundTrip` | server/ngx_cpp/nginx/src/core/ngx_resolver.c:2523-2834 | Whatever follows in the packet: the decoder makes of an encoded name the name in lower case if its labels have at most 63 octets and there are at most 127 of them, and else no name, but an error or what it takes for a pointer. |
| `DnsName.ThereAndBack` | server/ngx_cpp/nginx/src/core/ngx_resolver.c:2523-2834 | Encoder and decoder one after the other, for every name: the name in lower case comes back if and only if that holds. |
| `DnsName.LongLabel` | server/ngx_cpp/nginx/src/core/ngx_resolver.c:2594-2615 | A label of 64 letters is encoded, and read as a compression pointer. |
| `Md5.Md5.Update` | server/ngx_cpp/nginx/src/core/ngx_md5.c:34-62 | For every piece: the state stands for the whole blocks of all bytes so far, and the buffer holds exactly the rest. |
| `Md5.Md5.Final` | server/ngx_cpp/nginx/src/core/ngx_md5.c:65-115 | After any updates the 16 bytes are the digest of RFC 1321: the fold of the block function over the whole message, padded as in sections 3.1 and 3.2, from the words of section 3.3, low-order bytes first. |
| `Md5.Body` | server/ngx_cpp/nginx/src/core/ngx_md5.c:173-287 | The loop over the blocks is the fold of the block function. |
| `Md5Rounds.Compress` | server/ngx_cpp/nginx/src/core/ngx_md5.c:173-287 | The 64 steps, written out, are the four rounds of section 3.4 of RFC 1321. |
| `Md5Rounds.Unrolled` | server/ngx_cpp/nginx/src/core/ngx_md5.c:199-272 | For any form of a step: the 64 statements with their constants and changing roles are the loop over the table. |
| `Md5Rounds.CodeStepIs` | server/ngx_cpp/nginx/src/core/ngx_md5.c:126-140 | The macro, with its forms of F and G that need no complement, is the operation of the standard. |
| `Md5Rounds.StepsAre` | server/ngx_cpp/nginx/src/core/ngx_md5.c:126-140 | Forms of a step that agree everywhere make the same words after any number of steps. |
| `Md5Rounds.WordBytes` | server/ngx_cpp/nginx/src/core/ngx_md5.c:97-112 | A word is what its four bytes in the result are read as. |
| `Md5.FoldConcat` | server/ngx_cpp/nginx/src/core/ngx_md5.c:34-62 | Folding in two parts is folding the whole. |
| `Md5.PaddedWhole` | server/ngx_cpp/nginx/src/core/ngx_md5.c:70-95 | The padding fills whole blocks, with the length in the last eight bytes. |
| `Md5.LengthIs` | server/ngx_cpp/nginx/src/core/ngx_md5.c:85-93 | The length in bits, found from the 64-bit byte counter with its wrap-around, is the one that is to be appended. |
| `Crc32.RowIs` | server/ngx_cpp/nginx/src/core/ngx_crc32.c:34-99 | Each of the 256 entries is eight shifts of the bit-serial register. |
| `Crc32.Four16` | server/ngx_cpp/nginx/src/core/ngx_crc32.c:26-31 | Each of the 16 entries is four shifts. |
| `Crc32.LongStepIs` | server/ngx_cpp/nginx/src/core/ngx_crc32.h:42-54 | One lookup by byte is the bit-serial step for the byte. |
| `Crc32.ShortStepIs` | server/ngx_cpp/nginx/src/core/ngx_crc32.h:24-39 | Two lookups by nibble are the same step. |
| `Crc32.Short` | server/ngx_cpp/nginx/src/core/ngx_crc32.h:24-39 | For every byte string the nibble form is the bit-serial CRC of section 3.4 of RFC 2083. |
| `Crc32.Long` | server/ngx_cpp/nginx/src/core/ngx_crc32.h:42-54 | For every byte string the byte form is the same CRC. |
| `Crc32.Update` | server/ngx_cpp/nginx/src/core/ngx_crc32.h:62-74 | The piecewise form computes the same register. |
| `Crc32.OverConcat` | server/ngx_cpp/nginx/src/core/ngx_crc32.h:58-78 | Consecutive pieces give what one call on their concatenation gives. |
| `Crc32.Check` | server/ngx_cpp/nginx/src/core/ngx_crc32.h:19-73 | The checksum of the digits from 1 to 9 is the check value cbf43926, which leaves no choice for the register at the start and at the end, the polynomial and the order of the bits. |
| `ParseTime.Parse` | server/ngx_cpp/nginx/src/core/ngx_parse.c:101-273 | For every text: an error exactly when the units are malformed or the value without bounds exceeds NGX_MAX_INT_T_VALUE, and else that value. Every intermediate is a signed 64-bit value. |
| `ParseTime.TooMuch` | server/ngx_cpp/nginx/src/core/ngx_parse.c:133-139 | What has become too large stays too large, so the early error is right. |
| `ParseTime.Guard` | server/ngx_cpp/nginx/src/core/ngx_parse.c:237-245 | The comparison with a quotient is the comparison of the product. |
| `ParseTime.WrittenIs` | server/ngx_cpp/nginx/src/core/ngx_parse.c:101-273 | A time written from the largest unit to the smallest, with spaces behind the units, means the sum of its parts; milliseconds start with weeks. |
| `ParseTime.AcceptedIs` | server/ngx_cpp/nginx/src/core/ngx_parse.c:101-273 | Whatever is accepted is digits and units that fall and are told apart, with a digit somewhere, and means the sum of its numbers in their units. |
| `ParseTime.SpelledIs` | server/ngx_cpp/nginx/src/core/ngx_parse.c:101-273 | The converse: all such times are accepted, with that sum; a number without a unit behind a unit included, as in "1m 30". |
| `ParseTime.PlainNumber` | server/ngx_cpp/nginx/src/core/ngx_parse.c:256-272 | A number without a unit is in seconds. |
| `Queue.InsertAfter` | server/ngx_cpp/nginx/src/core/ngx_queue.h:33-40 | The circle gets the node behind the given one. |
| `Queue.InsertTail` | server/ngx_cpp/nginx/src/core/ngx_queue.h:43-47 | The circle gets the node at its end. |
| `Queue.Remove` | server/ngx_cpp/nginx/src/core/ngx_queue.h:80-82 | The circle without exactly this node. |
| `Queue.Split` | server/ngx_cpp/nginx/src/core/ngx_queue.h:87-93 | One circle becomes two, at the given element. |
| `Queue.Add` | server/ngx_cpp/nginx/src/core/ngx_queue.h:96-100 | Two circles become one, an empty second one included. |
| `Queue.SplitAdd` | server/ngx_cpp/nginx/src/core/ngx_queue.h:87-100 | Split followed by add restores the circle. |
| `Queue.Middle` | server/ngx_cpp/nginx/src/core/ngx_queue.c:17-45 | Element n / 2, and the queue itself when it is empty. |
| `Queue.Sort` | server/ngx_cpp/nginx/src/core/ngx_queue.c:50-80 | For every comparison function the list is a well-formed circle again, of the elements in the order `Sorted`. |
| `Queue.SortedSame` | server/ngx_cpp/nginx/src/core/ngx_queue.c:50-80 | A permutation of the elements. |
| `Queue.SortedOrdered` | server/ngx_cpp/nginx/src/core/ngx_queue.c:50-80 | Sorted, for every total preorder. |
| `Queue.SortedStable` | server/ngx_cpp/nginx/src/core/ngx_queue.c:50-80 | Stable: equal elements keep their order. |

## Left out

- OpenFileCache.OpenFileCache.Open: after a clash no operation is claimed to work. The path without a cache, vnode events, directio, the walk that refuses symbolic links, and the forced cleanup at the end of a cycle are not modelled. The tree of names is a map from names to entries, as `FileLookup` allows.
- OutputChain.OutputChain.CopyBuf: reading from a file delivers all bytes or fails; short reads, directio, aio, threads and the sendfile limit are not modelled.
- OutputChain.OutputChain.Send: after an error nothing is claimed. The flags flush, sync and last_buf are one flag; that of a buffer with bytes goes with its last byte as `FilledFlags` says and is not part of the equation.
- PackedHash.Init: the values are not NULL, the cache line has 64 bytes, and bucket_size leaves room for two pointers, without which the code divides by zero; names marked with NULL data are not modelled. What is written after running over is not modelled.
- Wildcard.WildcardInit: a node of the trie is its list of entries; `WildcardHash.NodeFind` says that the packed table of the node agrees with it. Names are in order, with the dot lowest, and do not repeat, as its callers ensure.
- Radix.RadixTree.Insert: preallocation of nodes is not modelled, and memory never runs out.
- Pool.Pool.constructor: the size is a multiple of 16 and at least NGX_MIN_POOL_SIZE; destroying a pool, its cleanup handlers and ngx_pmemalign are not modelled.
- Pool.Array.PushN: sizes and counts are below 2^64, as their types are; what the array is after something has wrapped around is not described further.
- ConfToken.ConfFile.ReadToken: line numbers, log messages and errors of the pool or the file are not modelled.
- DnsName.Copy: compression pointers are recognised and not followed.
- DnsName.Measure: compression pointers are recognised and not followed.
- Shmtx: the variant with file locks, and fairness; the semaphore never fails other than with EINTR.
- Address rotation in `ngx_resolver_export`, `ngx_hash_find_combined`, `ngx_chain_coalesce_file` and the checks for duplicates in `ngx_hash_add_key` would only add easy members.
- Resolver networking and timers, the IPv6 forms, `ngx_crc32_table_init` (it copies a table), the remaining core files, and the language exercises, Redis clients and C++ wrappers elsewhere in the repository.
