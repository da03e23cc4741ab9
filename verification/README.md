# Hiccup, modelled in Dafny

Hiccup is a small communication library over GASNet: sockets between nodes, typed
pipes and actors between threads, lock-free queues underneath, and an open-addressing
hash table for the endpoint registry. This project models its hard parts and proves
what they promise. `dafny verify dfyconfig.toml` checks everything.

## How it is organised

| modules | source | what is modelled |
|---|---|---|
| `Words`, `Bits`, `Probing`, `BucketFlags`, `TableLayout`, `Rehash`, `HashTable` | `src/khash.h` | the hash table as a class over arrays, with packed 2-bit flags, triangular probing, tombstones and the in-place kick-out rehash, for an arbitrary hash function |
| `FreeBits`, `Context`, `Lifecycle` | `src/hctx.c`, `src/hsock.c` | socket ids, the endpoint registry, and the life of a socket |
| `FunnelModel`, `FunnelProof`, `FunnelResults`, `Funnel` | `src/hfunnel.c` | the many-producer, single-consumer linked queue, one shared access a step |
| `RingModel`, `RingProof`, `Ring` | `src/hqueue.c` | the single-producer, single-consumer ring with cached indices, one shared access a step; its construction |
| `Picture`, `NullTargets`, `SockCodec`, `Message` | `src/hsock.c`, `src/hmsg.c` | the picture-driven packers and unpackers, on bytes, with and without NULL targets |
| `FloodModel`, `FloodInv`, `FloodFrame`, `FloodSender`, `FloodHandlers`, `FloodLanding`, `FloodDelivery`, `FloodResults`, `FloodReceipt`, `FloodProgress`, `FloodConnect`, `FloodCalls`, `FloodEnds`, `FloodMemory`, `Flood` | `src/hsock.c` | multi-frame transmission and connection as a protocol between any number of sockets, with unordered delivery |
| `Mailboxes`, `MailboxResults`, `MailboxMimics` | `src/hsock.c`, `src/hfunnel.c` | that protocol with its mailboxes as funnels, pushed and popped one access a step |
| `PipeModel`, `PipeResults`, `PipeCalls`, `Pair`, `Actor` | `src/hpipe.c`, `src/hpair.c`, `src/hactor.c` | typed pipes over two rings, binary signals, and the start and shutdown handshake of an actor |

Sequential code is a class whose methods are proved against ghost state: the finite
map behind `Table`, the free ids and endpoint map behind `Context`, the contents of
`HQueue`. Concurrent code is a step machine: `Effect` is what one shared access does
to memory, `Record` what it adds to a ghost history, `Run` any interleaving. The
theorems speak about `Run` from an initial state, for every schedule. What was pushed
is taken from the arguments of the calls in the schedule, never from memory. `Funnel.Push`,
`Funnel.Pop`, `HQueue.TryPush` and `HQueue.TryPop` are the imperative functions
themselves, proved equal to running their own accesses in that machine.

Allocation is an input: `Allocation` says which allocations of a call succeed, an
action carries the address that `malloc` returns, and a freed address may be returned
again.

## Where the code and what is said about it differ

The models follow the code.

- `include/hqueue.h` promises room for at least `capacity` items. A ring keeps one
  slot free, and a capacity of 0 or above 2^63 is rounded to 0, which leaves no slot at
  all; a negative high-water mark of `hpair_new` ends up there. `Ring.CapacityPromise`:
  over all 64-bit capacities the promise holds exactly from 1 to 2^63, powers of two
  excepted. The library itself asks for 512 (`HACTOR_HWM`) and gets room for 511
  (`Pair.NewPipes`).
- `kroundup32` rounds 0, or more than 2^31, to 0 (`Bits.RoundUp32Least`).
- `kh_put` asks for one bucket more than it has. At 2^31 buckets that request rounds
  to 0, becomes 4, and the resize does nothing (`HashTable.Table.ResizeHelpsExactly`).
  Keys still go in until all 2^31 buckets are live. From then on an absent key is
  reported as present: 0 is returned with the bucket of another key.
  `HashTable.Table.Put`: memory permitting, the put is right exactly when the key was
  present or fewer than 2^31 keys were. With 16-bit keys it is always right
  (`Context.Context.CanPut`). `HashTable.FilledTable` gets there from a new table.
- `kh_resize` does not look at the reallocations that end a shrink. If one fails, 0 is
  returned and a NULL array is left behind. `HashTable.Table.Resize`: the table stays
  in order exactly when that does not happen (`HashTable.BrokenShrink` is a run in which
  it does). `kh_put` never shrinks.
- The unpackers do not advance past a NULL target, so a later target of the same kind
  receives the wrong element (`Picture.NullTargetShifts` is an input that shows it).
  `NullTargets.ElementExactly`: a wanted element is received for all arguments exactly
  when no NULL target before it is of its kind, where scalars are one kind and payloads
  the other. `SockCodec.SocketRoundTripExactly` and `Message.MessageRoundTripExactly`
  say the same of whole messages.
- `hpair_peek_0` and `hpair_peek_1` take the message out (`Pair.Pipe.TryRecv`).
- `hactor_destroy` waits for one signal and cannot tell the handler's own signals from
  the final one of `run`. Count the waits of the parent before destroy, including the
  one in `hactor_new`, and let the handler be allowed m signals. If m exceeds the
  waits, some run frees the pair under the running handler (`Actor.EarlyDestroy`). If m
  is less, destroy gets through in no run; a handler that never signals is such a case. `Actor.UsableExactlyWhen`: destroy can return, and is safe in every run,
  exactly when m equals the number of waits.

## Model

| member | source | states |
|---|---|---|
| Words.Widths | src/hsock.c:112-128 | The sizes of the C integer types in numbers |
| Bits.ShiftOrDoubles | src/khash.h:80 | One `x \|= x >> m` on a number whose top m bits are ones doubles that run of ones |
| Bits.SmearedIsLeast | src/khash.h:80 | A number smeared down to all ones, plus one, is the least power of two not below the original |
| Bits.RoundUp32Least | src/khash.h:80 | `kroundup32` gives the least power of two >= x for 1 <= x <= 2^31, and 0 for every other 32-bit x |
| Probing.AdvanceMasks | src/khash.h:142 | The 32-bit wrap of `i + step` never shows after masking, because n divides 2^32 |
| Probing.ProbeStep | src/khash.h:142 | The loop's running index equals the closed form h + t(t+1)/2 mod n at every step, in wrapping arithmetic |
| Probing.ProbesDistinct | src/khash.h:137-144 | The first n probes of a power-of-two table hit n different buckets |
| Probing.ProbePermutation | src/khash.h:137-144 | Every bucket is probed at exactly one of the steps 0 to n-1 |
| Probing.FirstReturn | src/khash.h:140-143 | Probing is back at its home bucket for the first time at step 2n-1, so `i == last` fires only after every bucket was seen |
| BucketFlags.SetDeleted | src/khash.h:75 | Setting the deleted bit of a live bucket in the packed words changes that bucket's flags and no other's |
| BucketFlags.SetOccupied | src/khash.h:73 | Clearing the empty bit makes that bucket live and changes no other |
| BucketFlags.SetLive | src/khash.h:74 | Clearing both bits makes any bucket live and changes no other |
| BucketFlags.DeletedWord | src/khash.h:75 | The same as a fact about words: after the store the words show the old flags with one bucket deleted |
| BucketFlags.OccupiedWord | src/khash.h:73 | The same for a bucket that becomes occupied |
| BucketFlags.LiveWord | src/khash.h:74 | The same for a bucket that becomes live |
| BucketFlags.NewFlags | src/khash.h:157-159 | `__ac_fsize` words of 0xaa bytes show every bucket empty |
| BucketFlags.ReadFlag | src/khash.h:69-71 | Shift and mask recover the flags of the bucket asked for |
| BucketFlags.FlagMeaning | src/khash.h:69-71 | Two bits a bucket, sixteen buckets a word: the upper bit says empty, the lower says deleted |
| TableLayout.SkippedMeansAbsent | src/khash.h:141-145 | A search that met an empty bucket, or n buckets, without the key proves the key absent from the map |
| TableLayout.Insert | src/khash.h:240-249 | Filling a free bucket on an absent key's path, fresh or tombstone, adds exactly that key and keeps every other key reachable |
| TableLayout.Delete | src/khash.h:255-257 | A tombstone removes exactly its key and keeps every other key reachable |
| TableLayout.LiveCountIsSize | src/khash.h:100 | The number of live buckets is the number of keys of the map |
| TableLayout.HoldsUnique | src/khash.h:134-147 | A layout stands for one map only |
| TableLayout.UpperBoundBelow | src/khash.h:207 | The load bound lies strictly between n/2 and n and grows with doubling, so some bucket is always empty |
| TableLayout.UpperBoundRounds | src/khash.h:96-207 | The load bound is 77 percent of n rounded to the nearest whole number |
| Rehash.Begin | src/khash.h:172-174 | Before the rehash every pair is in the old layout |
| Rehash.PickUp | src/khash.h:175-180 | Taking a pair out of the old layout keeps the partition of the map into old, placed and carried pairs |
| Rehash.Place | src/khash.h:191-194 | Writing the carried pair into a bucket of neither layout keeps the partition |
| Rehash.KickOut | src/khash.h:187-190 | Swapping the carried pair with a not yet moved one keeps the partition, in the shared arrays |
| Rehash.PlacedStays | src/khash.h:183-186 | A placement at the first empty bucket of a path keeps every placed key reachable |
| Rehash.NewHasEmpty | src/khash.h:155-185 | While pairs are being moved the new layout has an empty bucket, so the inner search ends |
| Rehash.Finish | src/khash.h:199-208 | When nothing is left in the old layout the new one holds exactly the original map, reachable, with no tombstone |
| HashTable.ResizeTargetIsPow2 | src/khash.h:153-154 | Every request leads to a power of two from 4 to 2^31, not below the request when that fits |
| HashTable.ResizeTargetExactly | src/khash.h:153-154 | The target is the least power of two not below the request, at least 4; a request above 2^31 becomes 4 |
| HashTable.PutTargets | src/khash.h:214-221 | The requests n-1 and n+1 of `kh_put` lead to n and to 2n (4 for the first table) |
| HashTable.FindEmpty | src/khash.h:182-185 | The loop ends at the first empty bucket of the key's path |
| HashTable.MoveOne | src/khash.h:181-196 | One turn of the kick-out loop keeps the partition and, unless it is the last, leaves fewer live old buckets |
| HashTable.MoveChain | src/khash.h:174-197 | A chain that starts at an old live bucket ends, keeps the partition, and revives no old bucket |
| HashTable.RehashAll | src/khash.h:173-198 | After the outer loop the new layout alone holds the original map |
| HashTable.Table.constructor | src/khash.h:116-118 | A new table stands for the empty map |
| HashTable.Table.Get | src/khash.h:134-147 | Returns the bucket of the key exactly when the key is in the map, and `n_buckets` otherwise |
| HashTable.Table.FindSlot | src/khash.h:224-238 | Finds the key's bucket, or else a free bucket that the key can be reached in, preferring a tombstone; without any free bucket it returns the home bucket |
| HashTable.Table.Del | src/khash.h:253-259 | Removes the key of a live bucket and nothing else; any other bucket index changes nothing |
| HashTable.Table.SetVal | src/hctx.c:190 | Storing through `kh_val` updates the map at the bucket's key and nowhere else |
| HashTable.Table.Val | src/hctx.c:194 | Reading through `kh_val` yields the map's value at the bucket's key |
| HashTable.Table.RehashTo | src/khash.h:172-208 | Moves the whole map to a layout of n buckets in the same arrays, without tombstones |
| HashTable.Table.Resize | src/khash.h:148-210 | Expand, purge, shrink, refuse or fail. It returns -1 if and only if it has to act and a needed allocation fails, and then nothing changed; the map is the same in every case, except exactly when a reallocation at the end of a shrink fails; when it acts the size is the rounded request and no tombstone is left |
| HashTable.Table.ResizeHelps | src/khash.h:214-221 | The resize chosen by `kh_put` is never the no-op case while the table can grow |
| HashTable.Table.ResizeHelpsExactly | src/khash.h:153-221 | It makes room if and only if the table can grow: at 2^31 buckets the request rounds to 0 and nothing happens |
| HashTable.Table.MakeRoom | src/khash.h:214-222 | For every table: it fails if and only if room is needed, can be made, and memory for it is short; after success `n_occupied < upper_bound` if and only if the table could grow; the map never changes |
| HashTable.Table.PutInRoom | src/khash.h:223-251 | The code 1 or 2 says that the bucket taken was empty or a tombstone, and the map gains exactly that key; the code is 0 if and only if the key was present or all 2^31 buckets were live |
| HashTable.Table.Put | src/khash.h:211-252 | The same for the whole of `kh_put` on every table: -1 and an unchanged table if and only if memory needed for room is short; otherwise the key is in the map afterwards if and only if it was before or fewer than 2^31 keys were, and if not, nothing changes and another key's bucket is returned; the bucket count stays or doubles as the load and the tombstones say |
| HashTable.Table.ValidHasEmpty | src/khash.h:141 | Below 2^31 buckets, and whenever the load bound holds, some bucket is empty |
| HashTable.Table.FullWhen | src/khash.h:232 | All buckets are live if and only if there are as many keys as buckets |
| HashTable.FilledTable | src/khash.h:211-252 | From a new table, 2^31 insertions with memory at hand lead to a table on which the next, absent key gets the code 0 and another key's bucket |
| HashTable.BrokenShrink | src/khash.h:199-209 | A table of 8 buckets, shrunk to 4 with a failing reallocation, returns 0 and is no longer in order |
| FreeBits.LowestFrom | src/hctx.c:155 | `ffs`: the bit found is set and every lower one is clear; 32 when none is set |
| FreeBits.TakeId | src/hctx.c:164 | Clearing a bit takes exactly that id out of the free set |
| FreeBits.GiveId | src/hctx.c:175-178 | Setting a bit puts exactly that id back |
| FreeBits.AllFree | src/hctx.c:85-86 | Words of ones make every id free |
| Context.BucketsBounded | src/hctx.c:188 | A table of at most 2^16 keys without tombstones never doubles beyond 2^17 buckets |
| Context.Context.constructor | src/hctx.c:79-89 | A new context has every id free and no endpoint |
| Context.Context.FindFreeWord | src/hctx.c:154-157 | The loop stops at the first word with a set bit; no id below it is free |
| Context.Context.Register | src/hctx.c:148-169 | Returns the least free id and takes only it; fails if and only if every id is in use |
| Context.Context.Unregister | src/hctx.c:171-180 | Gives back only this id and clears only its mailbox |
| Context.Context.Bind | src/hctx.c:182-203 | Fails if and only if the endpoint is bound (an entry of -1 counts as unbound) or memory needed for room in the table is short; a failure leaves the registry as it was |
| Context.Context.CanPut | src/hctx.c:188 | The table of a context never fills up, can always take another endpoint, and stays within 2^17 buckets |
| Context.Context.Unbind | src/hctx.c:205-213 | Releases this endpoint only |
| Context.Context.MailboxAt | src/hctx.c:215-227 | The mailbox of the id bound to the endpoint, or NULL when it is unbound |
| Lifecycle.NewRegistry | src/hctx.c:79-93 | A new context satisfies the registry invariant with no sockets, every id free and no endpoint bound |
| Lifecycle.UniqueHolder | src/hctx.c:215-227 | A bound endpoint names the mailbox of exactly one live bound socket |
| Lifecycle.NewSocket | src/hsock.c:574-599 | A new socket gets an id and mailbox entry of its own; fails exactly when no id is free |
| Lifecycle.Socket.Bind | src/hsock.c:632-647 | Fails if and only if another live socket holds the endpoint or memory needed for room in the table is short; keeps the registry invariant |
| Lifecycle.Socket.Connect | src/hsock.c:649-665 | Yields the mailbox of the server bound at the peer, or fails exactly when there is none |
| Lifecycle.Socket.Unbind | src/hsock.c:667-676 | Releases the endpoint of this socket and no other |
| Lifecycle.Socket.Disconnect | src/hsock.c:678-688 | Keeps the registry invariant |
| Lifecycle.Socket.Destroy | src/hsock.c:607-630 | Frees the id, drops any endpoint held, keeps the invariant for the remaining sockets |
| FunnelProof.PushSwapInv | src/hfunnel.c:75 | The tail swap keeps the invariant of the linked queue, opening one more gap in the chain |
| FunnelProof.PushLinkInv | src/hfunnel.c:79 | The store of the link keeps it, closing that gap, wherever other gaps are |
| FunnelProof.PopSetHeadInv | src/hfunnel.c:96 | Moving the head keeps it |
| FunnelProof.PopFreeInv | src/hfunnel.c:100 | Freeing the old head keeps it |
| FunnelProof.StepInv | src/hfunnel.c:64-104 | Every access of every thread keeps the invariant |
| FunnelResults.PoppedIsPrefix | src/hfunnel.c:64-104 | In every run with any number of pushers, what was popped is a prefix of the pushed arguments in order of their tail swaps; per thread it is a prefix of the arguments of its pushes in program order, of which at most the current one is not swapped in; no access touches freed memory |
| FunnelResults.RecordedCalls | src/hfunnel.c:64-68 | The record of a thread's pushes is what the schedule says |
| FunnelResults.RefinesQueue | src/hfunnel.c:64-104 | The funnel refines an atomic queue: a tail swap appends the argument of its push, a finished pop removes and returns the oldest, every other access changes nothing |
| FunnelResults.PopReturnsOldest | src/hfunnel.c:93-101 | A pop that finds a node returns the oldest pushed argument not yet popped |
| FunnelResults.NullPop | src/hfunnel.c:91-103 | A pop reads NULL if and only if every swapped-in value was popped, or exactly one push has swapped out head's node and not linked it yet |
| FunnelResults.FreedIsUnreachable | src/hfunnel.c:96-100 | When the old head is freed, no push holds it, neither end refers to it, and no next pointer leads to it |
| FunnelResults.PushNeverWaits | src/hfunnel.c:64-80 | In every run each access of a push is ready when its turn comes, so a push ends after four accesses of its own thread, whatever the others do |
| FunnelResults.PopNeverWaits | src/hfunnel.c:82-104 | The same for a pop: two accesses when it reads NULL, five otherwise |
| Funnel.QuietPop | src/hfunnel.c:82-104 | With no push between swap and link and a value waiting, one undisturbed pop returns that value |
| Funnel.PushCall | src/hfunnel.c:64-80 | The whole effect of an undisturbed push on memory and on the order of values, other pushes being suspended anywhere |
| Funnel.PopCall | src/hfunnel.c:82-104 | The whole effect of an undisturbed pop that finds a node |
| Funnel.PopNullCall | src/hfunnel.c:91-103 | A pop that reads NULL changes nothing |
| Funnel.Funnel.constructor | src/hfunnel.c:27-42 | A new funnel is the initial state of the machine |
| Funnel.Funnel.Push | src/hfunnel.c:64-80 | The imperative body equals running its accesses, and appends its value to the order |
| Funnel.Funnel.Pop | src/hfunnel.c:82-104 | The imperative body equals running its accesses: NULL, or the oldest value not yet popped |
| RingProof.FullIff | src/hqueue.c:103-105 | With a fresh head index the producer's comparison fails exactly when size - 1 items are inside |
| RingProof.EmptyIff | src/hqueue.c:124 | With a fresh tail index the consumer's comparison fails exactly when nothing is inside |
| RingProof.StepInv | src/hqueue.c:98-133 | Every access of either side keeps the counters, the caches and the live slots in order |
| RingProof.Fifo | src/hqueue.c:98-133 | In every run what was popped is a prefix of the arguments of the pushes that took effect, at most size - 1 items are inside, and the slots between head and tail hold them |
| RingProof.RecordedArguments | src/hqueue.c:98-114 | The record of pushed items is what the schedule's own arguments say |
| RingProof.PushFailsWhenFull | src/hqueue.c:103-113 | A push fails if and only if the ring was full when the remote index was read |
| RingProof.PopFailsWhenEmpty | src/hqueue.c:121-132 | A pop fails if and only if the ring was empty when the remote index was read |
| RingProof.NoSlotRace | src/hqueue.c:108-109 | The slot being written holds no live item and is not being read |
| RingProof.NobodyWaits | src/hqueue.c:98-133 | In every run each access of a push or a pop is ready when its turn comes, whatever the other side does |
| Ring.RoundCapacity | src/hqueue.c:36-44 | The smear loop gives the least power of two >= capacity for 1 <= capacity <= 2^63, and 0 for every other 64-bit value |
| Ring.CapacityPromise | include/hqueue.h:13 | For every 64-bit capacity and the size made of it, the ring has room for `capacity` items if and only if the capacity is from 1 to 2^63 and not a power of two |
| Ring.PowerCapacity | src/hqueue.c:36-44 | A power of two up to 2^63 is its own size and one slot short of the promise |
| Ring.Align | src/hqueue.c:54-58 | The expression yields an aligned address, less than one alignment further |
| Ring.Place | src/hqueue.c:46-58 | Header and item array are aligned, disjoint and inside the block, for every address and alignments |
| Ring.RoomIff | src/hqueue.c:105 | The test with a possibly stale cache, refreshed when it fails, is right in both directions |
| Ring.AnyIff | src/hqueue.c:124 | The same for the consumer, and the slot at head is the oldest item |
| Ring.PushCall | src/hqueue.c:98-114 | An undisturbed push, written out, is the run of its accesses |
| Ring.PopCall | src/hqueue.c:116-133 | An undisturbed pop, written out, is the run of its accesses |
| Ring.HQueue.constructor | src/hqueue.c:34-76 | A new queue is in order, empty and of the rounded capacity, if and only if the capacity is from 1 to 2^63; otherwise it has no slot; the room it has meets the header's promise exactly as CapacityPromise says |
| Ring.HQueue.TryPush | src/hqueue.c:98-114 | Fails exactly when size - 1 items are inside, and otherwise appends the item |
| Ring.HQueue.TryPop | src/hqueue.c:116-133 | Fails exactly when the queue is empty, and otherwise takes the oldest item |
| Picture.LERoundTrip | src/hsock.c:112 | Storing a number in n bytes and loading it gives it back |
| Picture.AcceptedPictures | src/hsock.c:93-141 | The valid elements are exactly `i`, `1`, `2`, `4`, `8`, `d`, `p`, and for sockets `b` |
| Picture.AcceptedArguments | src/hsock.c:95-136 | What each element announces: the whole range of its C type, and for `b` fewer than 2^32 bytes |
| Picture.ScalarCodes | src/hmsg.c:66-105 | Arguments in range without payloads make a picture that messages accept, too |
| Picture.PackedBytes | src/hsock.c:95-129 | Four bytes for `i`, `1`, `2`, `4`, eight for `8`, `d`, `p`, lowest byte first |
| Picture.ReceivedValues | src/hsock.c:178-252 | The values received are exactly these: `1` keeps the value modulo 256, `2` modulo 65536, all other scalars and the payloads arrive as they were |
| Picture.ReceivedExamples | src/hsock.c:178-252 | One of each, in numbers: 300 sent with `1` arrives as 44, 70000 sent with `2` as 4464 |
| Picture.UnpackRejects | src/hsock.c:253 | An invalid element is never passed over, and no valid one is taken for invalid |
| Picture.LoadPacked | src/hsock.c:178-240 | Each element's load undoes its store: all bits, or the low 8 or 16 for `1` and `2` |
| Picture.UnpackPacked | src/hsock.c:176-255 | From any position and payload index, unpacking with the packing picture and non-NULL targets yields every argument in order, with the values written out |
| Picture.UnpackPrefix | src/hmsg.c:120-194 | Unpacking with any prefix of the picture yields the matching prefix of the values |
| NullTargets.UnpackDone | src/hsock.c:176-255 | For every pattern of NULL targets unpacking succeeds and leaves the NULL ones alone |
| NullTargets.ElementExactly | src/hsock.c:178-252 | A wanted element is received for all arguments if and only if no NULL target before it is of its kind, scalar or payload |
| NullTargets.UnpackWanted | src/hsock.c:178-252 | When no NULL target comes before a wanted one of its kind, every wanted target receives its own argument |
| NullTargets.UnpackWrong | src/hsock.c:178-252 | When one does, there are arguments for which a wanted target does not, in every message that carries them |
| NullTargets.UnpackBeforeNull | src/hsock.c:178-252 | Whatever the later targets are, unpacking succeeds and every element before the first NULL target is received |
| Picture.PackBound | src/hmsg.c:58-60 | The packed scalars take at most eight bytes per element |
| SockCodec.Serialize | src/hsock.c:84-153 | Leaves the scalars and then the size table behind the header region, keeps the payloads in order, and rejects exactly the invalid pictures |
| SockCodec.StampBuffer | src/hsock.c:263-270 | Copying the header over the front completes the packet and damages nothing behind it |
| SockCodec.HeaderRoundTrip | src/hsock.c:498-501 | The handler reads back every header field that the sender stored |
| SockCodec.PacketLayout | src/amhandlers.h:11-18 | The header is 40 bytes with its five fields at multiples of 8; the scalars follow, then 8 bytes for each payload; the buffer has 4000 bytes |
| SockCodec.TailSizesRoundTrip | src/hsock.c:510-516 | The sizes read from the end of the packet are the payload sizes, for every payload |
| SockCodec.Deserialize | src/hsock.c:155-257 | The unpacking loop computes what `Receive` defines, for any targets, with invalid pictures and overruns as results |
| SockCodec.RebuiltFrames | src/hsock.c:501-516 | Cutting the bare payload bytes at the sizes read from the packet's tail gives the payloads back |
| SockCodec.SocketRoundTrip | src/hsock.c:84-257 | Pack, stamp, ship the packet and the payload bytes, find the sizes in the packet, and unpack with the same picture: every scalar and every payload comes back in order |
| SockCodec.SocketRoundTripExactly | src/hsock.c:84-257 | With NULL targets every wanted target receives its own argument, for all headers and arguments, if and only if no NULL target comes before a wanted one of its kind; the same with a leading `s`, whether the sender is wanted or not |
| SockCodec.SocketRoundTripWithSender | src/hsock.c:160-169 | With a leading `s` the sender's node and mailbox come first |
| Message.Message.VSet | src/hmsg.c:54-109 | Packs every argument within eight bytes per element; rejects exactly the pictures with an invalid element |
| Message.Message.VGet | src/hmsg.c:120-194 | The unpacking loop computes what `Unpack` defines, frees the picture and leaves NULL and length 0 |
| Message.MessageRoundTrip | src/hmsg.c:54-194 | Reading a message through any prefix of its picture yields the matching prefix of the values set |
| Message.MessageRoundTripExactly | src/hmsg.c:54-194 | With NULL targets every wanted target receives its own argument, for all arguments, if and only if no NULL target comes before a wanted one |
| FloodFrame.OwnStep | src/hsock.c:259-317 | A step that changes only one socket's own state keeps the protocol invariant for all others |
| FloodHandlers.TiledArrive | src/hsock.c:554-556 | The copy of one fragment brings exactly its bytes and leaves every other byte of the array |
| FloodHandlers.DeliverFragmentInv | src/hsock.c:547-561 | Handling a fragment, in any order, keeps the invariant |
| FloodHandlers.DeliverAddInv | src/hsock.c:539-541 | An increment reply keeps the count of outstanding fragments right |
| FloodHandlers.DeliverSetInv | src/hsock.c:536-538 | A set reply names the cell of the one socket that waits for it |
| FloodHandlers.DeliverConnectInv | src/hsock.c:475-486 | Answering a connection request keeps the invariant |
| FloodLanding.AnnounceInv | src/hsock.c:507-520 | Allocating the empty frames and sending back their address keeps the invariant |
| FloodLanding.SingleInv | src/hsock.c:521-527 | Enqueuing a message without payloads keeps the invariant |
| FloodLanding.TerminateInv | src/hsock.c:563-570 | Enqueuing the finished frame array keeps the invariant |
| FloodResults.StepInv | src/hsock.c:259-570 | Every step of every socket and every handler keeps the invariant |
| FloodResults.NeverFaults | src/hsock.c:475-570 | In every run no handler touches unallocated memory, an unknown mailbox or an unknown cell |
| FloodResults.Starts | src/hsock.c:574-599 | Any number of newly made sockets with distinct mailboxes is a state to start from |
| FloodResults.Reassembled | src/hsock.c:554-570 | Whenever a termination request can be handled, frame i+1 of the array it names is payload i, byte for byte, under every delivery order |
| FloodResults.Acknowledgements | src/hsock.c:286-308 | While fragments are outstanding, cell + in-flight fragments of this message + in-flight increments = fragments sent, and nothing else in flight names the cell; nothing at all names the cell of an idle socket |
| FloodResults.LandsOnce | src/hsock.c:259-317 | Each send enqueues its message exactly once, before it returns |
| FloodResults.ReceivedInOrder | src/hsock.c:370-380 | What a mailbox's owner took out from one sender is a prefix of what that sender sent there, in order, with equal contents |
| FloodResults.DeliveredDecodes | src/hsock.c:155-257 | The frames of a message decode with its picture to the sender's address and every argument |
| FloodResults.ReplyAddress | src/hsock.c:160-169 | The (node, mailbox) pair read by `s` is the sender's mailbox and no other socket's |
| FloodResults.ConnectOutcome | src/hsock.c:402-415 | A connect returns with the value of the reply sent to it: an existing mailbox on that node, or NULL |
| FloodConnect.ConnectAnswer | src/hsock.c:382-486 | When a connect to (node, endpoint) returns, its own request was handled since it began, and the value returned is the registry's entry for that endpoint just before that step, NULL if and only if it was unbound then |
| FloodCalls.SendLands | src/hsock.c:259-317 | From every moment at which a socket is idle, a send of any arguments in range that fit 4000 bytes, to any mailbox, runs to its end by steps on its own behalf, and gives that mailbox exactly this message and no other mailbox anything |
| FloodEnds.AnswerIs | src/hctx.c:182-227 | The registry's answer for an endpoint is the mailbox of the socket whose bind took effect last and was not undone, by the binds and unbinds of the schedule alone |
| FloodEnds.ConnectReturns | src/hsock.c:382-416 | A connect leaves its client idle and with the mailbox of whoever held the endpoint when its request was handled, and with the server it had if nobody did |
| FloodEnds.ConnectGoesThrough | src/hsock.c:382-416 | From every moment at which a socket is idle a connect runs to its end, with the holder of that moment as its outcome |
| FloodEnds.TakeDelivers | src/hsock.c:370-380 | A receipt by an idle socket takes exactly the oldest message of its mailbox |
| FloodEnds.ClientReachesServer | src/hsock.c:382-443 | A client that connects to an endpoint bound to a server and then sends gives exactly its message to that server's mailbox |
| FloodEnds.AnyOrder | src/hsock.c:474-570 | Whatever is in flight may be handled now, whatever else is in flight |
| FloodEnds.FloodGoesOn | src/hsock.c:286-304 | A flood sends its next fragment at any moment, however many are unacknowledged |
| FloodMemory.NothingLeaks | src/hsock.c:496-570 | In every run each frame array in memory is being filled for some socket or waits in a mailbox |
| FloodReceipt.Receipt | src/hsock.c:354-380 | Every message ever taken out of a mailbox was sent to it by some socket and decodes to exactly the arguments sent, with an address that leads back to that socket alone |
| FloodDelivery.NamesCell | src/hsock.c:474-570 | Every message in flight names the atomic cell of the socket it is in flight for |
| FloodDelivery.DeliveryConcernsOne | src/hsock.c:474-570 | Handling a message changes the state and record of the socket whose cell it names, and of no other |
| MailboxResults.FunnelStep | src/hfunnel.c:64-104 | A tail swap appends to the mailbox, the end of a pop removes the oldest, all other accesses leave it |
| MailboxResults.StillReady | src/hsock.c:259-317 | No other step gets in the way of a handler between its first access to the mailbox and its swap |
| MailboxResults.NextOk | src/hsock.c:354-570 | With handlers inside `hfunnel_push` and receivers inside `hfunnel_pop`, every access keeps each funnel equal to the atomic mailbox |
| MailboxResults.BeginsWith | src/hsock.c:574-599 | Every beginning of the protocol, with a new funnel for each mailbox, is a beginning of the composition |
| MailboxResults.Refines | src/hsock.c:354-570 | Every run with funnels is a run of the protocol with atomic mailboxes whose steps are always ready; the funnels hold the same at every moment, nothing freed is touched, and a pop returns the frame array that the receipt takes |
| MailboxResults.ReceiptThroughFunnels | src/hsock.c:354-570 | So through funnels, too, every message received was sent there by some socket and decodes to the arguments sent |
| MailboxMimics.Mimics | src/hsock.c:354-570 | Conversely, every run of the protocol with atomic mailboxes is one that it goes through with funnels |
| FloodProgress.OwnLowers | src/hsock.c:272-316 | Each step of a sender's thread lowers a lexicographic measure |
| FloodProgress.DeliverLowers | src/hsock.c:475-570 | Each delivery of a message that belongs to the call lowers it |
| FloodProgress.OthersKeep | src/hsock.c:259-317 | No step on behalf of others changes a socket inside a call, or its record |
| FloodProgress.OthersLeave | src/hsock.c:259-317 | No other step changes it |
| FloodProgress.SomeStepReady | src/hsock.c:272-315 | Until the call returns some step on its behalf is ready, also when all payloads are empty |
| FloodProgress.CallsReturn | src/hsock.c:259-317 | The three together, in every reachable state, for sends and connects |
| FloodProgress.CanReturn | src/hsock.c:259-317 | From every state of the invariant the call can be run to its end by steps on its own behalf |
| Flood.SendAll | src/hsock.c:286-304 | The nested loops send exactly the fragments from the first cursor position on and count them |
| Flood.StepSendsNextPiece | src/hsock.c:294-303 | One step of the machine posts the next fragment of those loops |
| Flood.PiecesOk | src/hsock.c:294-303 | Every fragment names the frame array and the cell and carries the bytes of its place in its payload: 4000 of them, unless the payload ends first |
| Flood.PiecesTile | src/hsock.c:286-304 | Every byte of every payload is in exactly one fragment |
| Flood.CopyFragment | src/hsock.c:554-556 | The copy writes the fragment's bytes at its offset and nothing else |
| Flood.AllocateFrames | src/hsock.c:510-516 | The handler's loop allocates one frame for each payload, of its size |
| PipeResults.PublishInv | src/hpipe.c:87-93 | Publishing a message's address keeps every queued message in memory, unchanged and distinct |
| PipeResults.UnpackMatches | src/hmsg.c:120-194 | Unpacking a frame with a prefix of its picture yields the matching prefix of its values |
| PipeResults.StepInv | src/hpipe.c:87-134 | Every access of either end keeps the invariant of a channel |
| PipeResults.HeldIsOldest | src/hpipe.c:104-112 | The message that a receiver holds is the oldest one not yet delivered |
| PipeResults.TypedFifo | src/hpipe.c:87-134 | In every run the k-th delivery of a channel answers the k-th message sent and carries the values of the prefix asked for; no message is touched after it is destroyed |
| PipeResults.BothDirections | src/hpipe.c:35-59 | In every schedule, what end 1 - e is delivered answers one by one, in order, what end e was given to send, for both e; ends are told apart by the schedule alone |
| PipeResults.NothingLeaks | src/hpipe.c:87-112 | Each message in memory is being sent or waits in the queue |
| PipeCalls.ProducerMoves | src/hpair.c:89-117 | While a message is being sent its accesses reach the ring at once, whatever the other end does |
| PipeCalls.ConsumerMoves | src/hpair.c:119-150 | The same for a receipt |
| PipeCalls.SendGoesThrough | src/hpipe.c:87-93 | A send that finds a slot to spare publishes exactly its letter, for every letter with a valid picture |
| PipeCalls.RecvGoesThrough | src/hpipe.c:104-112 | A receipt that finds a message waiting is delivered one |
| PipeCalls.Exchange | src/hpipe.c:35-112 | A send by end e and a receipt by end 1 - e go through, and with nothing waiting before, what is received is what was just sent |
| Pair.Pair.constructor | src/hpair.c:24-39 | A new pair has free endpoints, clear signals and two rings of the sizes made of its `int` high-water marks; it is in order if and only if both are positive |
| Pair.Pair.Connect | src/hpair.c:63-79 | Hands out endpoint 0, then 1, each to one caller, and then none |
| Pair.Pair.TrySgnl | src/hpair.c:166-184 | One turn succeeds exactly when the cell is 0, and signals minus waits stays equal to the cell |
| Pair.Pair.TryWait | src/hpair.c:186-204 | One turn succeeds exactly when the cell is 1, and signals minus waits stays equal to the cell |
| Pair.Pipe.constructor | src/hpipe.c:27-62 | An end takes the first free endpoint of its pair, and that endpoint is taken afterwards |
| Pair.NewPipes | src/hactor.c:47-50 | The two pipes of a new pair are crossed: what one sends or signals the other receives or waits for; each ring has 512 slots |
| Pair.Pipe.TrySend | src/hpair.c:89-117 | One turn appends to the outgoing queue exactly when that has a slot to spare, and otherwise does nothing; the incoming queue is untouched |
| Pair.Pipe.TryRecv | src/hpair.c:119-164 | One turn takes the oldest message of the incoming queue exactly when there is one; this is also all of peek |
| Pair.Pipe.TrySgnl | src/hpipe.c:43-55 | Signals travel in the direction of this end's sends |
| Pair.Pipe.TryWait | src/hpipe.c:43-55 | Waits listen to the other end's signals |
| Actor.RunSemaphore | src/hpair.c:166-204 | In every run the cell equals completed signals minus completed waits and is 0 or 1 |
| Actor.FaultExactlyWhen | src/hactor.c:27-80 | A step faults if and only if the child uses its pipe after it was freed |
| Actor.SafeDestroy | src/hactor.c:27-80 | If the handler signals at most as often as the parent waited before destroy, destroy frees only after the handler returned and `run` made its last access; with fewer signals it frees nothing |
| Actor.EarlyDestroy | src/hactor.c:27-80 | For every larger number of signals there is a run that frees the pair under a running handler |
| Actor.SafeExactlyWhen | src/hactor.c:27-80 | No run uses freed memory if and only if the handler's signals do not outnumber those waits |
| Actor.DestroyWait | src/hactor.c:27-71 | Once `run` has signalled, the wait of destroy succeeds if and only if the handler itself signalled as often as the parent waited before |
| Actor.BlockedForever | src/hactor.c:71 | Otherwise the parent stays in destroy forever, whatever happens |
| Actor.ReturnsExactlyWhen | src/hactor.c:60-80 | Some run gets through destroy if and only if the handler may signal at least as often as the parent waited before |
| Actor.UsableExactlyWhen | src/hactor.c:27-80 | Destroy can return, and is safe in every run, if and only if the two numbers are equal |

## Left out

- GASNet bootstrap, segment tables, barriers and the exchange of peer contexts (`src/hctx.c:32-77`): foreign calls; a connect names the peer's context directly.
- Memory fences and weak ordering: every atomic access is one sequentially consistent step. Sleep and spin hints have no effect, and a spin loop is a turn that may be tried again.
- `kh_clear`, string and 64-bit hashes, iteration macros and the growth of `kvec`: they add only easy members.
- Tag checks, logging, `errno`, varargs and thread creation: arguments are typed lists, threads are ids, a process exit after `LOG_ERR` is a result value.
- Concurrent `hctx_register` calls: the lock is dropped at `src/hctx.c:158` before the bit is cleared at line 164, so registration is modelled for sequential calls.
- Payloads of 4 GB and more, which the code asserts away (`src/hsock.c:290`).
- Nodes still queued at `hfunnel_destroy` (they leak), and destroying a socket while messages for it are in flight.
- `hsock_peek` on a bound socket, which is a blocking receive; `hpair_disconnect`, which frees an endpoint for a later `hpair_connect`.
- HashTable.Table.Resize: `realloc` is a copy into a new array, so the address that the caller may have kept is not part of the model.
- TableLayout.UpperBoundBelow: the bound `n * 0.77 + 0.5` is computed exactly, as (77n + 50) / 100; for powers of two up to 2^31 the rounding of doubles makes no difference.
- RingModel: the index step `& size_mask` is written `% size`, which is the same for the power-of-two sizes that `hqueue_new` makes.
- RingModel: the indices `head` and `tail` are `gasnett_atomic_t` (`src/hqueue.c:16-20`), whose width is GASNet's choice; they are assumed to hold every index below the size.
- Ring.HQueue.constructor: size sums beyond 64 bits (`src/hqueue.c:49-50`) are not wrapped, and what a queue without slots does when used is not modelled.
- PipeResults.Independent: says only that the two queues do not influence each other; which end uses which is the subject of BothDirections.
- Lifecycle.Socket.Connect: the request and its reply are one lookup here; FloodConnect.ConnectAnswer treats them as messages.
- SockCodec.Serialize: asks that the packet fits the 4000-byte buffer, because writing past it is undefined in C.
- Funnel.Funnel.Push: values are non-NULL, because NULL means that nothing was found (`src/hfunnel.c:103`). The imperative Push and Pop run without interruption; interleaving is the subject of the step machine.
- FloodModel: a handler is one step and a mailbox is a queue there; MailboxResults.Refines takes both apart at the mailbox, where threads meet. A compare-and-swap together with the send that follows it is one step. The fragment counter does not wrap at 2^64. Newly allocated frames are zero, which nothing depends on.
- FloodModel: registering and destroying sockets during traffic is not part of the protocol's steps; binding and unbinding are, and may happen at any moment.
- SockCodec.HeaderRoundTrip: the padding bytes of the header are zero.
- Actor.UsableExactlyWhen: a handler that may signal m times may also stop early, and destroy then blocks as DestroyWait and BlockedForever say. The heap objects are not modelled one by one; a fault is any use of a pipe or pair by the child after it was freed.
