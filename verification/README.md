# memcached 1.2.8 and libevent 1.2: a verified model

Two programs are modelled, each from its C sources.

**memcached 1.2.8** keeps a cache in four structures that change together: an incrementally growing hash
table, an LRU list for each slab class, reference counts with a list of deferred deletes, and a slab
allocator. Around it are a connection state machine that frames the input and splits the output, and a
protocol that hands connections to worker threads.

**libevent 1.2** is a timer and priority scheduler with callbacks that call back into it, a poll set that is
changed while it is walked, a growable byte buffer, a nibble-coded tag/length/value format with a schema
compiler on top, and a DNS name codec with compression pointers.

Each part that changes state in place is a class whose methods follow the source statement by statement
(`ItemStore`, `Lru`, `AssocTable`, `FramingConn`, `OutputConn`, `SlabAllocator`, `ConnQueue`, `EventLoop`,
`PollSet`, `EvBuffer`, and the loops in `EvTag`, `DnsCode`, `HashReads`, `RpcTheorems`). Every such method is
proved equal to a function on values, or, for the lists and buffers, against the sequence they hold; the theorems
are about those functions and about whole runs of them. `ItemStore` and `EventLoop` keep each linked list as a
sequence and the hash table as a map; `Lru` and `AssocTable` have memcached's link fields and arrays.

| part | value model and theorems | class or loops that change variables in place |
|---|---|---|
| item cache | `ItemCache`, `ItemCacheSteps`, `ItemCacheOps`, `ItemCacheView`, `ItemCacheStore`, `ItemCacheStoreProof`, `ItemCacheRun`, `ItemCacheTheorems`, `ItemCacheEffects`, `Counters` | `ItemStore`, `Lru` |
| hash table | `Assoc`, `AssocRun` | `AssocTable` |
| hash function | `Hash` | `HashReads` |
| slab allocator | `Slabs`, `SlabPool`, `SlabRun` | `SlabAllocator` |
| input framing | `Framing`, `FramingText` | `FramingConn` |
| output | `Output`, `OutputSend` | `OutputConn` |
| worker threads | `Dispatch`, `DispatchOrder` | `ConnQueue` |
| event base | `Timeval`, `EventBase`, `EventSteps`, `EventCalls`, `EventTimers`, `EventRun`, `EventDelete`, `EventPass`, `EventEffects` | `EventLoop` |
| poll set | `Poll`, `PollReady` | `PollSet` |
| tagged data and RPC | `EvTag`, `EvTagNibbles`, `Rpc`, `RpcGaps`, `RpcRound`, `RpcAccept`, `RpcTheorems`, `RpcCrash` | loops in `EvTag` and `RpcTheorems` |
| DNS names | `DnsName`, `DnsRound`, `DnsPointer` | `DnsCode` |
| byte buffer | `EvBuffer` | `EvBuffer` |

Some promises turn out not to hold of the code as it stands. Each is kept as the code has it, with the exact
condition under which it holds and an input for which it fails:

- A `flush_all` with a delay replaces the flush time, and every item that an earlier `flush_all` had hidden but
  not unlinked can be read again (`ItemCacheTheorems.FlushUnhides`, `ItemCacheTheorems.UnhidingRun`).
- A `delete` with a delay hides its item until then, except for a negative delay that `realtime` turns into 0: the
  item waits on todelete and is read all the same, and a second such delete queues it twice
  (`ItemCacheRun.FoundQueued`, `ItemCacheTheorems.QueuedRun`).
- When the stream ends in the same `try_read_network` call in which a command line arrives, that line is never
  handed on (`Framing.EndOfStream`, `Framing.EndOfStreamCounterexample`).
- `event_del` writes through a pointer left over from an event's own loop, and so can cut short the repeats of
  another event, or write to a counter that is gone (`EventDelete.DeleteCutsAnother`, `EventDelete.CutRun`,
  `EventDelete.DeleteStrays`, `EventDelete.StrayRun`); and an event that is made active again and deleted inside its own callback is
  repeated all the same (`EventDelete.RevivedThenDeletedRepeats`).
- `evtag_marshal` takes a 16-bit length: a longer payload comes back cut, without an error
  (`RpcTheorems.RoundTripExactly`, `RpcTheorems.LongBytesCut`).
- A required struct that was never sent is followed as a null pointer instead of being reported missing, if it is
  the first required entry that is missing and the struct has an entry that is required or nested
  (`RpcTheorems.CompleteExactly`, `RpcTheorems.TripExactly`, `RpcTheorems.MissingStructBreaks`; for which schemas
  that can happen: `RpcCrash.BreaksExactly`, `RpcCrash.CrashesExactly`). If all entries of the struct are optional
  and plain it is not missed at all (`RpcTheorems.HollowAccepted`).
- `name_parse` does not end on a cycle of compression pointers (`DnsName.EndsExactly`,
  `DnsName.SelfPointerLoops`), and a name with an empty label is read back only up to that label
  (`DnsRound.NameRoundTrip`, `DnsRound.EmptyLabelCuts`).

Where comments and code disagree the model follows the code: `evdns.c` says that only two set bits mark a
pointer, but any length byte of 64 or more is taken for one; `event_add` claims to abort a running loop of an
active event, which never happens (`EventRun.RescheduleLoop`).

## Model

| member | source | states |
|---|---|---|
| ItemCacheTheorems.ReachableCoherent | memcached-1.2.8/items.c:186-315 | in every state that any commands reach, an item is flagged linked iff it is in the table under its key and exactly once on its class's list; sizes, curr_items and curr_bytes are what the lists hold; every reference count is the references held plus the todelete entries; a free chunk is free once and not in use |
| ItemCacheTheorems.ChunksReturnOnce | memcached-1.2.8/items.c:186-200 | over any run a chunk goes back to the slab allocator at most once, and then only unlinked and with no reference |
| ItemCacheTheorems.StoreKeepsCounts | memcached-1.2.8/memcached.c:834-930 | do_store_item leaves every reference count that was positive as it was |
| ItemCacheTheorems.CasReplacesThatVersion | memcached-1.2.8/memcached.c:834-930 | however many commands run between a gets and a cas with its id, a cas that stores replaces exactly the contents that gets reported |
| ItemCacheTheorems.FlushBuries | memcached-1.2.8/items.c:526-548 | flush_all with a time that has come leaves nothing readable that was linked |
| ItemCacheTheorems.FlushedForGood | memcached-1.2.8/memcached.c:1691-1726 | after an immediate flush_all, in any run whose later flushes have come, no get returns an item linked before it |
| ItemCacheTheorems.LaterLinksNotHidden | memcached-1.2.8/items.c:479-483 | what is linked after an immediate flush_all, in any run, is not hidden by it as long as its flush time stands |
| ItemCacheTheorems.FlushUnhides | memcached-1.2.8/memcached.c:1712-1724 | an item that an earlier flush_all hides is returned by a get after the next one exactly if the next one's time is 0 or has not come and the item is neither under a delete lock nor expired |
| ItemCacheTheorems.UnhidingRun | memcached-1.2.8/memcached.c:1712-1724 | a concrete run of commands after which a flushed item is returned by get |
| ItemCacheTheorems.QueuedRun | memcached-1.2.8/memcached.c:120-138 | a concrete run in which a delete with a delay that realtime turns into 0 leaves its item readable, and a second one queues it twice |
| ItemCacheStoreProof.StoreRefines | memcached-1.2.8/memcached.c:834-930 | set, add, replace, append, prepend and cas do to the visible entries what an abstract store does, up to the eviction of one item nobody holds, and leave the references held as they were |
| ItemCacheEffects.JoinStored | memcached-1.2.8/memcached.c:893-911 | a stored append or prepend leaves under its key, with the flags and expiry that were there, the old and the new value one after the other without the line end between them, said of lengths and slices |
| ItemCacheEffects.JoinStoredText | memcached-1.2.8/memcached.c:893-911 | with line ends: `v` and `w` give `vw` when appended and `wv` when prepended, and one line end |
| ItemCacheEffects.JoinIsStored | memcached-1.2.8/memcached.c:876-911 | append and prepend are stored whenever the key can be read and the allocator has a chunk for the two values |
| ItemCacheEffects.GetReads | memcached-1.2.8/items.c:450-509 | a lookup returns just the keys that are there, under no delete lock whose time has not come, linked after the last flush whose time has come, and not expired; it takes one reference and changes no entry |
| ItemCacheEffects.FetchEffect | memcached-1.2.8/items.c:304-315 | a get stamps the entry with the time if it was not touched for a minute, and changes nothing else that a client sees |
| ItemCacheEffects.FetchHead | memcached-1.2.8/items.c:304-315 | and its item goes to the head of its list, the others staying in their order |
| ItemCacheEffects.FetchMisses | memcached-1.2.8/items.c:450-509 | a get that finds nothing throws out just the stale entry of its key, and holds nothing |
| ItemCacheEffects.BeginEffect | memcached-1.2.8/memcached.c:1409-1433 | the command line of a storage command gets a new chunk with the client's cas id in it; if there is none, a set removes the old value and the others change nothing but an eviction |
| ItemCacheEffects.FootprintIs | memcached-1.2.8/items.c:85-89 | the size asked for is that of the header, the key with its null byte, the text of flags and length in decimal, and the data |
| ItemCacheStoreProof.AllocEffect | memcached-1.2.8/items.c:92-184 | do_item_alloc changes the visible entries by at most one evicted item that had no reference, and returns a chunk that was not in use |
| ItemCacheEffects.AllocEvicts | memcached-1.2.8/items.c:104-160 | without a chunk at first, and with eviction on, just the unreferenced item nearest the tail of its class leaves the cache, if one is among the last fifty; without eviction nothing happens |
| ItemCacheStoreProof.GetEffect | memcached-1.2.8/items.c:450-509 | a lookup removes only an entry that is flushed or expired, and adds one reference to what it returns |
| ItemCacheRun.RunKeeps | memcached-1.2.8/memcached.c:1625-1772 | every sequence of commands keeps the whole invariant of the cache |
| ItemCacheRun.FoundQueued | memcached-1.2.8/items.c:450-509 | a lookup of an item that waits on todelete returns it exactly if its time there is 0 and no flush hides it |
| ItemCacheRun.ReapKeeps | memcached-1.2.8/memcached.c:2586-2602 | running the deferred deletes from any entry on keeps the whole invariant, so that no count loses its entry, and the history of links and cas ids only grows |
| ItemCacheEffects.ReapEffect | memcached-1.2.8/memcached.c:2586-2602 | the entries of todelete that are due leave it, the others stay in order; the table loses just the keys of due items, no caller's reference is lost and no other item changes |
| ItemCacheEffects.ReapView | memcached-1.2.8/memcached.c:2586-2602 | of the entries that clients see just those whose items waited and were due are gone, and the others are as they were |
| ItemCacheEffects.ReapFrees | memcached-1.2.8/memcached.c:2586-2602 | an item that waited, was due and is in no caller's hands goes back to its slab |
| ItemCacheRun.DeferKeeps | memcached-1.2.8/memcached.c:1587-1610 | do_defer_delete with the caller's reference keeps the whole invariant, for any time and for an item that is queued already: the count is still that of references plus todelete entries |
| ItemCacheRun.DeleteKeeps | memcached-1.2.8/memcached.c:1535-1610 | delete keeps the whole invariant, at once, deferred to whatever time realtime gives, or given up when todelete cannot grow |
| ItemCacheEffects.DeleteEffect | memcached-1.2.8/memcached.c:1568-1572 | delete without a delay removes just its key, unless a delete lock holds the key and then nothing changes; no reference stays behind, and a get of the key finds nothing afterwards |
| ItemCacheEffects.DeferEffect | memcached-1.2.8/memcached.c:1606-1610 | delete with a delay leaves the entry with its new time and the flag, the item at the end of todelete with the command's reference, and every other entry as it was |
| ItemCacheEffects.DeferredHidden | memcached-1.2.8/memcached.c:1535-1610 | a delete put off by d seconds, up to thirty days, hides the key from then on; it is locked exactly until now + d |
| ItemCacheEffects.NoRoomEffect | memcached-1.2.8/memcached.c:1592-1603 | when todelete cannot grow nothing changes and the reference is given back |
| ItemCacheEffects.RealtimeIs | memcached-1.2.8/memcached.c:120-138 | up to thirty days a time counts from now, beyond that from the calendar: 1 if the program had not started then |
| ItemCacheRun.IncrKeeps | memcached-1.2.8/memcached.c:1489-1533 | incr and decr, in place or through a new item, keep the whole invariant, distinct cas ids included |
| ItemCacheEffects.IncrInPlace | memcached-1.2.8/memcached.c:1524-1531 | a number no longer than the old value is written at its front, with spaces up to the line end that was there, and a new cas id |
| ItemCacheEffects.IncrReplaced | memcached-1.2.8/memcached.c:1511-1523 | a longer one becomes a new item with the flags and the expiry of the old, if a chunk is had; otherwise nothing changes but an eviction of another item |
| Counters.CounterStep | memcached-1.2.8/memcached.c:1489-1533 | after incr or decr a key that held a number holds the new one, as it is read back from the text; it is as it was only if the number has become longer than the text and no chunk is had |
| Counters.NewValueIs | memcached-1.2.8/memcached.c:1498-1506 | incr adds modulo 2^64, negative deltas included; decr by a delta that is not negative stops at 0 |
| ItemCacheRun.FlushWalkClears | memcached-1.2.8/items.c:535-548 | the walk of flush_all may stop at the first old item: the list then holds only items older than the flush time, and the invariant is kept |
| ItemCacheSteps.LinkKeeps | memcached-1.2.8/items.c:255-275 | do_item_link of an item whose key is absent keeps the whole invariant: flag, table, list order, counters, references, distinct cas ids |
| ItemCacheSteps.UnlinkKeeps | memcached-1.2.8/items.c:277-289 | do_item_unlink keeps the whole invariant, with and without references left |
| ItemCacheSteps.RemoveKeeps | memcached-1.2.8/items.c:291-302 | do_item_remove of a held item keeps the invariant |
| ItemCacheSteps.UpdateKeeps | memcached-1.2.8/items.c:304-315 | do_item_update keeps the invariant, the lists newest first in particular |
| ItemCacheOps.AllocKeeps | memcached-1.2.8/items.c:92-184 | do_item_alloc keeps the invariant in each of its branches, eviction included |
| ItemStore.Store.DoItemAlloc | memcached-1.2.8/items.c:92-184 | the in-place allocation with its search of at most fifty items from the tail computes the allocation of the value model |
| ItemStore.Store.EvictSearch | memcached-1.2.8/items.c:128-140 | the loop finds the unreferenced item nearest the tail, or none |
| ItemStore.Store.DoItemLink | memcached-1.2.8/items.c:255-275 | in-place linking equals the value model's step |
| ItemStore.Store.DoItemUnlink | memcached-1.2.8/items.c:277-289 | in-place unlinking equals the value model's step |
| ItemStore.Store.DoItemRemove | memcached-1.2.8/items.c:291-302 | dropping a reference in place equals the value model's step |
| ItemStore.Store.DoItemUpdate | memcached-1.2.8/items.c:304-315 | refreshing an item in place equals the value model's step |
| ItemStore.Store.DoItemReplace | memcached-1.2.8/items.c:317-324 | replacing in place equals unlinking and linking |
| ItemStore.Store.DoItemGetNotedeleted | memcached-1.2.8/items.c:450-509 | the lookup with its delete lock, lazy flush and lazy expiry equals the value model's |
| ItemStore.Store.DoItemFlushExpired | memcached-1.2.8/items.c:526-548 | the walk over all lists equals the value model's flush |
| ItemStore.Store.DoRunDeferredDeletes | memcached-1.2.8/memcached.c:2586-2602 | the compacting loop over todelete equals the value model's reaping |
| ItemStore.Store.DoDeferDelete | memcached-1.2.8/memcached.c:1587-1610 | the entry at the end of todelete, its doubling, and the refusal when realloc fails equal the value model's |
| ItemStore.Store.DoStoreItem | memcached-1.2.8/memcached.c:834-930 | the in-place command, all branches, equals the value model's store |
| Lru.LinkCoherent | memcached-1.2.8/items.c:214-230 | the pointer writes of item_link_q put an item at the head of its list and touch no other list |
| Lru.UnlinkCoherent | memcached-1.2.8/items.c:232-253 | the pointer writes of item_unlink_q take just that item out, head and tail included |
| Lru.Queues.ItemLinkQ | memcached-1.2.8/items.c:214-230 | on next, prev, heads, tails and sizes: the list gains the item at its head |
| Lru.Queues.ItemUnlinkQ | memcached-1.2.8/items.c:232-253 | on next, prev, heads, tails and sizes: the list loses the item |
| Assoc.SplitBucket | memcached-1.2.8/assoc.c:486-511 | (h mod 2^(n+1)) mod 2^n is h mod 2^n: the keys of an old bucket are those of the two new ones it splits into |
| Assoc.FindIff | memcached-1.2.8/assoc.c:486-511 | a lookup finds an item exactly if the table holds it and it has the key |
| Assoc.InsertFinds | memcached-1.2.8/assoc.c:580-604 | an insertion, growth included, adds its key and changes no other lookup |
| Assoc.DeleteFinds | memcached-1.2.8/assoc.c:606-624 | a deletion removes its key and changes no other lookup |
| Assoc.MoveNextFinds | memcached-1.2.8/assoc.c:554-577 | migrating a bucket changes no lookup |
| AssocRun.RunStands | memcached-1.2.8/assoc.c:486-624 | for every interleaving of insertions, deletions and single-bucket migrations, chunks reused under other keys included, each lookup is that of a map, and hash_items is its size |
| AssocRun.InitStands | memcached-1.2.8/assoc.c:478-484 | a new table stands for the empty map |
| AssocRun.ExpansionStarts | memcached-1.2.8/assoc.c:536-551 | an insertion beyond 3/2 of the buckets starts an expansion with one migration made |
| AssocRun.ExpansionEndsInTime | memcached-1.2.8/assoc.c:554-577 | with a migration between any two insertions an expansion of 2^n buckets takes exactly 2^n migrations and ends before the items pass 3/2 of the new size |
| AssocTable.HashTable.AssocFind | memcached-1.2.8/assoc.c:486-511 | the walk down a chain finds what the value model finds |
| AssocTable.HashTable.AssocInsert | memcached-1.2.8/assoc.c:580-604 | the pointer insertion and the growth test equal the value model's |
| AssocTable.HashTable.AssocDelete | memcached-1.2.8/assoc.c:606-624 | unlinking through the pointer that _hashitem_before finds equals the value model's deletion |
| AssocTable.HashTable.AssocExpand | memcached-1.2.8/assoc.c:536-551 | swapping in the larger table and moving one bucket equals the value model's expansion |
| AssocTable.HashTable.MoveNextBucket | memcached-1.2.8/assoc.c:554-577 | moving every item of one old chain equals the value model's migration |
| Hash.MixReversible | memcached-1.2.8/assoc.c:46-101 | mix is a bijection on triples of 32-bit words, as its comment promises |
| Hash.FinalReversible | memcached-1.2.8/assoc.c:103-137 | final is a bijection on triples of 32-bit words |
| Hash.MixInPlace | memcached-1.2.8/assoc.c:93-101 | the eighteen assignments of mix are its six lines |
| Hash.FinalInPlace | memcached-1.2.8/assoc.c:128-137 | the assignments of final are its seven lines |
| HashReads.AddWord | memcached-1.2.8/assoc.c:152-198 | a masked aligned read adds just the key's bytes of the word |
| HashReads.AddHalves | memcached-1.2.8/assoc.c:220-265 | reading by half words adds the same |
| HashReads.AddBytes | memcached-1.2.8/assoc.c:267-308 | the falling-through byte reads add the same |
| HashReads.HashKey | memcached-1.2.8/assoc.c:143-312 | the result is one function of the key's bytes and initval, for every address, length and memory behind the key |
| Slabs.ClassIdLeast | memcached-1.2.8/slabs.c:85-94 | slabs_clsid gives the lowest class that is large enough, and 0 exactly if there is none |
| Slabs.ClassTable | memcached-1.2.8/slabs.c:100-141 | for every first size and growth factor the classes are 8-byte aligned, in order, at most 200, and end with a whole slab |
| Slabs.ClassesGrow | memcached-1.2.8/slabs.c:124-141 | each class but the last is the first size, or the one before times the factor cut to an integer, rounded up to eight; they go on until the next would be more than half a slab or there are two hundred |
| Slabs.EveryObjectFits | memcached-1.2.8/slabs.c:85-141 | on that table a class is found exactly for objects of at most one slab, and it has the smallest chunks that fit |
| Slabs.SlabsClsid | memcached-1.2.8/slabs.c:85-94 | the loop computes that class |
| Slabs.LayOut | memcached-1.2.8/slabs.c:100-141 | the loop of slabs_init computes that table |
| SlabRun.AllocValid | memcached-1.2.8/slabs.c:223-273 | a chunk that is given out is the class's own and was not live; none is given exactly if the class has none and no slab can be had |
| SlabRun.AllocExactly | memcached-1.2.8/slabs.c:194-273 | a chunk is given exactly if the class has an idle one or a further slab can be had under the limit; an idle one costs no memory, a new slab adds its other chunks, and other classes are not touched |
| SlabRun.SlabsFilled | memcached-1.2.8/slabs.c:124-141 | in every run from slabs_init a slab holds as many chunks as one mebibyte has room for |
| SlabRun.FreeValid | memcached-1.2.8/slabs.c:275-302 | freeing a live chunk keeps the accounts |
| SlabRun.RunAccounts | memcached-1.2.8/slabs.c:194-302 | in every run live, free and unused chunks are all of a class's chunks, once each and slabs times perslab in number; mem_malloced exceeds the limit by at most one slab a class |
| SlabRun.ChunksNeverOverlap | memcached-1.2.8/slabs.c:194-302 | any two chunks, of one class or two, are in different memory |
| SlabRun.MemoryFresh | memcached-1.2.8/slabs.c:410-437 | memory_allocate gives an aligned block that overlaps no slab |
| SlabRun.StartedValid | memcached-1.2.8/slabs.c:100-141 | the allocator is in order after slabs_init |
| SlabAllocator.Allocator.DoSlabsAlloc | memcached-1.2.8/slabs.c:223-273 | the in-place allocation equals the value model's |
| SlabAllocator.Allocator.DoSlabsNewslab | memcached-1.2.8/slabs.c:194-220 | the limit test and the new slab equal the value model's |
| SlabAllocator.Allocator.AllocateMemory | memcached-1.2.8/slabs.c:410-437 | memory off the region in advance, or malloc's |
| SlabAllocator.Allocator.DoSlabsFree | memcached-1.2.8/slabs.c:275-302 | the chunk goes on top of the free list |
| Framing.SplitIndependent | memcached-1.2.8/memcached.c:2071-2180 | two connections that got the same bytes in different reads and now wait have handed on the same lines and blocks |
| Framing.HandedOnIsPrefix | memcached-1.2.8/memcached.c:2071-2180 | whatever the reads return, what was handed on is a first part of what the stream means |
| Framing.WaitingHandedOnAll | memcached-1.2.8/memcached.c:1777-1804 | a connection that waits for input has handed on every line and block of the bytes received |
| FramingText.FeedMeans | memcached-1.2.8/memcached.c:1777-1804 | the reference hands on the text of each line without its line end, a carriage return before the newline included unless it is all there is, and blocks of exactly the bytes asked for, and nothing else: said of whole lines and blocks, as an equivalence |
| FramingText.WaitingMeans | memcached-1.2.8/memcached.c:2071-2180 | a connection that waits has handed on exactly the lines and blocks that its bytes mean in this sense |
| FramingText.PrefixMeans | memcached-1.2.8/memcached.c:2071-2180 | whatever the reads return, what was handed on is a first part of that |
| FramingText.MeansOnce | memcached-1.2.8/memcached.c:1777-1804 | a stream has one meaning |
| FramingText.StripCarries | memcached-1.2.8/memcached.c:1786-1792 | a line ending in a newline carries one command text, the one the code hands on |
| FramingText.FirstHandedOn | memcached-1.2.8/memcached.c:1777-1804 | the first command of a connection is handed on without its line end in each form the protocol allows, whatever the reads, and a data block it asks for is exactly the next n bytes |
| Framing.EndOfStream | memcached-1.2.8/memcached.c:1851-1914 | when the client closes while a line is read, everything sent was handed on exactly if the bytes still unread before the last round hold no line end |
| Framing.EndOfStreamCounterexample | memcached-1.2.8/memcached.c:1851-1914 | a stream that fills the buffer and ends: its line is never handed on |
| FramingConn.Connection.TryReadCommand | memcached-1.2.8/memcached.c:1777-1804 | finding, handing on and skipping one line in place equals the value model's |
| FramingConn.Connection.TryReadNetwork | memcached-1.2.8/memcached.c:1851-1914 | the memmove, the reads and the doubling equal the value model's |
| FramingConn.Connection.ConnSetState | memcached-1.2.8/memcached.c:482-551 | shrinking the buffer loses no byte of the window |
| FramingConn.Connection.Round | memcached-1.2.8/memcached.c:2071-2180 | one turn of drive_machine equals the value model's |
| FramingConn.Connection.DriveMachine | memcached-1.2.8/memcached.c:2031-2255 | any number of turns equals the value model's run |
| Output.ResponseInOrder | memcached-1.2.8/memcached.c:203-239 | from lists of any sizes: the iovecs, headers aside, are the buffers added; message i starts at the sum of the earlier lengths; no message has more than IOV_MAX entries; every UDP and the first TCP message has at most 1400 bytes |
| Output.AddIovKeeps | memcached-1.2.8/memcached.c:648-695 | add_iov appends just its data, cut where messages are full |
| Output.ChainedRepoint | memcached-1.2.8/memcached.c:630-634 | after a reallocation the loop puts every message where it was |
| OutputSend.TransmitConserves | memcached-1.2.8/memcached.c:1973-2029 | bytes sent and bytes remaining are those that remained; COMPLETE only if none did; INCOMPLETE exactly with progress |
| OutputSend.TransmitOutcome | memcached-1.2.8/memcached.c:1973-2029 | COMPLETE exactly if no message is left to send of, SOFT_ERROR exactly if one is and the socket is full, HARD_ERROR exactly if one is and sendmsg fails or nothing goes out; otherwise as many bytes go out as sendmsg takes |
| OutputSend.SentInOrder | memcached-1.2.8/memcached.c:1973-2029 | from lists of any sizes, after any partial sends, what went out and what remains are the response's bytes in order |
| OutputConn.Conn.EnsureIovSpace | memcached-1.2.8/memcached.c:618-638 | the reallocation with its loop equals the value model's |
| OutputConn.Conn.Restart | memcached-1.2.8/memcached.c:1643-1649 | the next response starts from lists of the sizes they have grown to |
| OutputConn.Conn.AddMsghdr | memcached-1.2.8/memcached.c:203-239 | the new message, with room for a UDP header, equals the value model's |
| OutputConn.Conn.AddIovec | memcached-1.2.8/memcached.c:648-695 | the do-while loop equals the value model's |
| OutputConn.Conn.TransmitNext | memcached-1.2.8/memcached.c:1973-2029 | sending once, dropping and trimming entries, equals the value model's |
| Dispatch.EveryRun | memcached-1.2.8/thread.c:125-202 | in every interleaving a worker that read a byte finds a connection; those it has taken are the first sent to it, in order, once each; each item has one owner |
| Dispatch.QuietMeansTaken | memcached-1.2.8/thread.c:341-369 | with no byte under way a worker has taken all that was sent to it exactly if no byte was lost |
| Dispatch.RoundRobin | memcached-1.2.8/thread.c:379-405 | in any run that dispatches as many connections as there are workers, from any state, each worker is sent exactly one |
| DispatchOrder.EachItsShare | memcached-1.2.8/thread.c:341-405 | in every interleaving worker w has taken or queued, in order and once each, the accepted connections whose number is w modulo the number of workers; only the last accepted can still be in the dispatcher's hands |
| ConnQueue.Cq.CqPush | memcached-1.2.8/thread.c:143-154 | on head, tail and next: the queue gains the item at its end |
| ConnQueue.Cq.CqPeek | memcached-1.2.8/thread.c:125-138 | on head, tail and next: the first item leaves the queue, or NULL |
| ConnQueue.CqiFreelist.TakeFree | memcached-1.2.8/thread.c:159-166 | the first time the lock is held: the first free item, or NULL |
| ConnQueue.CqiFreelist.AddBlock | memcached-1.2.8/thread.c:168-189 | the second time: all items of a new block but its first go in front of the free list, whatever it holds by then |
| ConnQueue.CqiFreelist.CqiNew | memcached-1.2.8/thread.c:159-191 | a free item, or the first of 64 new ones whose others become free, when no other thread touches the list in between |
| ConnQueue.CqiFreelist.CqiFree | memcached-1.2.8/thread.c:197-202 | the item becomes the first free one |
| EventRun.RunCoherent | libevent-release-1.2/event.c:604-895 | over any run, calls inside callbacks included, the flags name exactly the queues that hold an event, once each, and the two counts are the memberships that are not internal |
| EventRun.FreshInv | libevent-release-1.2/event.c:183-219 | that holds after event_init |
| EventRun.RescheduleLoop | libevent-release-1.2/event.c:635-648 | the abort in event_add never changes a running loop |
| EventCalls.LowestQueueChosen | libevent-release-1.2/event.c:300-316 | a positive active count guarantees a queue that is not empty, and the lowest-numbered one is taken |
| EventEffects.AddEffect | libevent-release-1.2/event.c:605-671 | event_add with a timeout leaves the event in the tree with the deadline now plus the timeout in microseconds, and takes it off its active queue if a timeout had put it there; without one its timer stays; a descriptor's event that is not active ends up at the end of eventq, a signal's in signalq; every other event, queue order and flag is as it was |
| EventEffects.AddedFires | libevent-release-1.2/event.c:779-801 | timeout_process at t makes the added event active by timeout exactly if now plus the timeout is not after t |
| EventEffects.DelLeaves | libevent-release-1.2/event.c:674-715 | event_del takes the event out of the tree, its active queue and eventq, or signalq if it was not in eventq, and leaves every other event and the order of the queues as they were |
| EventEffects.ActiveJoins | libevent-release-1.2/event.c:718-730 | event_active puts an event that is not active at the end of its priority's queue with its reasons and number of calls; one that is active only gains the reasons |
| EventEffects.QuietPass | libevent-release-1.2/event.c:300-330 | when no callback calls anything event_process_active calls the events of the lowest-numbered queue that is not empty, in order, each as often as its number of calls, empties that queue and touches nothing else |
| EventEffects.PriorityUsed | libevent-release-1.2/event.c:556-566 | event_priority_set decides the queue that a later event_active uses, or changes nothing if the event is active or the number out of range |
| EventEffects.SetUpMiddle | libevent-release-1.2/event.c:519-535 | event_set puts an event into the middle priority |
| EventDelete.OwnDeleteStops | libevent-release-1.2/event.c:674-715 | in every reachable state in an event's own callback, deleting it stops its repeats exactly if none remain or it was not made active anew |
| EventDelete.DeletedNotRepeated | libevent-release-1.2/event.c:318-329 | whatever else the callback calls, after it has deleted its own event there is no further repeat |
| EventDelete.RevivedThenDeletedRepeats | libevent-release-1.2/event.c:718-730 | made active again and then deleted in its callback, an event is repeated all the same |
| EventDelete.DeleteCutsAnother | libevent-release-1.2/event.c:694-698 | deleting one event ends the repeats of another exactly if it has a count and a pointer left over from its own loop |
| EventDelete.OwnDeleteLeaves | libevent-release-1.2/event.c:690-698 | an event that deletes itself with repeats to come keeps its count and its pointer |
| EventDelete.DeleteStrays | libevent-release-1.2/event.c:694-698 | outside event_process_active the same leftovers make event_del write to a counter that is gone |
| EventDelete.StrayRun | libevent-release-1.2/event.c:318-329 | a concrete run after which nothing is running and deleting an event again writes to a counter that is gone |
| EventDelete.CutRun | libevent-release-1.2/event.c:318-329 | a concrete run in which an event loses its repeat to the deletion of another |
| EventTimers.TimeoutProcessExact | libevent-release-1.2/event.c:779-801 | exactly the events due by now move to the active queues, in timeout order, behind those waiting; nothing else changes |
| EventTimers.CorrectKeepsWaits | libevent-release-1.2/event.c:763-773 | after a step back of the clock the tree's order and every remaining wait are as before |
| EventTimers.NextNeverLate | libevent-release-1.2/event.c:733-760 | the wait is until the earliest timer, past none, and zero exactly if one is due |
| Timeval.Meaning | libevent-release-1.2/acconfig.h:20-52 | the timeval macros are arithmetic and order of microseconds |
| EventLoop.Loop.QueueInsertEv | libevent-release-1.2/event.c:849-895 | in-place insertion equals the value model's |
| EventLoop.Loop.QueueRemoveEv | libevent-release-1.2/event.c:804-843 | in-place removal equals the value model's |
| EventLoop.Loop.AddEv | libevent-release-1.2/event.c:605-671 | event_add in place equals the value model's |
| EventLoop.Loop.DelEvent | libevent-release-1.2/event.c:674-715 | event_del in place equals the value model's |
| EventLoop.Loop.ActivateEvent | libevent-release-1.2/event.c:718-730 | event_active in place equals the value model's |
| EventLoop.Loop.ProcessTimeouts | libevent-release-1.2/event.c:779-801 | the loop over the tree equals the value model's |
| EventLoop.Loop.ProcessActive | libevent-release-1.2/event.c:300-330 | the nested loops, with any finite script of calls made by the callbacks, end and equal the value model's steps |
| Poll.AddRegisters | libevent-release-1.2/poll.c:224-302 | poll_add is the update of a map from descriptor to reader and writer, and keeps both index arrays inverse |
| Poll.DelRegisters | libevent-release-1.2/poll.c:309-359 | poll_del, swap-removal included, is the removal from that map, and keeps the arrays inverse |
| Poll.WalkDelivers | libevent-release-1.2/poll.c:184-218 | the walk delivers what an unchanging set would, although it removes entries as it goes |
| Poll.DispatchDelivers | libevent-release-1.2/poll.c:154-221 | every slot is dealt with once, in order, with the reader and writer it had when poll returned |
| Poll.ReadyOnce | libevent-release-1.2/poll.c:154-221 | every event that was ready when poll returned is made active exactly once |
| PollReady.DispatchExactly | libevent-release-1.2/poll.c:184-218 | said of what poll reported and who was registered: an event is made active exactly if it was the registered reader of a descriptor reported readable or hung up or the registered writer of one reported writable or hung up, then once, and for just the conditions that are reported and that it waits for |
| PollReady.NobodyElse | libevent-release-1.2/poll.c:184-218 | an event whose descriptor is not polled is not made active |
| PollReady.DispatchLeaves | libevent-release-1.2/poll.c:205-217 | afterwards just the ready events that do not persist are no longer registered, and nobody else's registration changes |
| PollSet.PollOp.PollAdd | libevent-release-1.2/poll.c:224-302 | on the arrays, their growth included: equals the value model's |
| PollSet.PollOp.PollDel | libevent-release-1.2/poll.c:309-359 | on the arrays: equals the value model's |
| PollSet.PollOp.PollDispatch | libevent-release-1.2/poll.c:154-221 | the loop over the arrays equals the value model's walk |
| EvTag.DecodeEncode | libevent-release-1.2/event_tagging.c:69-172 | decode_int undoes encode_int for every 32-bit number, whatever follows, and takes exactly its bytes |
| EvTag.EncodeShortest | libevent-release-1.2/event_tagging.c:141-172 | whatever bytes decode to a number, encode_int uses no more |
| EvTagNibbles.EncodeNibbles | libevent-release-1.2/event_tagging.c:70-93 | the high half of the first byte counts the nibbles after the first; nibble i is hexadecimal digit i, lowest first, two to a byte with the first in the high half, the last one not zero |
| EvTagNibbles.DecodeNibbles | libevent-release-1.2/event_tagging.c:141-172 | decoding fails exactly for an empty buffer, more than eight nibbles or too few bytes; otherwise the number's digits are just those nibbles |
| EvTag.EncodeInt | libevent-release-1.2/event_tagging.c:70-93 | the nibble loop writes that coding |
| EvTag.DecodeInt | libevent-release-1.2/event_tagging.c:141-172 | the nibble loop reads that number, or fails |
| EvTag.UnmarshalMarshal | libevent-release-1.2/event_tagging.c:103-269 | for data of at most 65535 bytes the tag, the data and the rest come back, and the peeked length is right |
| EvTag.MarshalWhole | libevent-release-1.2/event_tagging.c:103-108 | evtag_marshal writes the tag, the coded length and the data, in this order |
| EvTag.UnmarshalMarshalInt | libevent-release-1.2/event_tagging.c:112-298 | the same for integers |
| EvTag.MarshalCuts | libevent-release-1.2/event_tagging.c:103-108 | longer data is written as its first part |
| EvTag.ConsumeMarshal | libevent-release-1.2/event_tagging.c:191-242 | evtag_consume skips exactly the bytes that evtag_peek_length announces |
| EvTag.TimevalRoundTrip | libevent-release-1.2/event_tagging.c:129-360 | a timeval comes back exactly if both fields fit in 32 bits |
| RpcTheorems.RoundTripExactly | libevent-release-1.2/event_rpcgen.py:177-288 | for every schema with distinct tags and every full message, generated unmarshal of generated marshal gives it back exactly if no payload at any depth is longer than 65535 bytes |
| RpcTheorems.LongBytesCut | libevent-release-1.2/event_tagging.c:103-108 | a longer payload comes back cut, without an error |
| RpcTheorems.TripExactly | libevent-release-1.2/event_rpcgen.py:196-246 | for every schema with distinct tags, bytes that hold just the set entries of a message are accepted as that message exactly if no payload is cut and no required entry is missed; otherwise the first one missed, nested messages first, decides between -1 and following a null pointer |
| RpcTheorems.AcceptedAgain | libevent-release-1.2/event_rpcgen.py:196-273 | whatever bytes are accepted give a message that misses no required entry, as X_complete sees it; if all its required entries are set it survives another trip in no more bytes |
| RpcTheorems.HollowAccepted | libevent-release-1.2/event_rpcgen.py:683-695 | no bytes at all are accepted for a required struct of optional plain entries, as a message without it |
| RpcTheorems.CompleteExactly | libevent-release-1.2/event_rpcgen.py:235-246 | X_complete reports done exactly if every required entry, at every depth, is set or an unset struct of optional plain entries; otherwise the first that is not, in schema order and depth first, decides: -1 for a plain one, a null pointer followed for a struct |
| RpcTheorems.MissingStructBreaks | libevent-release-1.2/event_rpcgen.py:683-695 | with a required struct and a required number both missing, the null pointer is followed if the struct comes first in the schema, and -1 reported if the number does |
| RpcCrash.BreaksExactly | libevent-release-1.2/event_rpcgen.py:683-695 | some message makes an X_complete of a schema follow a null pointer exactly if the schema has a required struct entry whose struct has an entry that is required, a struct or an array |
| RpcCrash.CrashesExactly | libevent-release-1.2/event_rpcgen.py:196-246 | some bytes make an X_unmarshal of a schema follow a null pointer exactly if it has such an entry with no required fixed-length entry of 65536 bytes or more before it |
| RpcTheorems.MarshalInto | libevent-release-1.2/event_rpcgen.py:177-194 | the generated statements and array loops write the value model's bytes |
| RpcTheorems.UnmarshalFrom | libevent-release-1.2/event_rpcgen.py:196-233 | the generated loop and switch compute the value model's result |
| RpcRound.Trip | libevent-release-1.2/event_rpcgen.py:177-288 | the bytes of the set entries, if no payload is cut, give the message back, or the first gap's error, by induction over entries, arrays and nested structs |
| RpcGaps.CompleteGaps | libevent-release-1.2/event_rpcgen.py:683-966 | X_complete ends as the first gap of the message says |
| RpcAccept.ReadMsg | libevent-release-1.2/event_rpcgen.py:196-273 | an accepted message is well typed, fits, and marshals to no more bytes than it was read from |
| DnsRound.NameRoundTrip | libevent-release-1.2/evdns.c:634-968 | the labels written for a name are read back as the name up to its first empty label, whole exactly if it has none or is empty; a proper name of len bytes takes len + 2, and the index after it is right |
| DnsRound.EmptyLabelCuts | libevent-release-1.2/evdns.c:634-968 | a..b is encoded without an error and read back as a |
| DnsRound.EncodeIs | libevent-release-1.2/evdns.c:933-968 | dnsname_to_labels fails exactly for a name over 255 bytes or a label over 63, and ends with one zero |
| DnsName.EndsExactly | libevent-release-1.2/evdns.c:634-680 | the loop of name_parse ends exactly if no round takes it to a place from which compression pointers lead back to it |
| DnsName.RunParses | libevent-release-1.2/evdns.c:634-680 | and then with the result that the structural description gives |
| DnsPointer.PointerFollowed | libevent-release-1.2/evdns.c:655-662 | a byte of 192 to 255 and the next one name an index of the packet in fourteen bits; the name there, whatever it is, is the name behind the pointer, with the same failures, and ends after the two bytes |
| DnsPointer.PointerRefused | libevent-release-1.2/evdns.c:655-662 | a pointer out of the packet, or one that its end cuts, is an error |
| DnsPointer.LabelFollowed | libevent-release-1.2/evdns.c:663-671 | a byte below 64 starts a label of that many bytes, which is added behind a dot if there is room, and zero ends the name |
| DnsName.SelfPointerLoops | libevent-release-1.2/evdns.c:655-662 | a pointer to itself is never left |
| DnsName.PointsBackEnds | libevent-release-1.2/evdns.c:634-680 | with pointers that all lead strictly back it ends for every packet, place and buffer |
| DnsName.ParsedFits | libevent-release-1.2/evdns.c:664-674 | a returned name leaves room for its final zero |
| DnsCode.DnsnameToLabels | libevent-release-1.2/evdns.c:933-968 | the strchr loop computes the labels |
| DnsCode.ParseName | libevent-release-1.2/evdns.c:634-680 | the statements of name_parse, for any number of rounds, compute the value model's loop |
| EvBuffer.Evbuffer.Expand | libevent-release-1.2/buffer.c:249-282 | contents kept, room for datlen on success after a realignment as after a doubling, capacity 0 or 256 times a power of two and not larger than needed; failure exactly if realloc is needed and refused |
| EvBuffer.Evbuffer.Align | libevent-release-1.2/buffer.c:239-244 | the overlapping move keeps the contents |
| EvBuffer.Evbuffer.Add | libevent-release-1.2/buffer.c:285-302 | the contents gain the data, or nothing changes, exactly if realloc is needed and refused |
| EvBuffer.Evbuffer.Drain | libevent-release-1.2/buffer.c:305-326 | the contents lose their first bytes |
| EvBuffer.Evbuffer.Remove | libevent-release-1.2/buffer.c:177-187 | the bytes returned and the contents left are the old contents |
| EvBuffer.Evbuffer.AddBuffer | libevent-release-1.2/buffer.c:92-126 | all bytes move over, by swapping or by copying, or none, exactly if realloc is needed and refused; each block of memory afterwards is one of the two or new, and they are not the same |
| EvBuffer.RunOps | libevent-release-1.2/buffer.c:92-326 | any mix of add, drain, remove, expand and add_buffer on any number of buffers, refused memory included, does to their contents what it does to byte sequences, and no two ever share memory |
| EvBuffer.LengthForLeast | libevent-release-1.2/buffer.c:266-271 | the doubled capacity is of the same kind and less than twice the need |

## Left out

- Sockets, signals, threads' locks and clocks: what a system call returns (bytes read or sent, descriptors ready, the time, malloc's blocks, whether realloc succeeds) is a parameter; a command of the item cache is one step, as in the build without threads.
- Callbacks are finite lists of calls given in advance, so that one which always makes its own event active again, and never lets the loop end, is not modelled; a callback that runs the event loop again, frees its event or changes another base is not modelled.
- Memory: allocation is taken to succeed except where a parameter says otherwise (`Grants`, `granted`, `memory`, `given`); 32-bit and 64-bit counters that only overflow after very long runs (reference counts, cas ids, sizes, `event_count`) do not wrap. The 16-bit and 32-bit lengths of the tag coding and the words of the hash do wrap.
- memcached-1.2.8/items.c:152-159, which resets the reference count of an item that was held for hours, is not part of the item cache's steps.
- In the item cache the table is a map and the LRU lists are sequences; that the pointer structures are just that is proved in `Assoc`, `AssocTable` and `Lru`. Reading the tokens of a command is left out. In `ItemCacheRun` the new text of incr is a parameter; `Counters` says which it is for a value that starts with a digit, and what strtoull makes of other values and the stale errno that it may meet are left out.
- References are counted at the items API: the early returns of the get command in memcached.c that drop references are outside it.
- `conn` fields for UDP input, suffix lists, statistics and verbose output are left out; the contents of UDP headers (build_udp_headers) are eight bytes of room.
- The red-black tree of timers is its in-order sequence; the active, I/O and signal queues are sequences, their link fields are not modelled.
- `evbuffer_find`, `evbuffer_readline`, `evbuffer_add_vprintf` and the buffers' callbacks are left out, and so is adding a buffer to itself.
- The text of .rpc files is left out: a schema is a list of structs with resolved references.
- `name_parse` copies a label that the packet's end cuts from the memory behind it; the model ends with an outcome of its own there (`ReadsPast`).
- evdns requests, nameservers and search lists, http.c, slabs_reassign and the stats texts are left out.
- Bytes that X_marshal writes for a required entry that is not set are whatever memory holds: the round trip of marshal is stated for full messages, and `RpcTheorems.TripExactly` for the bytes of the set entries alone.
- ItemCacheTheorems.FlushedForGood: takes the clock to be past 1, as it always is, because the program starts it at 2; a flush time of 0 means none.
- Slabs.ClassTable: takes a growth factor of at least 1; the program refuses others when it starts.
