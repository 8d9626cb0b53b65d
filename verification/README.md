# C-strider and its example programs, verified

C-strider walks the heap of a C program by type: it follows every pointer from a set of roots, calls
a callback per cell, remembers each visited object in an address map and spreads the work over
threads. The repository ships it with a heap serializer and, as a subject program, Redis 2.0.2.
This project models the parts of it that carry the risk and proves what they are for:

* the traversal engine: which cells are visited, how often, and that the walk ends (`Traversal`, `Walk`,
  `Entries`, `PointerCells`, `ArraySplit`, and in the form of the code `Walker`), where it writes and what
  (`OutPlaces`), and how that compares to what the layout of the heap makes reachable (`Layout`,
  `Reachability`, `CellLayout`);
* the work-queue protocol of the parallel traversal, over all interleavings (`WorkQueue`,
  `QueueProtocol`), the shared address map under bucket locks (`ParallelMap`, `ParallelList`), and both
  together: a parallel traversal ends with the result of the serial one (`ParallelTraversal`,
  `ParallelRun`);
* the serializer: reading back what was written rebuilds the heap (`Serializer`, `RoundTrip`, `Walker`);
* LZF compression (`Lzf`, `Repeats`), the incrementally rehashing dictionary with its linked chains and its
  iterators (`Dict`, `DictLinks`, `Dictionaries`, `DictIterator`), the packed string map (`Zipmap`), the
  partial quicksort (`PartialSort`), streaming SHA-1 against FIPS PUB 180-1 and its test vectors
  (`SecureHash`, `TestVectors`, `Sha1`, `Sha1Stream`), and the splitting and printing of strings
  (`SplitLen`, `SplitArgs`);
* uthash: bucket chains, insertion order, doubling and the linked-list merge sort (`UtHash`, `Links`,
  `ListMerge`, `StableSort`).

`Bits`, `Bytes`, `Chains`, `Concat`, `Options` and `Ordering` hold shared definitions; `Instances` shows
that the assumptions of the serializer's theorem can be met, and `Limits` what the code does where an
assumption is dropped. Code that updates memory step by step is modelled by classes and methods whose
contracts tie them to values; protocols are step relations. Some predicates are wrapped in a quantifier
over a trivial trigger, so that the verifier unfolds them only where a proof says so; each such predicate
has a trigger of its own, because a shared one would unfold them all together.

What a caller must know beyond the source's own comments:

* `sdssplitargs` does not read the hexadecimal escapes that its comment shows and that
  `printStringRepr` prints (examples/redis-2.0.2/sds.c:363-371). `SplitArgs.RoundTrip` gives the exact
  set of characters for which printing and splitting are inverse, and
  `SplitArgs.HexEscapeIsNotRead` what becomes of every other one.
* `sdssplitlen` returns an empty vector for an empty string, not NULL as its comment says.
* The table-wide list and the item count of the address map are exact after every run if and only if
  there are fewer than two threads or only one bucket that addresses fall into
  (`ParallelList.ExactIffAlone`). The bucket chains, which everything else relies on, are always exact.
* After SHA1Update only the live part of the buffer is a function of the message; the bytes after it
  depend on how the message was split (`Sha1Stream.DeadBytesDiffer`), and `Sha1Stream.DeadBytesExact` says
  exactly when. A call is right if and only if its length and the position in the buffer have a sum below
  2^32 (`Sha1Stream.Context.Update`).
* The element size of an array of arrays in the type table is that of the inner element
  (src/cstrider_api.c:503), and the walk over an array takes it for the distance between the elements. It
  finds them if and only if there is at most one, or the distance is the size of an element
  (`Layout.StrideExact`). So "visits exactly what is reachable" holds for heaps whose reachable arrays
  have a right distance (`Reachability.VisitsExactlyTheReachable`), and the cells of an object are visited
  as often as they lie there if and only if every array with pointers in its type has one
  (`CellLayout.SeenExact`). In a table of two or more rows of two or more pointers the last pointer is
  never visited (`Limits.RowsMissTheLast`), an object that it alone points to is lost
  (`Limits.RowsLoseATarget`, `Limits.LastMissed`), the second one is visited twice
  (`Limits.RowsSeenTwice`), and a stream is written that cannot be read back (`Limits.RowsStick`,
  `Limits.TableCannotBeRead`).
* An object is entered at the type of the first pointer that reaches it. When pointers to one address lead
  to different places and nothing else leads there, one of the places is reachable and not visited
  (`Reachability.PlaceMissed`, `Limits.TwoTypesMissATarget`).

## Model

| member | source | states |
|---|---|---|
| Reachability.VisitsExactlyTheReachable | src/transform.c:350-404 | with reachability by the layout of the types, when all reachable arrays have a right element distance (`StridesRight`) and all reachable pointers to an address lead to the same place or are not followed (`EnteredAlike`): visit plus the queue loop visits exactly the places reachable from the roots, maps exactly the reachable non-null targets to the callback's images, and makes one first-visit callback on each |
| Walk.VisitsExactlyTheWalked | src/transform.c:350-469 | the same for the places that the distances of the type table lead to, without a condition on arrays |
| Reachability.StepsExact | src/transform.c:452-469 | from all reachable places the code goes on to exactly their elements, fields and targets if and only if all reachable arrays have a right element distance |
| Reachability.ExactlyWhenAlike | src/transform.c:377-395 | where only pointers lead to the objects and the pointers to an address are all followed or none is: exactly the reachable places are visited if and only if the pointers to an address all lead to the same place |
| Reachability.PlaceMissed | src/transform.c:377-395 | of two different places behind one address, to which nothing else leads, one is reachable and not visited, in every heap with right element distances |
| Entries.TraverseBegun | src/transform.c:368-404 | every visited place is a root, an element or field of a place the walk leads to, or behind the pointer through which its address was first met |
| Limits.TwoTypesMissATarget | src/transform.c:379-384 | two roots that point to one address at different types, and a reachable target that is not mapped |
| Limits.ThreeWaysMissNothing | src/transform.c:379-384 | a heap with such pointers in which nothing is missed, because a root leads to the second place |
| Reachability.TraverseSound | src/transform.c:210-223 | with right element distances, everything the walk visits or maps is reachable from the roots by the layout |
| Reachability.TraverseCloses | src/transform.c:210-223 | under the conditions of the first row, when the queue is empty, the roots and whatever a visited place leads to by the layout have been visited |
| PointerCells.PointerCellsOnce | src/transform.c:350-404 | no pointer cell is visited twice, for separate roots, fields that do not overlap, and arrays that hold no pointer or have a right element distance |
| Layout.StrideExact | src/cstrider_api.c:499-504 | the elements of an array are visited where they lie if and only if there is at most one or the distance is their size |
| CellLayout.CellsExact | src/cstrider_api.c:499-504 | for any type: the walk over a value comes to each pointer cell as often as it lies there if and only if every array in it that holds a pointer has a right element distance |
| CellLayout.SeenExact | src/transform.c:350-469 | over a whole traversal from separate roots: the pointer cells of the roots and of all objects entered are visited as often as they lie there, and nothing else in them, if and only if their types are so |
| Limits.RowsMissTheLast | src/transform.c:452-469 | a traversal from any table of two or more rows of two or more pointers never visits its last cell, whatever the heap holds, as long as no pointer leads back to the table |
| Limits.RowsExact | src/transform.c:452-469 | under the same condition, every cell of a table of pointers is visited exactly once if and only if it has at most one row or at most one column |
| Limits.RowsLoseATarget | src/transform.c:368-404 | under the same condition, an address that the last cell of such a table alone holds is reachable and not mapped |
| Limits.LastMissed | src/transform.c:368-404 | such a heap in which all pointers to an address lead to the same place |
| Limits.RowsSeenTwice | src/transform.c:452-469 | a traversal from any table of two or more rows of two or more pointers visits the second cell at least twice, whatever the heap holds |
| Limits.RowsStick | examples/heap_serialize/serial.c:176-179 | the reader fails on every table of rows of two pointers, from any stream, once the second pointer is not null |
| Limits.TableCannotBeRead | examples/heap_serialize/serial.c:133-179 | such a table is written to a stream that reading does not accept |
| Walker.Heapwalk.Visit | src/transform.c:350-404 | the updating form of visit: table, queue, out cells and log become those of the traversal function, and it ends on cyclic heaps |
| OutPlaces.WritesExact | src/transform.c:378-392 | for different roots and images that are apart: every visited pointer cell has a place, at its own offset in the image of its object or in the place of its root's image, that finally holds the image of the pointer, and no other cell is written |
| OutPlaces.WrittenOnly | src/transform.c:378-392 | when no pointer leads into a root, that place is one, given by the base and the offset of the cell |
| OutPlaces.InPlaceApart | src/transform.c:378-392 | a traversal that writes every pointer back where it is meets the conditions |
| Walker.Heapwalk.VisitArray | src/transform.c:452-469 | the element loop advances in and out pointers together and visits all elements in order |
| Walker.Heapwalk.ProcessQueue | src/transform.c:210-223 | the serial loop drains the queue first in, first out, tasks added meanwhile included |
| Walker.Heapwalk.AddMapping | src/cstrider_api.c:596-606 | null is never mapped and a mapped address keeps its mapping |
| ArraySplit.SplitArray | src/transform.c:411-449 | the pieces queued and the piece visited at once make, in order, exactly the calls of the unsplit loop; all queued pieces have the same length and the last one takes the remainder |
| ArraySplit.TransformArray | src/transform.c:452-469 | the loop visits element after element, in and out addresses moving by their own sizes |
| ArraySplit.CallsSplit | src/transform.c:432-447 | a walk over n + m elements is a walk over n and one over m from the offset the splitter computes |
| WorkQueue.PushAppends | src/queue.c:131-134 | enqueueing appends to the ring's contents, across wraparound |
| WorkQueue.PopTakesFirst | src/queue.c:176-178 | dequeueing takes the oldest item, across wraparound |
| WorkQueue.Queue.constructor | src/queue.c:9-17 | a fresh ring is empty, with nothing in flight and not started |
| WorkQueue.Queue.Enqueue | src/queue.c:122-137 | a full ring refuses, any other appends |
| WorkQueue.Queue.Dequeue | src/queue.c:170-184 | an empty ring yields nothing; otherwise the first item leaves and only the home queue's counter of tasks in flight goes up |
| WorkQueue.Lowest | src/queue.c:77-90 | the first of the least loaded queues, queue 0 when all are full |
| WorkQueue.Highest | src/queue.c:93-106 | the first of the most loaded queues |
| QueueProtocol.TerminationSafety | src/queue.c:32-73 | once the latch is set, in every later state of every run all rings are empty, nothing is in flight and nothing is ever enqueued again |
| QueueProtocol.ExitMeansAllDone | src/transform.c:194-207 | a thread leaves its loop only when every task ever enqueued is finished |
| QueueProtocol.TaskConservation | src/queue.c:110-185 | in every reachable state the enqueued tasks are, as a multiset, the finished, the running and the queued ones |
| QueueProtocol.DeadlockFreedom | src/queue.c:48-70 | whenever some thread holds or waits for a queue lock, one such thread can step |
| QueueProtocol.InvStep | src/queue.c:21-185 | every step of every thread keeps lock ownership, counters, latch and conservation in order |
| ParallelRun.SomeTraversalEnds | src/transform.c:186-223 | whatever the heap, a parallel traversal of a struct of numbers has a run of queues, map and visits together in which the struct is queued, taken, visited and finished and the thread leaves its loop; it meets the assumptions of `SameAsSerial` |
| QueueProtocol.SomeRunEnds | src/transform.c:186-207 | there are runs that set the latch and end, so the statements about finished runs are not empty |
| ParallelMap.FirstVisitOnce | src/transform.c:377-389 | over all interleavings at most one thread makes the first-visit callback for a non-null address |
| ParallelMap.OthersSeeTheMapping | src/transform.c:378-384 | every other visit is handed the address which the one earlier first visit chose |
| ParallelMap.FreeBucketExact | contrib/uthash/uthash_nxform.h:686-693 | a bucket nobody holds has exact links both ways and an exact count, and holds exactly the addresses first visited there |
| ParallelMap.SeededIsInitial | src/transform.c:301-303 | for any number of threads and buckets the seeded table is an initial state |
| ParallelMap.StepKeeps | contrib/uthash/uthash_nxform.h:105-138 | every single read or write of every thread, with the locks of NXHASH_WRLOCK_BUCKET, keeps all buckets and the log in order |
| ParallelMap.WalkEnd | contrib/uthash/uthash_nxform.h:672-683 | a search that reaches the end of the chain means that the address is not mapped |
| ParallelMap.RaceLosesAnItem | contrib/uthash/uthash_nxform.h:258-263 | whenever two first visits can overlap in different buckets, there is a run in which both complete, the item count rises by one only, and no next link leads to the first one's entry |
| ParallelList.ExactIffAlone | contrib/uthash/uthash_nxform.h:258-263 | after every run that comes to rest the item count is the number of mapped addresses and the list from the seed leads through exactly their entries, both ways, if and only if there are fewer than two threads or all addresses share one bucket |
| ParallelList.ListStep | contrib/uthash/uthash_nxform.h:245-272 | when no two threads can insert at once, every step keeps list and item count in order, at each stage of an insertion |
| ParallelMap.ItemCountCanBeWrong | src/transform.c:301-303 | from the initial table with its one seed entry, two threads can end with three entries and an item count of two |
| ParallelTraversal.SameAsSerial | src/transform.c:186-223 | when a thread of a parallel traversal has left its loop, whatever the interleaving: the places visited, the addresses mapped, their images and the number of first-visit callbacks on each are those of the serial traversal |
| ParallelTraversal.QueueStepKeeps | src/queue.c:110-185 | enqueueing a struct or a piece of an array and taking a task lose no place that is still to be visited |
| ParallelTraversal.PointerStepKeeps | src/transform.c:368-395 | every step of a pointer visit keeps the place behind a first visit known, or its visitor on the way |
| ParallelTraversal.BodySeen | src/transform.c:194-207 | at the end the places of all tasks ever queued have been visited |
| RoundTrip.DeserializeRebuilds | examples/heap_serialize/serial.c:114-172 | for every heap, cyclic and shared ones and arrays of arrays with a right element distance included, reading consumes exactly the written stream and rebuilds everything reachable by the layout, and nothing else, up to an injective renaming: primitives, strings, sharing, and symbols by name |
| Instances.CyclicWorldIsGood | examples/heap_serialize/serial.c:66-172 | a heap of two nodes that point to each other meets every assumption of the round trip |
| RoundTrip.VisitSim | examples/heap_serialize/serial.c:66-172 | at every cell the reader stays in lockstep with the writer: stream position, address tables, queues and cells agree |
| Serializer.TextLayout | examples/heap_serialize/serial.c:58-64 | a string takes four bytes for its length and one, least significant first, then its characters and a zero |
| Serializer.WordLayout | examples/heap_serialize/serial.c:52-54 | a token or a pointer takes eight bytes, least significant first |
| RoundTrip.ReadsText | examples/heap_serialize/serial.c:58-64 | the length-prefixed string is read back and nothing after it is consumed |
| Walker.SerializeHeap | examples/heap_serialize/serial.c:45-103 | the bytes the updating form writes are those of the serializer function |
| Walker.DeserializeHeap | examples/heap_serialize/serial.c:114-172 | the updating reader ends as the reader function does, failures included |
| Walker.SaveAndLoad | examples/heap_serialize/serial.c:45-172 | writing and reading back leaves no input and an isomorphic heap |
| Lzf.Compress | examples/redis-2.0.2/lzf_c.c:99-294 | for any input and any content of the hash table: a positive result is a stream that expands to the input, it is at most in_len + ceil(in_len/32) bytes, and with out_len of at least in_len + in_len/32 + 4 it succeeds; the stream is that of the tokens chosen (`Greedy`): an octet is a literal only if the position last entered in its hash slot offers no match, a copy starts where it does, refers there and goes on as long as the octets agree, up to 264 and the end limit, and a run of less than 32 octets is followed by a copy or the end; no result means that the chosen tokens for a part of the input leave no room |
| Repeats.EqualShort | examples/redis-2.0.2/lzf_c.c:142-293 | whatever the table held, the tokens chosen for n equal octets take at most 8 bytes and 3 for every 264 octets |
| Repeats.CompressEqual | examples/redis-2.0.2/lzf_c.c:99-294 | equal octets are compressed so far, whenever out_len is more than 4 bytes above that |
| Lzf.MatchLength | examples/redis-2.0.2/lzf_c.c:170-215 | the unrolled and the plain loop stop at the first octets that differ, or at the limit: 264, or all but two of the octets left, or 19 where 17 or 18 would be left |
| Lzf.FindMatch | examples/redis-2.0.2/lzf_c.c:144-166 | the slot depends on three octets only, whatever the rolling value held before; its old content is a match exactly if it lies in the window and has the same three octets, and the slot then holds the new position |
| Lzf.Decompress | examples/redis-2.0.2/lzf_d.c:56-149 | result, error code and output bytes are those the meaning of the stream prescribes, and nothing beyond out_len is written |
| Lzf.RoundTrip | examples/redis-2.0.2/lzf_d.c:56-149 | whatever the compressor returns decompresses to the input, in any buffer large enough |
| Lzf.ExpandExact | examples/redis-2.0.2/lzf_d.c:62-147 | a stream is accepted if and only if it is the encoding of a list of literal runs and back references that fits, and its text is theirs |
| Lzf.ExpandEncoding | examples/redis-2.0.2/lzf_d.c:62-147 | the meaning of an encoded list of literal runs and back references is the text they spell |
| Lzf.CopyBackReproduces | examples/redis-2.0.2/lzf_d.c:127-145 | a back reference whose source overlaps its target copies the repeated text |
| Lzf.MatchPays | examples/redis-2.0.2/lzf_c.c:165-236 | a match of at least three octets pays for its own bytes and for the header of the run it ends |
| Dictionaries.History | examples/redis-2.0.2/dict.c:280-431 | every sequence of add, replace, find, delete and rehash steps on the linked cells answers as one plain map does; without an iterator, a rehash ends within one operation more than the old table has buckets |
| Dict.RehashEnds | examples/redis-2.0.2/dict.c:210-246 | steps that each move the rehash index on, or make the second table the first, do the latter within one step more than the old table has buckets |
| Dictionaries.Dictionary.Add | examples/redis-2.0.2/dict.c:280-305 | fails exactly when the key is present, else the map gains the pair; without an iterator a rehash under way goes on or ends, as with the next three |
| Dictionaries.Dictionary.Replace | examples/redis-2.0.2/dict.c:310-330 | the map gains or overwrites the pair, and the result says which |
| Dictionaries.Dictionary.Find | examples/redis-2.0.2/dict.c:412-438 | the value the map has for the key, at any point of a rehash |
| Dictionaries.Dictionary.Delete | examples/redis-2.0.2/dict.c:333-368 | the map loses the key, and the result says whether it was there |
| Dictionaries.Dictionary.Expand | examples/redis-2.0.2/dict.c:175-204 | refuses exactly during a rehash or for a size below the number of entries; otherwise the new table has a power of two of at least that many buckets, or LONG_MAX for a size from there on, and the contents stay |
| Dictionaries.Dictionary.ExpandIfNeeded | examples/redis-2.0.2/dict.c:530-550 | fails exactly when twice the number of entries is no unsigned long and the table is due to grow, so never with fewer than 2^63 entries; a first table has four buckets, a table that is due to grow starts to move to one of the least power of two of at least twice its entries, and any other is left alone |
| Dictionaries.Dictionary.KeyIndex | examples/redis-2.0.2/dict.c:571-593 | -1 exactly for a present key, else the key's bucket in the table that takes insertions |
| Dictionaries.Dictionary.Rehash | examples/redis-2.0.2/dict.c:210-246 | keeps the map, never scans past the table, and moves at least one bucket per step, so that enough steps finish |
| Dictionaries.Dictionary.RehashStep | examples/redis-2.0.2/dict.c:275-277 | does nothing while an iterator is running; otherwise a rehash goes on, with a larger index and fewer entries left, or ends when none are left |
| Dict.NextPower | examples/redis-2.0.2/dict.c:553-564 | the least power of two that is large enough and at least 4 |
| Dict.NextBucket | examples/redis-2.0.2/dict.c:225-228 | while entries are left in the old table, a bucket from the rehash index on is not empty |
| Dict.NeverInBoth | examples/redis-2.0.2/dict.c:412-431 | no key has entries in both tables, or two entries in one |
| Dict.Counters | examples/redis-2.0.2/dict.c:232-234 | the used counts add up to the size of the map |
| Dict.OneMap | examples/redis-2.0.2/dict.c:412-431 | a valid pair of tables stands for one map only |
| DictIterator.IterateAll | examples/redis-2.0.2/dict.c:440-486 | an iteration to the end over the linked cells, with the next pointer saved before an entry is handed out, returns every entry of both tables exactly once, mid-rehash too, while any chosen entries are deleted as they are returned; the iterator count is restored |
| DictIterator.Iterator.Next | examples/redis-2.0.2/dict.c:452-479 | returns one of the entries that remain, or nothing exactly when none remains |
| DictIterator.Iterator.Release | examples/redis-2.0.2/dict.c:482-486 | undoes the count of the first advance |
| DictIterator.DeleteKeepsLeft | examples/redis-2.0.2/dict.c:333-368 | deleting the entry just returned leaves the entries still to come as they are |
| DictLinks.LinkedChains.Insert | examples/redis-2.0.2/dict.c:292-301 | linking a new cell at the head of a bucket puts its entry before the others |
| DictLinks.LinkedChains.Search | examples/redis-2.0.2/dict.c:345-366 | following the next pointers finds the first cell of the key and the cell before it, or NULL |
| DictLinks.LinkedChains.Free | examples/redis-2.0.2/dict.c:348-360 | unlinking through the previous cell, or the head, and freeing the cell removes that entry and no other, and leaves every other cell where it is |
| DictLinks.LinkedChains.MoveBucket | examples/redis-2.0.2/dict.c:226-243 | relinking the cells of a bucket one by one moves each entry to the head of its bucket in the other table, in order |
| DictLinks.MoveIntoKeeps | examples/redis-2.0.2/dict.c:226-243 | such a move loses no entry, makes no second one, counts them, and leaves all in the buckets of their hashes |
| DictLinks.SavedNextSurvives | examples/redis-2.0.2/dict.c:474-476 | after the cell of one key has been cut out of its chain, the cell of any other key is the one it was |
| DictIterator.DeleteReturned | examples/redis-2.0.2/dict.c:333-368 | deleting the entry just returned frees its cell; the saved next pointer still leads to a live cell and the rest of the iteration is unchanged |
| Zipmap.UniqueParse | examples/redis-2.0.2/zipmap.c:137-165 | a byte buffer stands for one list of items only |
| Zipmap.Zipmap.Set | examples/redis-2.0.2/zipmap.c:211-278 | the map gains or overwrites the pair through every grow, in-place and shrink path; the other items stay as they are, in order |
| Zipmap.Zipmap.Del | examples/redis-2.0.2/zipmap.c:281-297 | the map loses the key, the other items stay in order, and a missing key leaves every byte |
| Zipmap.Zipmap.Get | examples/redis-2.0.2/zipmap.c:334-342 | the value the map has for the key |
| Zipmap.Zipmap.LookupRaw | examples/redis-2.0.2/zipmap.c:137-165 | the offset of the key's item or NULL, and the size of the buffer when asked for |
| Zipmap.Zipmap.Next | examples/redis-2.0.2/zipmap.c:315-331 | key, value and place of the next item, or the end |
| Zipmap.Zipmap.Len | examples/redis-2.0.2/zipmap.c:350-362 | the number of entries, also when the length byte does not tell; only that byte may change |
| Zipmap.LengthThere | examples/redis-2.0.2/zipmap.c:106-131 | an encoded length is decoded, in one byte or five |
| Zipmap.ValidUpdate | examples/redis-2.0.2/zipmap.c:228-261 | replacing the bytes of one item replaces that item |
| PartialSort.Pqsort | examples/redis-2.0.2/pqsort.c:192-197 | a permutation in which every position of the range compares equal to what any full sort has there, with nothing greater before and nothing smaller after it |
| PartialSort.SortRange | examples/redis-2.0.2/pqsort.c:99-189 | rearranges its segment only, and places the part of the range that lies in it |
| PartialSort.PlacedIsSorted | examples/redis-2.0.2/pqsort.c:192-197 | an element with nothing greater before and nothing smaller after it is, up to the order, the one of every sorted permutation |
| PartialSort.Partition | examples/redis-2.0.2/pqsort.c:129-155 | the two scans meet with equal, smaller, greater and equal elements in this order |
| PartialSort.Med3IsMiddle | examples/redis-2.0.2/pqsort.c:89-97 | the chosen one of three elements lies between the other two |
| SecureHash.PaddedIsWhole | examples/redis-2.0.2/sha1.c:234-239 | the padding of section 4 of FIPS PUB 180-1 fills the last block with fewer than 64 zero bytes |
| SecureHash.AbsorbConcat | examples/redis-2.0.2/sha1.c:191-197 | whole blocks may be hashed first and the rest later |
| SecureHash.JoinWordBytes | examples/redis-2.0.2/sha1.c:241-244 | the bytes of a word, most significant first, determine it |
| Sha1.Transform | examples/redis-2.0.2/sha1.c:106-162 | the in-place schedule and the rotating variables compute one block of section 7, on machines of either byte order |
| Sha1.R | examples/redis-2.0.2/sha1.c:97-101 | each operation, with its schedule word and its constant, is one round of the standard under renamed variables |
| Sha1.WindowMore | examples/redis-2.0.2/sha1.c:93-94 | overwriting one of sixteen cells keeps the last sixteen schedule words in place |
| Sha1.ArrangeLoad | examples/redis-2.0.2/sha1.c:85-90 | the byte swap turns a little-endian load into the word of the message |
| Sha1.ChooseIsCh | examples/redis-2.0.2/sha1.c:97-98 | the choice without a complement is that of section 5 |
| Sha1.MostIsMaj | examples/redis-2.0.2/sha1.c:100 | the shortened majority is that of section 5 |
| Sha1Stream.Context.Update | examples/redis-2.0.2/sha1.c:181-201 | if and only if length and buffer position have a 32-bit sum: hash value, live buffer and 64-bit count become those of the longer message, and every byte of the buffer is as specified; otherwise the copy would leave the buffer |
| Sha1Stream.DeadBytesExact | examples/redis-2.0.2/sha1.c:191-200 | two pieces leave the whole buffer that their concatenation leaves if and only if one of them completes no block or the first blocks they complete agree after the live part |
| Sha1Stream.DeadBytesDiffer | examples/redis-2.0.2/sha1.c:191-200 | 128 bytes at once leave the first block in the buffer, 64 and 64 the second |
| Sha1Stream.NoWrap | examples/redis-2.0.2/sha1.c:194 | the loop test does not wrap around when that sum does not |
| Sha1Stream.CountUp | examples/redis-2.0.2/sha1.c:186-189 | the two-word count with its carry is the bit length modulo 2^64 |
| Sha1Stream.Context.Final | examples/redis-2.0.2/sha1.c:206-248 | the digest of the message by sections 4, 7 and 8; the context is wiped |
| Sha1Stream.SplitsAgree | examples/redis-2.0.2/sha1.c:181-201 | contexts that took the same message, however split, agree in hash value, count and live buffer |
| Sha1Stream.HashParts | examples/redis-2.0.2/sha1.c:167-248 | any split of a message into updates yields the digest of the whole, if and only if every piece fits where it starts |
| TestVectors.AbcDigest | examples/redis-2.0.2/sha1.c:10-12 | the digest of "abc" is that of appendix A of FIPS PUB 180-1 |
| TestVectors.LongDigest | examples/redis-2.0.2/sha1.c:13-14 | the digest of the message of 56 bytes, whose padding fills a second block, is that of appendix B |
| SplitLen.Split | examples/redis-2.0.2/sds.c:272-326 | NULL for an empty separator, no token for an empty string, else tokens whose join is the string and that a leftmost search for the separator finds |
| SplitLen.LeftmostUnique | examples/redis-2.0.2/sds.c:272-326 | a string has one such split, so splitting a join returns the tokens exactly when they are leftmost |
| SplitArgs.Split | examples/redis-2.0.2/sds.c:373-448 | every line reads, up to a zero, as blanks and arguments of bare text and quoted units with blanks between them, or as such a part and quotes that are not closed or that no blank follows; the result is the texts of the arguments in the one case and an error in the other |
| SplitArgs.SplitExact | examples/redis-2.0.2/sds.c:373-448 | a result is that of splitting if and only if it is what some reading of the line says, so readings do not disagree |
| SplitArgs.SplitBare | examples/redis-2.0.2/sds.c:413-429 | a line without quotes yields the stretches between its blanks |
| SplitArgs.PrintRepr | examples/redis-2.0.2/redis-cli.c:121-144 | prints the quoted form of the string and nothing else |
| SplitArgs.SplitPrinted | examples/redis-2.0.2/sds.c:373-448 | splitting printed strings joined by spaces returns as many arguments, each with its hexadecimal escapes spelled out |
| SplitArgs.RoundTrip | examples/redis-2.0.2/redis-cli.c:121-144 | the arguments come back exactly when every character is printable or one of newline, return, tab, bell and backspace |
| SplitArgs.HexEscapeIsNotRead | examples/redis-2.0.2/sds.c:394-401 | any other character comes back as an x and two digits |
| UtHash.Hash.Find | contrib/uthash/uthash.h:84-95 | the item of the key, or NULL |
| UtHash.Hash.Add | contrib/uthash/uthash.h:152-175 | with a new key the item is appended to the list and the map gains it; a first table has 32 buckets, and the buckets double exactly when expansion is allowed and the bucket of the key reaches ten times its multiplier and one, so that its chain stays shorter |
| UtHash.Hash.Delete | contrib/uthash/uthash.h:194-227 | the item leaves list, bucket and map; the last item takes the table with it |
| UtHash.Hash.ExpandBuckets | contrib/uthash/uthash.h:637-683 | twice the buckets with the same items; ideal length, multipliers and the excess count are exact, and expansion is forbidden from the second time in a row on that more than half of the items are in excess |
| UtHash.IdealIsCeiling | contrib/uthash/uthash.h:648-651 | shift and mask compute the quotient rounded up |
| UtHash.PushBucketKeeps | contrib/uthash/uthash.h:582-593 | inserting at the head of a bucket keeps every chain and count exact |
| UtHash.CutBucketKeeps | contrib/uthash/uthash.h:596-606 | removing from a bucket keeps every chain and count exact |
| UtHash.Hash.SortList | contrib/uthash/uthash.h:690-767 | the list becomes the stable sort of itself, linked both ways with right head and tail; chains and map stay |
| UtHash.Hash.SortPass | contrib/uthash/uthash.h:702-758 | one pass relinks the list into the merges of neighbouring runs, and counts at most one merge exactly when a single one covers the list |
| ListMerge.TakeRight | contrib/uthash/uthash.h:717-753 | linking the right run's first item behind what is out keeps both runs and the rest walkable |
| StableSort.SortCorrect | contrib/uthash/uthash.h:690-767 | the passes yield a sorted permutation with equal elements in their old order |
| StableSort.StableSortUnique | contrib/uthash/uthash.h:690-767 | there is only one such result |

## Left out

- PointerCells.PointerCellsOnce: arrays that hold pointers at a wrong element distance are excluded; `CellLayout.SeenExact` and `Limits` say what happens to them.
- RoundTrip.DeserializeRebuilds: all arrays have a right element distance, as in `Walker.SaveAndLoad`; with a wrong one even numbers are skipped.
- Reachability.VisitsExactlyTheReachable: requires right element distances and pointers that agree on where they lead; `StepsExact`, `CellLayout.SeenExact` and `ExactlyWhenAlike` say how far these are needed.
- Reachability.ExactlyWhenAlike: nothing but pointers leads to the objects; `Limits.ThreeWaysMissNothing` shows that the only-if half needs this. Where of two pointers to an address one is followed and one is not, what is visited depends on which comes first.
- Heaps of the serializer: serial mode, fixed-size arrays, no pointers into objects or to the root variables, no address equal to the token 2, registered symbols in bijection with their names, and allocations of the reader that are new, zeroed and apart from all written addresses.
- Callbacks: they leave `*in` unchanged and answer a non-null address exactly for a non-null one; with a null answer the code would call the first-visit callback again.
- Generated per-struct traversal code and the type generator: a struct is a list of fields visited in order, over types whose by-value nesting is well founded.
- Running several parallel traversals in one process: the latch is never cleared, so the termination theorems are about one run.
- Scheduling: that spinning threads make progress is not modelled; locks are atomic steps.
- QueueProtocol.TerminationSafety: a ring overflow aborts, as the assertion in the code does, and the theorems end there.
- ParallelMap.StepKeeps: memory is sequentially consistent; weaker orders of the unlocked accesses are not modelled.
- ParallelTraversal.SameAsSerial: no reachable pointer is the address that the map is seeded with; which elements of an array a thread hands to the queues is left open, so that every way of splitting is covered.
- OutPlaces.WritesExact: a place in a root into which a pointer leads may be visited as a part of both; then the theorem gives one of its two places.
- The third test vector of SHA-1, a million repetitions of one letter, is not computed.
- Lzf.Compress: the output array has one cell to spare, because a run header is stored before the space check; the two-byte read at the start of an input of one byte is taken as zero.
- Dictionaries.Dictionary.Add: fewer than 2^63 entries, as Replace and History; more would not fit into memory.
- Dictionaries.Dictionary.Delete: key and value destructors are not modelled; the pointer arrays of the two tables lie one after the other.
- Zipmap.Zipmap.Set: the buffer stays below 2^32 bytes; lengths are stored least significant byte first, and newly allocated bytes are arbitrary.
- PartialSort.SortRange: an element is one unit that is swapped as a whole, and the jump back to the start is a call.
- Sha1Stream.Context.Update: says nothing about the state after a piece that does not fit, where the code writes outside its buffer.
- Sha1.R: the 80 unrolled operations are written as sixteen groups of five.
- UtHash.Hash.Add: Bloom filters, key lengths and hash functions are not modelled; the hash is any function of the key, and counters do not overflow.
- uthash_xform.h and uthash_bgxform.h, adlist.c, zmalloc.c, registration of roots and symbols, delayed frees: easier members of the same kinds.
- Allocation failure, files, sockets, the terminal and the event loop.
