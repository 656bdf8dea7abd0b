# Verified model of the suil asynchronous runtime and its DNS resolver

This project states and proves, in Dafny, what the concurrent and in-place parts of the library
rely on: the lock-free run queue of the scheduler threads, the coroutine mutex, event and scope,
the timer list, the DNS packet codec with name compression, the resolver's frame stack, and the
small codecs around them (Base64, TXT strings, the name service switch).  `dafny verify
dfyconfig.toml` checks the whole of it.

## How it is built

- **Protocols over atomics** (`FreeList`, `OptimisticDequeue`, `AsyncMutex`, `ManualResetEvent`,
  `AsyncScope`, and the environment of `Resolver`) are state machines.  Every atomic load, store
  and read-modify-write of the source is one step of one thread; threads interleave in any order
  (sequential consistency); a weak compare-exchange may fail without a reason.  The main results
  speak of the last state of every run, for any number of threads, and so of every reachable
  state.  Ghost values (which thread holds which reference, what became of each ticket, which
  list a waiter is on) are never stored in the state: the invariants say that they exist.  What an
  operation answers is stated in two ways: over every interleaving, by the states it passed between
  its start and its end, and from every reachable state, by what it does when it runs alone.
- **Objects updated in place** (`BlockIndex`, `NamePacket`, `PacketRecords`, `TimerList`,
  `ProducerHash`, `Permutor`, the iterators) are classes with the fields of the source.  Their
  methods follow its loops and branches and are tied to functions on values; the laws are proved
  about those functions.  A long C function is cut into methods where its loops nest.
- **Numbers** are unbounded, and wrap-around is written out where the source has it: the 32-bit
  reference word and step counter, the 64-bit queue indices with `circular_less_than`, 16-bit
  packet offsets, size arithmetic in the Base64 decoder, the 32-bit timeout.  Bit operations on
  disjoint fields (masks by a power of two, the two parts of a pointer, header bytes) are written
  as division and remainder; XOR in the Feistel network is defined on binary digits.
- **Input from outside** is arbitrary: allocation success, answers, errors and timeouts of the
  network, clock readings, the round function of the permutation, thread-id hashes, the timers
  that resumed code adds, and the further conditions of a record iterator.

| part | modules |
|---|---|
| free list of blocks | `FreeList`, `FreeListAnswers` |
| dequeue counters and block release | `OptimisticDequeue`, `DequeueAnswers`, `DequeueRace` |
| circular block index | `Modular`, `BlockRing` (values), `BlockIndex` (headers in memory) |
| thread id to producer | `ProducerTable` (values), `ProducerHash` (tables in memory) |
| coroutine synchronisation | `AsyncMutex`, `MutexAnswers`, `ManualResetEvent`, `EventAnswers`, `AsyncScope` |
| timers | `TimerList` |
| domain names | `Bytes`, `NameSpec`, `NameTable`, `NameSearch`, `NameReading`, `NamePacket`, `NameAlike`, `Counting`, `ExpandLoop`, `SearchLoop` |
| records | `NameSkip`, `Records`, `RecordBuilding`, `PacketRecords` |
| messages: names and records together | `Drafts`, `Messages`, `SearchRuns`, `LateNames` |
| iterators | `Shuffle`, `Enumeration`, `RecordIteration`, `HintIteration` |
| query ids | `Permutor` |
| resolver | `Resolver`, `LookupOrder`, `Transitions` |
| other codecs | `Base64`, `TxtRecord`, `NssConf`, `SourcesLookup` |

## Where the code does less than it promises

Each of these is proved, with an exact condition or a concrete input:

- **Name compression** keeps the label that a failed comparison left in its buffer
  (`dns.c:1714-1717`).  The compressed name reads back as the name pushed exactly when the label
  compared at the match equals the first label of the replaced suffix, with every sound
  table (`NameSearch.RoundTripIff`); a wrong match needs a stored name that repeats a label
  (`NameTable.StaleNeedsRepeat`), and `x.q.y.y.z.` followed by `x.y.z.` is one
  (`NameSearch.RepeatedLabelBreaksRoundTrip`).  So the round trip always holds where no stored
  name repeats a label (`NameSearch.RoundTrip`).
- **Refused records** leave the offsets of their names in the table (`dns.c:1279-1287`,
  1382-1386).  While the table has room the offset of an owner's name is harmless: the next name
  takes it over.  Where a name in the data of a record had been pushed (NS, CNAME, PTR, MX, SOA)
  before the record was refused, its offset lies beyond the end of the packet, and later bytes are
  read as a name from there.  As long as no record is refused after a name in its data has gone
  into the table, the names of all records, owners' and those in the data, are read back with up
  to 47 late names (`Messages.NamesReadBack`, `Messages.NamesRight`), and every search ends
  (`SearchRuns.SearchesEnd`).  Otherwise the search for a suffix need not end: five records
  suffice for one that never does (`SearchRuns.SearchCanLoop`).  On any bytes and any table it
  ends exactly if it does not come to an entry whose labels lead back to themselves before it has
  found the whole name (`SearchLoop.SearchEndsIff`).
- **Dequeue** may return nothing although an element is there that nobody will take: a ticket that
  has failed counts until it is repaid, and a dequeue that has read the overcommit before that gives
  up (`DequeueRace.NothingThoughUnclaimed`; `concurrentqueue.h:3546-3640`).  While no other thread
  holds a ticket that has failed, a dequeue that returns nothing has passed a state in which every
  index below the tail it read was taken or claimed (`DequeueRace.NothingMeansClaimed`), and all is
  claimed exactly if the optimistic count, less the overcommit and the failed tickets, has reached the
  tail (`DequeueRace.ClaimedIff`).  Without another dequeue in flight the queue was empty
  (`DequeueAnswers.NothingMeansEmpty`).
- **The lookup string** of the resolver is written by the name service switch with letters for
  criteria as well (`dns.c:4600-4641`), but read with every letter as a method (`dns.c:6641-6653`).
  The letter of the action "continue" is that of the cache: the resolver tries the sources in order,
  and the cache once for each such criterion, although no source names it
  (`SourcesLookup.SwitchTried`), exactly if it has a cache and some criterion continues
  (`SourcesLookup.CacheTriedIff`).
- **Late names** are pushed onto a full table with an offset that a refused record has left, and
  replace no entry: they add to the chains of pointers.  With any table, the expansion of a name
  just pushed ends, with its text exactly if what the search found is fewer than 127 pointers away
  (`ExpandLoop.ReadsIff`); with up to 47 late names that is always so (`NameTable.MatchChain`),
  and with 48 it is not: then a name can be pushed without an error that cannot be expanded
  (`LateNames.LateNameLost`).
- **OPT records** are written without the length of their data, so that the first two bytes of the
  next record are taken for it: one parses exactly if as many bytes follow, whatever they belong
  to, and the walk goes on behind it exactly if it is the last record (`RecordBuilding.OptIsCut`).
- **Name expansion** clears its pointer counter at every label, so that on bytes no push has
  written it need not end.  From any offset of any bytes it ends exactly if it does not come back
  to an offset behind a label (`ExpandLoop.EndsIff`); on a label and a pointer to it, it does
  (`ExpandLoop.ExpandCanLoop`), and on a stored name it does not (`ExpandLoop.StoredEnds`).
- **Skipping names** makes progress exactly in packets shorter than 65536 bytes, although
  `dns_p_grow` allows one of 65536 (`NameSkip.TurnsForward`).  In one of that size it ends exactly
  if its labels do not lead round the last offset and back to it (`NameSkip.SkipEndsIff`).
- **Hint priorities** are compared by an unsigned difference taken as signed.  The comparison
  follows the priorities of all pairs exactly if no two are 2^31 or more apart
  (`HintIteration.RightIffClose`).  The iteration hands out all hints in order and stops exactly if
  none are more than 2^31 apart, and of two exactly 2^31 apart the larger stands before the first
  hint of all, with a priority between them (`HintIteration.EnumeratesIffFit`).  Where no two are
  exactly 2^31 apart both conditions are the same (`HintIteration.FitIsClose`).  With
  the priorities 1 and 1 + 2^31 only the second hint is handed out
  (`HintIteration.FarApartIsWrong`).
- **Cancelling** an armed timer that is in no list empties the list
  (`TimerList.Thread.CancelTimer`), and the wait until the earliest timer is cut to 32 bits
  (`TimerList.Thread.ComputeWaitTimeout`).
- **Base64** decodes empty input by reading behind it, and the decoding of a full last group
  depends on the byte behind the text (`Base64.RoundTripIff`); in a string object, with a NUL
  there, only the empty string fails (`Base64.RoundTripInString`).
- **Records** lose the top bit of their time to live (`RecordBuilding.ParsesBack`).
- **The block index** divides a signed difference by an unsigned size.  The comment there asks
  for the sign to be preserved; it is not, and the lookup is right all the same because every
  capacity divides 2^59 (`BlockRing.FindsTheKey`).

## Model

| member | source | states |
|---|---|---|
| FreeList.RunInv | libs/async/include/suil/async/detail/concurrentqueue.h:1941-2063 | after every interleaved run of `add` and `try_get` by any number of threads the invariant of the list, its counts and its holders holds |
| FreeList.ListedOnce | libs/async/include/suil/async/detail/concurrentqueue.h:1943-2057 | the links from the head form one finite chain without repetition; a node on it is with no client and nobody is adding or removing it |
| FreeList.NoSecondOwner | libs/async/include/suil/async/detail/concurrentqueue.h:1990-2000 | when `try_get` is about to return a node nobody owns it, it is off the list, its should-be-on-list bit is clear (the assertion in the source) and no other thread disposes of it |
| FreeList.CountsExact | libs/async/include/suil/async/detail/concurrentqueue.h:1920-2063 | the low 31 bits of `freeListRefs` are the references that threads hold, plus one for the list or for the thread that is linking or unlinking the node |
| FreeList.MarkedHasHolder | libs/async/include/suil/async/detail/concurrentqueue.h:2003-2014 | a node that is marked and still referenced is held by exactly as many threads as its count says, each of which moves on to drop its reference, the last one adding the node |
| FreeList.NothingLostWhenQuiet | libs/async/include/suil/async/detail/concurrentqueue.h:1943-2063 | with no operation in flight every node is either with a client with count 0, or on the list with count 1 |
| FreeList.StepKeepsInv | libs/async/include/suil/async/detail/concurrentqueue.h:1943-2057 | each atomic step, including failed compare-exchanges and retries, keeps the invariant; what the operations answer is stated in FreeListAnswers |
| FreeListAnswers.AnswerIsRight | libs/async/include/suil/async/detail/concurrentqueue.h:1961-2014 | whatever other threads do, a `try_get` ends with nothing only if it passed a state in which the list was empty, and else with one node that nobody owned, which it saw first on the list and took off it |
| FreeListAnswers.GetsAlone | libs/async/include/suil/async/detail/concurrentqueue.h:1961-2014 | from any reachable state `try_get` alone takes the first node of the list and leaves the rest as the list, within six steps; it gets nothing only from an empty list, and then changes nothing |
| FreeListAnswers.AddsAlone | libs/async/include/suil/async/detail/concurrentqueue.h:1943-2057 | from any reachable state `add` alone puts the node in front of the list, or marks it if it is still referenced |
| FreeListAnswers.EndsAlone | libs/async/include/suil/async/detail/concurrentqueue.h:1943-2057 | from any reachable state, in the middle of any operation, a thread that runs alone ends it within 27 steps |
| OptimisticDequeue.RunSafe | libs/async/include/suil/async/detail/concurrentqueue.h:3452-3640 | the counters, tickets and blocks stay consistent over every run of one producer and any number of consumers |
| OptimisticDequeue.CompareExact | libs/async/include/suil/async/detail/concurrentqueue.h:3562-3563 | if a ticket passes the comparison modulo 2^64, then in unbounded numbers the ticket less the overcommit it read is below the tail |
| OptimisticDequeue.JudgedTicket | libs/async/include/suil/async/detail/concurrentqueue.h:3559-3566 | a ticket that wins was below the tail even counting every earlier ticket that has not failed; a ticket that loses is repaid |
| OptimisticDequeue.GainsBound | libs/async/include/suil/async/detail/concurrentqueue.h:3565-3566 | if every gain was within reach when it was judged, all gains together are within the tail |
| OptimisticDequeue.WinnerInReach | libs/async/include/suil/async/detail/concurrentqueue.h:3565-3566 | whoever increments `headIndex` takes an index below `tailIndex` |
| OptimisticDequeue.TakenOnce | libs/async/include/suil/async/detail/concurrentqueue.h:3565-3609 | a taken index is below the published tail, no other thread has it, nothing was received from it, its block has not been freed and its cell holds the element enqueued there |
| OptimisticDequeue.ReceivedIsEnqueued | libs/async/include/suil/async/detail/concurrentqueue.h:3452-3640 | what a consumer received from an index is what the producer enqueued at that index |
| OptimisticDequeue.FreedOnce | libs/async/include/suil/async/detail/concurrentqueue.h:2142-2167 | a block is freed at most once, only after something was received from all of its 32 indices; live blocks do not share memory and are not in the free pool |
| OptimisticDequeue.CountersAgreeWhenQuiet | libs/async/include/suil/async/detail/concurrentqueue.h:3546-3640 | with no dequeue in flight optimistic count minus overcommit is the head, exactly the indices below the head were received, and exactly the blocks wholly below it were freed |
| OptimisticDequeue.RoomExact | libs/async/include/suil/async/detail/concurrentqueue.h:3463-3464 | the circular test at a block boundary decides exactly whether the next block stays within half the index space of the head |
| DequeueAnswers.EndsSoon | libs/async/include/suil/async/detail/concurrentqueue.h:3546-3640 | no step of another thread touches a dequeue, and each of its own brings it nearer to its end, at most nine steps away |
| DequeueAnswers.ClaimsExact | libs/async/include/suil/async/detail/concurrentqueue.h:3546-3640 | in every reachable state optimistic count minus overcommit is the head, and the tickets in hand, those that have failed included |
| DequeueAnswers.FirstCompare | libs/async/include/suil/async/detail/concurrentqueue.h:3552-3556 | the first comparison sends a dequeue away exactly if the optimistic count less the overcommit it read has reached the tail it read |
| DequeueAnswers.NothingMeansFull | libs/async/include/suil/async/detail/concurrentqueue.h:3546-3640 | whatever other threads do, a dequeue that returns nothing passed a state in which the tail was within what was taken when it read the overcommit, with the tickets in hand then and those drawn until it read the optimistic count |
| DequeueAnswers.NothingMeansEmpty | libs/async/include/suil/async/detail/concurrentqueue.h:3546-3640 | with no other dequeue in flight a dequeue that returns nothing passed a state in which head and tail were equal |
| DequeueAnswers.DequeuesAlone | libs/async/include/suil/async/detail/concurrentqueue.h:3546-3640 | from any reachable state a dequeue alone receives the element at the head exactly if head and tickets in hand are fewer than the tail, and else changes nothing, within nine steps |
| DequeueAnswers.EnqueuesAlone | libs/async/include/suil/async/detail/concurrentqueue.h:3452-3540 | from any reachable state an enqueue alone puts its item behind all others exactly if there is room, and else takes no step |
| DequeueAnswers.MemoryConserved | libs/async/include/suil/async/detail/concurrentqueue.h:3482-3520 | in every reachable state the free memory blocks and those in use are together those that were free at the start: none is lost and none made up |
| DequeueRace.NothingThoughUnclaimed | libs/async/include/suil/async/detail/concurrentqueue.h:3546-3640 | a run in which a dequeue returns nothing while in every state it passes an index below the tail it read is neither taken nor claimed |
| DequeueRace.NothingMeansClaimed | libs/async/include/suil/async/detail/concurrentqueue.h:3546-3640 | while no other thread holds a failed ticket, a dequeue that returns nothing passed a state in which every index below a tail of that time was taken or claimed |
| DequeueRace.ClaimedIff | libs/async/include/suil/async/detail/concurrentqueue.h:3546-3640 | in every reachable state all indices below a number are taken or claimed exactly if that number, the overcommit and the failed tickets are together within the optimistic count |
| BlockRing.RoomIffReleased | libs/async/include/suil/async/detail/concurrentqueue.h:4077-4107 | the slot after the newest can be used exactly when the block one whole turn older has been released |
| BlockRing.ReserveKeepsInv | libs/async/include/suil/async/detail/concurrentqueue.h:4091-4102 | reserving a slot keeps the ring in agreement with the map of live blocks and loses none |
| BlockRing.PublishKeepsInv | libs/async/include/suil/async/detail/concurrentqueue.h:3521-3522 | storing the block into the reserved slot adds it to the map |
| BlockRing.AbandonKeepsInv | libs/async/include/suil/async/detail/concurrentqueue.h:3488-3493 | rewinding the tail and clearing the slot restores the map as it was |
| BlockRing.ReleaseKeepsInv | libs/async/include/suil/async/detail/concurrentqueue.h:3611-3622 | clearing the slot of an emptied block takes exactly that block out of the map |
| BlockRing.DoubledKeepsInv | libs/async/include/suil/async/detail/concurrentqueue.h:4162-4217 | doubling the full index, unrolled from the oldest slot, keeps every live block and leaves room |
| BlockRing.FindsTheKey | libs/async/include/suil/async/detail/concurrentqueue.h:4139-4168 | from any position whose key is in step with the ring the lookup arrives at the slot of the block's base; a signed difference divided by an unsigned size is harmless because the capacity divides 2^59 |
| BlockRing.KeysFit | libs/async/include/suil/async/detail/concurrentqueue.h:4077-4168 | every key of the index, also of released blocks, is in step with the ring |
| BlockRing.LookupAgrees | libs/async/include/suil/async/detail/concurrentqueue.h:4131-4168 | for every element of every live block, across the wrap of 64-bit indices, the lookup ends at the slot holding that block |
| BlockIndex.FitsBefore | libs/async/include/suil/async/detail/concurrentqueue.h:4187-4197 | a key in step with a header is in step with the header it replaced |
| BlockIndex.ChainInStep | libs/async/include/suil/async/detail/concurrentqueue.h:4170-4217 | every key reachable through any earlier header is in step with that header |
| BlockIndex.EntriesStay | libs/async/include/suil/async/detail/concurrentqueue.h:4187-4197 | a header keeps the entries of all headers before it |
| BlockIndex.ImplicitProducer.constructor | libs/async/include/suil/async/detail/concurrentqueue.h:3364-3380 | the first index, or none if memory is short, stands for the empty map |
| BlockIndex.ImplicitProducer.AllInStep | libs/async/include/suil/async/detail/concurrentqueue.h:4139-4168 | in every reachable state all headers, old and new, can be searched |
| BlockIndex.ImplicitProducer.LookupFrom | libs/async/include/suil/async/detail/concurrentqueue.h:4139-4168 | a consumer that read a header, its tail and the key there at earlier moments still finds the entry of the live block, with its base and its memory |
| BlockIndex.ImplicitProducer.GetBlockIndexEntryForIndex | libs/async/include/suil/async/detail/concurrentqueue.h:4131-4137 | the entry found for an index of a live block has the block's base as key and the block as value |
| BlockIndex.ImplicitProducer.CopyOldestFirst | libs/async/include/suil/async/detail/concurrentqueue.h:4186-4198 | the copying loop yields the entries of the old header from the oldest to the newest |
| BlockIndex.ImplicitProducer.NewBlockIndex | libs/async/include/suil/async/detail/concurrentqueue.h:4170-4217 | a new header has twice the capacity and room, shares the old entries, and changes neither the map nor the next block; without memory nothing changes |
| BlockIndex.ImplicitProducer.InsertBlockIndexEntry | libs/async/include/suil/async/detail/concurrentqueue.h:4077-4119 | fails exactly when there is no index, or it is full and may not or cannot be doubled; otherwise the newest slot is reserved for the block |
| BlockIndex.ImplicitProducer.PublishBlock | libs/async/include/suil/async/detail/concurrentqueue.h:3521-3522 | the map gains the reserved block and nothing else changes |
| BlockIndex.ImplicitProducer.GiveUp | libs/async/include/suil/async/detail/concurrentqueue.h:3488-3493 | the reservation is undone: map and next block are as before it |
| BlockIndex.ImplicitProducer.RemoveBlock | libs/async/include/suil/async/detail/concurrentqueue.h:3618-3622 | the map loses exactly the emptied block |
| BlockIndex.ImplicitProducer.StartBlock | libs/async/include/suil/async/detail/concurrentqueue.h:3457-3522 | starting a block adds it to the map or changes nothing; it succeeds exactly when a block can be had and the index has, or gets, room |
| ProducerTable.FreeMeansAbsent | libs/async/include/suil/async/detail/concurrentqueue.h:4762-4829 | meeting a free slot before the id on its probe path means that the table does not hold the id |
| ProducerTable.RoomByCount | libs/async/include/suil/async/detail/concurrentqueue.h:4763-4766 | a table with more slots than there are ids has a free slot, so probing ends |
| ProducerTable.InsertKeepsTable | libs/async/include/suil/async/detail/concurrentqueue.h:4924-4960 | storing an id in the first free slot of its path keeps every id findable and unique |
| ProducerHash.ProducerMap.constructor | libs/async/include/suil/async/detail/concurrentqueue.h:4652-4680 | the initial table stands for the empty map |
| ProducerHash.ProducerMap.Probe | libs/async/include/suil/async/detail/concurrentqueue.h:4763-4829 | the probe loop ends, at the slot of the id or at the first free one |
| ProducerHash.ProducerMap.Find | libs/async/include/suil/async/detail/concurrentqueue.h:4760-4830 | over all tables, newest first, an id is found exactly if the map has it, with the map's producer |
| ProducerHash.ProducerMap.Insert | libs/async/include/suil/async/detail/concurrentqueue.h:4924-4960 | an id is stored in the newest table without displacing any other |
| ProducerHash.ProducerMap.Search | libs/async/include/suil/async/detail/concurrentqueue.h:4771-4822 | an id found in an older table is copied into the newest one, which changes no answer |
| ProducerHash.ProducerMap.Enlarge | libs/async/include/suil/async/detail/concurrentqueue.h:4856-4886 | a larger empty table in front keeps every id and producer |
| ProducerHash.ProducerMap.Add | libs/async/include/suil/async/detail/concurrentqueue.h:4902-4961 | the map gains the new thread with its new producer |
| ProducerHash.ProducerMap.LargerCapacity | libs/async/include/suil/async/detail/concurrentqueue.h:4851-4855 | the next capacity is the first of the doubles of which the count is below half |
| ProducerHash.ProducerMap.GetOrAdd | libs/async/include/suil/async/detail/concurrentqueue.h:4735-4970 | the first call for a thread id adds the created producer, every later call returns that same one through any number of doublings and copies; nothing is returned only for want of memory or of a producer, and then the map is unchanged |
| NameSpec.LabelsPrefix | libs/async/src/dns/dns.c:1780-1853 | appending bytes changes no name that is in the packet already |
| NameSpec.NameStep | libs/async/src/dns/dns.c:1484-1528 | a name is the label reached over its pointers, followed by the name at the offset after it |
| NameSpec.NamePos | libs/async/src/dns/dns.c:1484-1528 | the k-th suffix of a name is the name at the k-th offset that is read |
| NameSpec.ReadLabelIsNameStep | libs/async/src/dns/dns.c:1484-1528 | `dns_l_expand` returns the first label of a stored name and the offset of the rest |
| NameSpec.WireReads | libs/async/src/dns/dns.c:1780-1853 | labels written in wire format before a name read as those labels and that name |
| NameSpec.BothForms | libs/async/src/dns/dns.c:1655-1700 | a name is well formed with its final dot and without it |
| NameSpec.DotsBetween | libs/async/src/dns/dns.c:1780-1853 | a name is presented as its labels in order, with one dot behind each |
| NameSpec.StrCaseEqIff | libs/async/src/dns/dns.c:1714-1714 | `strcasecmp` takes two labels for equal exactly if up to their NULs they agree byte for byte but for the case of the letters A to Z |
| NameSpec.SameNameIff | libs/async/src/dns/dns.c:1714-1714 | names are the same up to case exactly if their labels agree byte for byte but for the case of letters |
| NameTable.SpeltIsNameIff | libs/async/src/dns/dns.c:1700-1734 | a compressed name spells the pushed one, up to case, exactly when the label compared at the match is the first of the replaced suffix |
| NameTable.StaleNeedsRepeat | libs/async/src/dns/dns.c:1714-1717 | a match made with the label left by a failed comparison needs a stored name that repeats a label |
| NameTable.WholeReads | libs/async/src/dns/dns.c:1659-1697 | a name written in full reads back as itself, over no pointer |
| NameTable.ShortReads | libs/async/src/dns/dns.c:1720-1727 | a compressed name reads back as the kept labels and the stored suffix, its pointer going strictly backward |
| NameTable.TableWhole | libs/async/src/dns/dns.c:1247-1276 | after a name in full the table stays sound where no other offset left by a refused record lies under it: every entry reads back, over at most two pointers for each entry and each late name, or is an offset at or beyond the end |
| NameTable.TableShort | libs/async/src/dns/dns.c:1247-1276 | after a compressed name, whichever label was compared, the table stays sound with the same bound on its pointers |
| NameTable.TableReplace | libs/async/src/dns/dns.c:1258-1264 | replacing the entry that the new name ends in keeps the table sound and its bound as it was, also where refused records left offsets |
| NameTable.TableAppend | libs/async/src/dns/dns.c:1270-1276 | appending the new name as an entry keeps the table sound and raises its bound by two |
| NameTable.TableFull | libs/async/src/dns/dns.c:1270-1276 | a full table stays as it is, but the offsets left by refused records are now those of the new name, which raises its bound by two |
| NameTable.TableRefused | libs/async/src/dns/dns.c:1279-1387 | a refused record keeps the table sound, whatever names it had pushed: the offsets they leave lie at or beyond the end of the packet, from which nothing is read |
| NameTable.TableGrows | libs/async/src/dns/dns.c:1287-1306 | writing more bytes keeps the table sound exactly if stored names, within the bound on pointers, then stand at all offsets below the new end that refused records have left |
| NameTable.MatchChain | libs/async/src/dns/dns.c:1700-1734 | what the search finds is read over at most two pointers for each entry and each late name: 32 without late names, and fewer than the 127 at which reading gives up with up to 47 of them |
| NameSearch.SearchFound | libs/async/src/dns/dns.c:1700-1734 | what the search returns was found by comparing labels, is within reach of a pointer, and unless stale lies in the first entry with that label |
| NameSearch.SearchComplete | libs/async/src/dns/dns.c:1700-1734 | the longest suffix that first occurs whole in the table is the one compressed, unless an even longer match came before |
| NameSearch.PushKeeps | libs/async/src/dns/dns.c:1859-1876 | whatever was compared, the new name reads back as some name, and every earlier name reads as before; the table stays sound if the record is then refused, and else unless the name runs over an offset that a refused record has left |
| NameSearch.RoundTrip | libs/async/src/dns/dns.c:1655-1873 | so if no stored name repeats a label the name just written reads back up to case, and that stays so while no pushed name repeats one |
| NameSearch.RoundTripIff | libs/async/src/dns/dns.c:1655-1873 | section 4.1.4 of RFC 1035, with every sound table, also after refused records, and up to 47 late names: the name just written reads back as the name pushed, up to case, exactly when the label compared at the match equals the first label replaced; otherwise the matched entry repeats a label |
| NameSearch.RoundTripBytes | libs/async/src/dns/dns.c:1655-1873 | the labels read back are those pushed, byte for byte but for the case of ASCII letters, exactly when the label compared at the match is that of the suffix replaced, and always if no stored name repeats a label; and so is the text |
| NameSearch.RepeatedLabelBreaksRoundTrip | libs/async/src/dns/dns.c:1714-1717 | with `x.q.y.y.z.` stored, pushing `x.y.z.` compresses to a suffix that spells another name |
| NameSearch.SameText | libs/async/src/dns/dns.c:1780-1853 | names equal up to case have presentations that agree byte for byte but for the case of letters |
| ExpandLoop.EndsIff | libs/async/src/dns/dns.c:1780-1853 | for all bytes and offsets: the loop of `dns_d_expand`, with its 16-bit offsets, ends exactly if it does not come back to an offset behind a label within the first labels, one more than there are offsets |
| ExpandLoop.ExpandCanLoop | libs/async/src/dns/dns.c:1820-1821 | it need not end: a label and a pointer to that label keep it going, because its pointer count starts again at every label |
| ExpandLoop.StoredEnds | libs/async/src/dns/dns.c:1780-1853 | it ends on every stored name, whose suffixes all differ |
| ExpandLoop.StoredExpands | libs/async/src/dns/dns.c:1780-1853 | on a stored name it makes the anchored text of the name |
| ExpandLoop.ReadsIff | libs/async/src/dns/dns.c:1655-1873 | with any table: the expansion of the name just written ends, with the text of that name exactly if the suffix found is fewer than 127 pointers away, and else with an error |
| SearchLoop.LabelTurnReads | libs/async/src/dns/dns.c:1484-1528 | `dns_l_expand` and the loop of `dns_d_expand` read the same labels and go on at the same offsets, on any bytes |
| SearchLoop.EntryTurns | libs/async/src/dns/dns.c:1704-1731 | the loop over an entry does not end if its labels lead back to themselves, and nothing is found among them; otherwise it ends with what the scan of its labels gives |
| SearchLoop.SearchEndsIff | libs/async/src/dns/dns.c:1698-1736 | for all bytes, tables and names: the search ends exactly if the name is the root, or looking for the whole name does not come to an entry whose labels lead back to themselves |
| SearchLoop.ListedEnds | libs/async/src/dns/dns.c:1698-1736 | with every table of stored names and of offsets at or beyond the end, the search for any name ends |
| NamePacket.Packet.constructor | libs/async/src/dns/dns.c:1074-1087 | an empty packet has a header and no stored names |
| NamePacket.Packet.Follow | libs/async/src/dns/dns.c:1505-1516 | the pointer loop ends after at most 127 pointers and leaves the label to be read unchanged |
| NamePacket.Packet.ReadLabelAt | libs/async/src/dns/dns.c:1483-1529 | the label and next offset, as defined by section 4.1.4 of RFC 1035, from the bytes in place |
| NamePacket.Packet.WriteLabels | libs/async/src/dns/dns.c:1655-1697 | the presented name, with or without its final dot, stands in wire format behind the packet as far as it fits, and the length returned is its full length |
| NamePacket.Packet.Compare | libs/async/src/dns/dns.c:1708-1718 | the innermost loop leaves in the buffers the labels after the longest agreement, or the label it began with |
| NamePacket.Packet.ScanEntryAt | libs/async/src/dns/dns.c:1704-1731 | the loop over one entry finds what the search function finds and leaves the label it leaves |
| NamePacket.Packet.ScanTableAt | libs/async/src/dns/dns.c:1702-1733 | the loop over the entries agrees with the search function |
| NamePacket.Packet.FindSuffix | libs/async/src/dns/dns.c:1698-1736 | the search over all suffixes returns the match of the search function, with its two offsets |
| NamePacket.Packet.Compress | libs/async/src/dns/dns.c:1655-1740 | `dns_d_comp` leaves the packet alone, fits exactly if the uncompressed name fits, and then writes the name in full or as the search directs |
| NamePacket.Packet.SkipLabel | libs/async/src/dns/dns.c:1532-1554 | the offset after a literal label, and the end of the packet for anything else |
| NamePacket.Packet.AddToDict | libs/async/src/dns/dns.c:1247-1276 | the new name replaces the entry it ends in, if it has labels of its own, and else is appended while there is room |
| NamePacket.Packet.Push | libs/async/src/dns/dns.c:1859-1876 | the name is refused exactly if it does not fit and then nothing changes; otherwise every earlier name reads as before, and the name reads back up to case exactly if the search compared the right label, as it does if no stored name repeats a label; the table stays sound unless the name runs over an offset that a refused record has left, and in any case if the record is then refused |
| NamePacket.Packet.PushBytes | libs/async/src/dns/dns.c:1279-1387 | writing other bytes of a record keeps the table and all stored names, where no refused record has left an offset |
| NamePacket.Packet.TakeBack | libs/async/src/dns/dns.c:1382-1386 | the way out for a refused record, from any state: the content is as it was, and sound if the table is for that content, as it always is after pushes |
| NamePacket.Packet.PushHost | libs/async/src/dns/dns.c:2657-2747 | a host in the data of an NS or MX record is refused exactly if it does not fit behind the length and the preference, and then nothing changes; otherwise the length is that of what was written, which is filled in afterwards, the host reads back up to case exactly if the search compared the right label, every earlier name reads as before, and the table stays sound |
| NamePacket.Packet.Expand | libs/async/src/dns/dns.c:1780-1853 | from any offset of any bytes from which the loop ends: the length of the text it makes, with as much of it as fits in the buffer, or an error; with a NUL in either case |
| NamePacket.WrittenEncoded | libs/async/src/dns/dns.c:1655-1740 | the bytes of a pushed name are one encoded name and nothing else |
| NameAlike.SameSearch | libs/async/src/dns/dns.c:1698-1736 | in two packets from which all entries of the table read the same, at the same offsets, the search finds the same |
| NameAlike.SameWritten | libs/async/src/dns/dns.c:1655-1740 | so a name becomes the same bytes behind both |
| NameAlike.AlikeBehind | libs/async/src/dns/dns.c:2662-2679 | packets stay alike under different bytes of the same length, such as the two for the length of the data before and after it is filled in, where no refused record has left an offset |
| NameAlike.AlikeAfter | libs/async/src/dns/dns.c:1859-1876 | and they stay alike, with the same table, after the same name has been pushed behind both |
| Drafts.LengthFilled | libs/async/src/dns/dns.c:2662-2679 | storing the two length bytes in front of a name that has been pushed keeps the table sound, and the name reads as it would have with the length there from the start |
| NameSkip.TurnsForward | libs/async/src/dns/dns.c:1743-1777 | every turn of `dns_d_skip` goes forward within the packet exactly if the packet is shorter than 65536 bytes; at 65536 its end wraps to offset 0 |
| NameSkip.SkipEndsIff | libs/async/src/dns/dns.c:1743-1777 | for all bytes up to 65536: the loop of `dns_d_skip` ends exactly if its labels do not meet the last 16-bit offset, pass it by a label and meet it again |
| NameSkip.SkipName | libs/async/src/dns/dns.c:1743-1777 | skipping from inside the packet makes progress and stays within it |
| NameSkip.SkipsEncoded | libs/async/src/dns/dns.c:1743-1777 | an encoded name is skipped as a whole, whatever surrounds it |
| Records.RecordEnd | libs/async/src/dns/dns.c:1992-2025 | for every packet the end of a record is strictly after its start and within the packet |
| Records.StudyMemos | libs/async/src/dns/dns.c:1437-1471 | the study finds the starts of the four sections at the record numbers given by the counts |
| Records.CountsRecords | libs/async/src/dns/dns.c:2041-2053 | the counting loop of `dns_rr_section` gives each record start its number |
| Records.MemoAgrees | libs/async/src/dns/dns.c:2027-2055 | after a study the memo classifies every record start exactly as counting from the header does |
| RecordBuilding.WalkVisits | libs/async/src/dns/dns.c:2022-2025 | in a packet built by pushes the walk from the header visits exactly the pushed records |
| RecordBuilding.RecordSkips | libs/async/src/dns/dns.c:1992-2025 | skipping a pushed record leads to the next one |
| RecordBuilding.ParsesBack | libs/async/src/dns/dns.c:1934-1990 | every pushed record is parsed back with its type, class and data, and its time to live without the top bit |
| RecordBuilding.OptIsCut | libs/async/src/dns/dns.c:3111-3116 | for all bytes behind it: an OPT record parses exactly if these begin with a 16-bit length and have as many bytes behind it, which are then taken for its data; skipping it leads to its end exactly if nothing follows it |
| RecordBuilding.SectionKnown | libs/async/src/dns/dns.c:2027-2055 | the memo gives every pushed record the section it was pushed into |
| RecordBuilding.SectionOfRecord | libs/async/src/dns/dns.c:2041-2055 | in ordered sections the number of a record tells its section |
| RecordBuilding.KeptIsStudied | libs/async/src/dns/dns.c:1323-1380 | the memo kept push by push equals a fresh study |
| PacketRecords.Packet.constructor | libs/async/src/dns/dns.c:1074-1087 | an empty packet has no records and no memo |
| PacketRecords.Packet.SkipNameAt | libs/async/src/dns/dns.c:1743-1777 | the loop on the buffer, with 16-bit offsets, computes the skip |
| PacketRecords.Packet.QuestionEnd | libs/async/src/dns/dns.c:1090-1107 | the loop over the questions computes their end |
| PacketRecords.Packet.SkipRecord | libs/async/src/dns/dns.c:1992-2025 | the end of the record as defined |
| PacketRecords.Packet.StudySection | libs/async/src/dns/dns.c:1437-1449 | the loop over one section ends after its records |
| PacketRecords.Packet.StudyPacket | libs/async/src/dns/dns.c:1451-1471 | the memo of the packet becomes a fresh study |
| PacketRecords.Packet.SectionOfStart | libs/async/src/dns/dns.c:2027-2055 | memo first, then counting: the section of a record start |
| PacketRecords.Packet.Push | libs/async/src/dns/dns.c:1279-1387 | a record is appended, or refused exactly if its name before compression or all of its bytes want more room, or a later section has begun; a refused record leaves content and records as they were, and the memo stays fresh |
| PacketRecords.Packet.Update | libs/async/src/dns/dns.c:1323-1380 | counts and memo after a push are those of the longer packet |
| Drafts.Followed | libs/async/src/dns/dns.c:1279-1316 | while the pieces of a record are written, its own name and those in its data, with any bytes in the place of the length of the data: as long as the draft is sound the names read back in the finished record as they are searched for in the unfinished one, and the table stays sound with it |
| Drafts.EntriesFrom | libs/async/src/dns/dns.c:1247-1276 | whatever is searched and written, the table gets no other offsets than those of names of the record, never shrinks, and no name is late while it has room |
| Drafts.StaysSound | libs/async/src/dns/dns.c:1279-1316 | a draft is sound with up to 47 late names if no offset of the table lies at or beyond the place where it begins |
| Messages.RunInv | libs/async/src/dns/dns.c:1279-1387 | names, table, records and memo stay sound together over every run of pushes on one buffer, with the names in the data of NS, CNAME, PTR, MX, SRV and SOA records, and with records refused at any point, before, behind or within their names and data; as long as no draft has run over an offset that a refused record left, or pushed more than 47 late names |
| Messages.RecordsReadBack | libs/async/src/dns/dns.c:1279-1387 | after any run the walk visits exactly the records pushed, each parses to what was pushed, and the memo kept on the way gives its section |
| Messages.NamesReadBack | libs/async/src/dns/dns.c:1279-1387 | after any run, of every record pushed while it was sound: the names stand where the record and `dns_any_parse` look for them, each reads back up to case exactly if the search for it compared the right label, and its expansion ends, with its text |
| Messages.NamesRight | libs/async/src/dns/dns.c:1279-1387 | those are all records up to 47 late names if none was refused after a name in its data had gone into the table; no name is late while the table has room; and all names read back while none of them repeats a label |
| SearchRuns.SearchesEnd | libs/async/src/dns/dns.c:1279-1387 | in every run the search for any name ends at any point of a record that is written soundly |
| SearchRuns.SearchCanLoop | libs/async/src/dns/dns.c:1698-1736 | a run of three pushed records and an MX record refused for its section, behind its host, after which the search for the name of the next record never ends |
| LateNames.LateNameLost | libs/async/src/dns/dns.c:1247-1287 | 47 is the largest safe number: a run of pushes and refusals with 48 late names after which a name is pushed without an error, is not read back, and its expansion ends with an error |
| Permutor.DecryptInvertsEncrypt | libs/async/src/dns/dns.c:497-532 | for every round function `dns_k_permutor_D` inverts `dns_k_permutor_E` on the whole domain, both ways |
| Permutor.EncryptPeriodic | libs/async/src/dns/dns.c:497-514 | only the step counter modulo the domain matters |
| Permutor.EncryptWraps | libs/async/src/dns/dns.c:535-543 | the wrap of the 32-bit counter changes no value |
| Permutor.NothingSkipped | libs/async/src/dns/dns.c:535-543 | the loop skips only values outside the range |
| Permutor.HitsInPeriod | libs/async/src/dns/dns.c:535-543 | any `length` consecutive results come from within one period of the network |
| Permutor.DrawsDistinct | libs/async/src/dns/dns.c:535-543 | any `length` consecutive results are pairwise distinct, from any counter value |
| Permutor.DrawsInRange | libs/async/src/dns/dns.c:535-543 | every result lies in low..high |
| Permutor.DrawsCover | libs/async/src/dns/dns.c:535-543 | any `length` consecutive results are exactly the values low..high |
| Permutor.PowOf | libs/async/src/dns/dns.c:449-456 | the least number of bits that holds n values |
| Permutor.XorBits | libs/async/src/dns/dns.c:497-532 | the operation between the halves is the bitwise exclusive or |
| Permutor.Permutor.constructor | libs/async/src/dns/dns.c:458-480 | the domain has an even number of bits, covers the range, and is less than four times as large |
| Permutor.Permutor.E | libs/async/src/dns/dns.c:497-514 | the rounds on alternating cells compute the network |
| Permutor.Permutor.D | libs/async/src/dns/dns.c:516-532 | the rounds from the last to the first compute its inverse |
| Permutor.Permutor.Step | libs/async/src/dns/dns.c:535-543 | the skip loop ends although the counter wraps, and yields the next draw inside the range |
| Shuffle.UnBoxUndoes | libs/async/src/dns/dns.c:559-590 | the table is a permutation of the bytes (the S-box of section 5.1.1 of FIPS 197) |
| Shuffle.SBoxIsInverse | libs/async/src/dns/dns.c:559-590 | every entry of the table is the affine image of the inverse of its index in GF(2^8), and of 0 for 0, as section 5.1.1 of FIPS 197 defines it |
| Shuffle.SeedBytes | libs/async/src/dns/dns.c:592-605 | the four rounds take the bytes of the seed, lowest first, and leave none out |
| Shuffle.KeyMatters | libs/async/src/dns/dns.c:596-601 | two different key bytes never give the same half |
| Shuffle.RoundInjective | libs/async/src/dns/dns.c:592-605 | a round with any key byte can be taken back |
| Shuffle.ShuffleInjective | libs/async/src/dns/dns.c:558-606 | for every seed no two 16-bit numbers are shuffled to the same number |
| Shuffle.ShuffleLoop | libs/async/src/dns/dns.c:592-605 | the loop over the four seed bytes computes the shuffle |
| Enumeration.StepsReach | libs/async/src/dns/dns.c:2168-2272 | stepping to the next larger key leaves out nothing at or below the last step |
| Enumeration.Complete | libs/async/src/dns/dns.c:2168-2272 | an iteration that came to its end met every element exactly once, in the order of the keys |
| RecordIteration.CompareIsKey | libs/async/src/dns/dns.c:2275-2311 | packet order and shuffled order compare as a key that tells all records apart |
| RecordIteration.SectionsInOrder | libs/async/src/dns/dns.c:2287-2311 | in shuffled order the records of earlier sections come first |
| RecordIteration.BaseLosesNothing | libs/async/src/dns/dns.c:2168-2184 | starting at the first wanted section instead of the header loses no matching record |
| RecordIteration.RecordIterator.Start | libs/async/src/dns/dns.c:2168-2217 | the first record is the matching one with the smallest key, if there is one |
| RecordIteration.RecordIterator.Skip | libs/async/src/dns/dns.c:2220-2272 | the next record is the matching one with the smallest larger key, if there is one |
| RecordIteration.RecordIterator.Grep | libs/async/src/dns/dns.c:2330-2365 | repeated calls hand out every matching record exactly once in increasing order, and then stop |
| HintIteration.DifferenceSign | libs/async/src/dns/dns.c:5189-5196 | the unsigned difference of two priorities, taken as signed, has the right sign exactly if the true difference fits 32 bits |
| HintIteration.RightIffClose | libs/async/src/dns/dns.c:5189-5196 | the comparison follows priority and shuffle for all pairs exactly if no two priorities are 2^31 or more apart |
| HintIteration.EnumeratesIffFit | libs/async/src/dns/dns.c:5189-5277 | for all priorities: repeated calls hand out all hints in order and then stop exactly if no two priorities are more than 2^31 apart, and of two exactly 2^31 apart the larger stands before the first hint of all, with a priority between them |
| HintIteration.FitIsClose | libs/async/src/dns/dns.c:5189-5277 | where no two priorities are exactly 2^31 apart, that is so exactly if none are 2^31 or more apart |
| HintIteration.FarApartIsWrong | libs/async/src/dns/dns.c:5189-5235 | with priorities 1 and 1 + 2^31 each hint counts as the smaller: the second is handed out, and never the first |
| HintIteration.HintIterator.constructor | libs/async/src/dns/dns.c:5238-5253 | the iterator starts at the hint that the loop over all hints finds, for any priorities |
| HintIteration.HintIterator.Start | libs/async/src/dns/dns.c:5199-5210 | the loop computes the first hint; for fit priorities it is the least in priority and shuffle |
| HintIteration.HintIterator.Skip | libs/async/src/dns/dns.c:5213-5235 | the two loops compute the next hint; for fit priorities it is the next larger one, if there is one |
| HintIteration.HintIterator.Grep | libs/async/src/dns/dns.c:5256-5277 | repeated calls hand out what the iteration defines; for fit priorities that is every hint exactly once by priority and then shuffle, and then the end |
| Resolver.ExecKeepsInv | libs/async/src/dns/dns.c:6598-7139 | every case of the switch, for every answer, error and timeout, keeps the discipline of the frame stack; success is returned only by the first frame, done and with an answer |
| Resolver.CallDiscipline | libs/async/src/dns/dns.c:6598-7139 | over every run from a submit `sp` stays within the eight frames, every frame below it waits in RESOLV1_NS, CNAME1_A or, at the bottom, SMART1_A, and a frame resumes only with a query and an answer above it |
| Resolver.ExitsReached | libs/async/src/dns/dns.c:7125-7138 | the exits for a missing query and a missing answer are never taken, and success leaves an answer to fetch |
| Resolver.PacketsPresent | libs/async/src/dns/dns.c:6598-7139 | every query, answer and hints packet that a state uses without a check is there |
| Resolver.ReenterOrFetch | libs/async/src/dns/dns.c:7242-7272 | after an error the call can be made again from a sound state, and a finished resolver has no frame left but the first |
| LookupOrder.SwitchChooses | libs/async/src/dns/dns.c:6640-6679 | a frame leaves SWITCH for BIND, FILE or CACHE exactly if a letter at or behind `which`, in front of a NUL and within 36 characters, names a usable method; then for the first of them, and goes on behind it; only without one the bottom frame takes the kept answer, if any, or the frame goes to SERVFAIL |
| LookupOrder.MethodsInOrder | libs/async/src/dns/dns.c:6640-6679 | over every stretch of a run with a frame on the stack, the methods it has entered and those that the rest of its lookup string names are together all that the string names: in order, each place once, none left out |
| LookupOrder.MethodsAre | libs/async/src/dns/dns.c:6641-6653 | the methods that a lookup string names are those of its letters b, f and, with a cache, c in either case, by increasing place |
| LookupOrder.GivesUpLast | libs/async/src/dns/dns.c:6656-6682 | a frame gives up, and the bottom frame takes the kept answer, only after all methods of the lookup string have been entered |
| LookupOrder.RoundsBounded | libs/async/src/dns/dns.c:6814-6826 | a frame comes to the end of its name servers as often as `attempts` counts, and starts again with them only while that is below the configured number |
| LookupOrder.FramesBegin | libs/async/src/dns/dns.c:6829-6850 | a frame begins with an empty state and a query, one above its caller, at the start of the lookup string |
| Transitions.GoesOn | libs/async/src/dns/dns.c:6598-7139 | in every reachable state the top frame can go on in a state of the switch exactly if the list of its predecessors says so |
| Transitions.CallsAndReturns | libs/async/src/dns/dns.c:6598-7139 | a frame can call another exactly in RESOLV0_NS, CNAME0_A and SMART0_A below the eighth frame, goes back exactly when it is done, and the call returns success exactly from the bottom frame, done, and an error in exactly the states listed |
| Transitions.KeptAnswer | libs/async/src/dns/dns.c:6936-6948 | the first answer that answers nothing is kept exactly when the search goes on without recursion, until the bottom frame has no method left and takes it |
| AsyncMutex.StepRefines | libs/async/src/mutex.cpp:42-123 | every atomic step, including weak compare-exchange failures, is invisible or one step of a FIFO lock; what the operations achieve is stated in MutexAnswers |
| AsyncMutex.RunRefines | libs/async/src/mutex.cpp:42-123 | every run of the mutex is, step for step, a run of a FIFO lock |
| AsyncMutex.MutualExclusion | libs/async/src/mutex.cpp:42-93 | at most one task holds the mutex or is unlocking it |
| AsyncMutex.FirstComeFirstServed | libs/async/src/mutex.cpp:61-93 | the lock is handed over in the order of the successful pushes, and the suspended tasks are exactly those pushed and not yet handed the lock, each once |
| AsyncMutex.UnlockedMeansIdle | libs/async/src/mutex.cpp:42-74 | NOT_LOCKED implies no waiter anywhere and no holder |
| AsyncMutex.OnePlace | libs/async/src/mutex.cpp:61-123 | a suspended task is on exactly one of the stack, the private queue and the part not yet reversed |
| AsyncMutex.AssertionsHold | libs/async/src/mutex.cpp:63-91 | the assertions in `unlock` hold whenever the holder calls it |
| AsyncMutex.WaiterHasHolder | libs/async/src/mutex.cpp:61-123 | while a task waits some other task holds the lock |
| MutexAnswers.TryLockAnswer | libs/async/src/mutex.cpp:42-49 | `tryLock` succeeds exactly if nobody holds the lock, which the caller then does; else nothing changes |
| MutexAnswers.UnlockEnds | libs/async/src/mutex.cpp:61-93 | whatever other tasks do, an `unlock` takes at most as many steps as there are tasks, and four, and its next step is always possible |
| MutexAnswers.UnlockAnswer | libs/async/src/mutex.cpp:61-93 | the last step of an `unlock` makes the mutex free if nobody waits, and else resumes the first of those that wait, who then holds the lock |
| MutexAnswers.LockAnswer | libs/async/src/mutex.cpp:95-123 | a locking task comes to hold the lock only when nobody does, and is suspended only while somebody does, behind all that wait |
| MutexAnswers.LocksAlone | libs/async/src/mutex.cpp:95-123 | locking alone ends within four steps: with the lock exactly if nobody holds it, and else suspended behind all that wait |
| ManualResetEvent.StepKeepsInv | libs/async/src/event.cpp:216-262 | each step of waiters, sets and resets keeps the invariant |
| ManualResetEvent.RunSafe | libs/async/src/event.cpp:216-262 | the invariant holds after every interleaving; in the set state the stack of the event is empty |
| ManualResetEvent.ResumedByFirstSet | libs/async/src/event.cpp:216-229 | every resumption answers one push, once, and by the first `set` after it |
| ManualResetEvent.AnsweredOrWaiting | libs/async/src/event.cpp:216-262 | every push is answered or its task still waits, and never both |
| ManualResetEvent.OnePlace | libs/async/src/event.cpp:216-262 | a waiting task is on the stack or in the detached chain of exactly one running `set`, and never on the stack of a set event |
| ManualResetEvent.SetResumesAll | libs/async/src/event.cpp:216-229 | a `set` that has walked its chain has resumed every task pushed since the `set` before it |
| ManualResetEvent.NextIsWaiting | libs/async/src/event.cpp:221-227 | the task that `set` resumes next does wait: nothing else woke it |
| EventAnswers.SetUntilReset | libs/async/src/event.cpp:216-235 | a set event stays set until a `reset`, which wakes and stops nobody; only the exchange of `set` sets it |
| EventAnswers.GoesOnIfSet | libs/async/src/event.cpp:245-262 | whatever other tasks do, a task that waits and goes on without being suspended passed a state in which the event was set |
| EventAnswers.WaitAlone | libs/async/src/event.cpp:242-262 | a task that waits alone goes on if the event is set, and else is suspended, linked in front of those that wait already |
| EventAnswers.ResetAlone | libs/async/src/event.cpp:231-235 | `reset` takes a set event back and leaves any other as it is |
| EventAnswers.SetAlone | libs/async/src/event.cpp:216-228 | from any reachable state a `set` alone sets the event, resumes exactly the tasks that wait since the `set` before it, and ends |
| EventAnswers.SetEnds | libs/async/src/event.cpp:216-228 | whatever other tasks do, a `set` ends within twice as many steps as there are tasks, and one, and its next step is always possible |
| AsyncScope.RunInv | libs/async/include/suil/async/scope.hpp:150-200 | the invariant of count, continuation and live work holds after every run |
| AsyncScope.CountIsLiveWork | libs/async/include/suil/async/scope.hpp:150-200 | the count is the live work, plus one until the join subtracts its share |
| AsyncScope.NeverFromZero | libs/async/include/suil/async/scope.hpp:191-200 | the count is positive whenever work starts or the count is decremented |
| AsyncScope.JoinsOnce | libs/async/include/suil/async/scope.hpp:163-195 | the joiner goes on at most once, only when all work has finished, and the work that resumes it finds the continuation stored |
| AsyncScope.JoinerNotForgotten | libs/async/include/suil/async/scope.hpp:176-195 | while the joiner is suspended some work runs or is about to resume it |
| AsyncScope.JoinAlone | libs/async/include/suil/async/scope.hpp:163-185 | a join goes on at once exactly if no work is left, and else suspends with its continuation stored and the count equal to the live work |
| AsyncScope.FinishAlone | libs/async/include/suil/async/scope.hpp:189-193 | work that finishes resumes the joiner exactly if that is suspended and no other work is live |
| AsyncScope.JoinerSpawns | libs/async/include/suil/async/scope.hpp:152-160 | the joiner can spawn work before it joins, which is then live and counted |
| AsyncScope.WorkSpawns | libs/async/include/suil/async/scope.hpp:152-160 | so can running work at any time |
| TimerList.List.constructor | libs/async/src/list.cpp:39-43 | an empty, well-linked list |
| TimerList.List.Insert | libs/async/src/list.cpp:45-58 | the item is linked in before the given one or at the end: the list refines insertion into a sequence |
| TimerList.List.Erase | libs/async/src/list.cpp:60-80 | an item of the list is unlinked and the next one returned; erasing an item of no list empties the list |
| TimerList.AddedStable | libs/async/src/thread.cpp:246-260 | the list stays sorted, and a timer goes behind all timers due no later and before all others |
| TimerList.FireDue | libs/async/src/thread.cpp:270-308 | whatever timers resumed code adds and cancels, what fired was due and nothing left is due |
| TimerList.FireConserves | libs/async/src/thread.cpp:270-308 | no timer is lost or fires twice: those that fired, those cancelled by resumed code and those left are the old ones and the added ones |
| TimerList.FireInOrder | libs/async/src/thread.cpp:270-308 | if resumed code adds only later timers, exactly those timers fire that were due and are not cancelled before their turn, in the order of deadline and then arrival |
| TimerList.Thread.AddTimer | libs/async/src/thread.cpp:246-260 | the loop inserts the timer at its place in the order |
| TimerList.Thread.CancelTimer | libs/async/src/thread.cpp:262-268 | exactly the listed armed timer is taken out; an armed timer that is not listed empties the list |
| TimerList.Thread.Resume | libs/async/src/thread.cpp:246-268 | timers added and cancelled by resumed code, one after the other, including a cancellation that empties the list |
| TimerList.Thread.FireFirst | libs/async/src/thread.cpp:278-304 | one due timer leaves the list before its coroutine runs and adds and cancels others |
| TimerList.Thread.FireExpiredTimers | libs/async/src/thread.cpp:270-308 | the loop fires exactly the timers of the specification in its order and leaves its rest |
| TimerList.Thread.ComputeWaitTimeout | libs/async/src/thread.cpp:310-324 | -1 without timers, 0 if the earliest is due, and otherwise its distance modulo 2^32 as a signed 32-bit integer: the distance exactly if that fits |
| Base64.EncodedShape | libs/utils/src/b64.cpp:23-64 | four characters for every three bytes or part of them, all of the alphabet or padding |
| Base64.Alphabet | libs/utils/src/b64.cpp:24-24 | the 64 characters and the pad are those of table 1 of RFC 4648 |
| Base64.ValueIffChar | libs/utils/src/b64.cpp:73-91 | a character has a value exactly if it is of the alphabet, namely its index there |
| Base64.GroupBits | libs/utils/src/b64.cpp:26-40 | the four indices are the 24 bits of three bytes, most significant first |
| Base64.Encode | libs/utils/src/b64.cpp:23-64 | the loop and its tail compute the encoding |
| Base64.Decode | libs/utils/src/b64.cpp:72-129 | the loop and the last block, with sizes that wrap, compute the decoding, including its errors |
| Base64.RoundTripIff | libs/utils/src/b64.cpp:23-129 | decoding an encoded text gives the bytes back exactly if what stands in memory behind the text is readable, as defined by the scan of the last block |
| Base64.RoundTripInString | libs/utils/src/b64.cpp:66-129 | with a NUL behind the text the round trip holds for every byte string but the empty one |
| TxtRecord.ChunksLength | libs/async/src/dns/dns.c:3341-3341 | the length computed beforehand is the number of bytes that the chunk loop writes |
| TxtRecord.ChunkAt | libs/async/src/dns/dns.c:3344-3360 | section 3.3 of RFC 1035: string k begins at 256 k with its length in front, every string but the last has 255 bytes, and together they are the text |
| TxtRecord.ChunksJoin | libs/async/src/dns/dns.c:3294-3321 | joining the chunks gives the text back exactly if there is room for it |
| TxtRecord.LengthIsRight | libs/async/src/dns/dns.c:3341-3344 | the two bytes written first are the length of the data that follows |
| TxtRecord.Push | libs/async/src/dns/dns.c:3324-3364 | the text is appended exactly if there is room for its length and strings, and else the packet ends where it did |
| TxtRecord.Parse | libs/async/src/dns/dns.c:3294-3321 | the loop joins the strings, or fails where a string runs past the data or the text past the buffer |
| TxtRecord.RoundTrip | libs/async/src/dns/dns.c:3294-3364 | section 3.3.14 of RFC 1035: parsing after pushing returns the same text |
| NssConf.LastWins | libs/async/src/dns/dns.c:4701-4733 | for each status the last criterion listed takes effect, and the default without one |
| NssConf.Letters | libs/async/src/dns/dns.c:4493-4530 | sources are read in either case and d like b, statuses and actions only as capitals |
| NssConf.MeantFor | libs/async/src/dns/dns.c:4600-4733 | for a status an entry means the action of its last criterion for it, and without one, or without an action there, to return on success and else to go on |
| NssConf.CriteriaRead | libs/async/src/dns/dns.c:4701-4733 | reading criteria stops at the next source, which is never taken for a criterion |
| NssConf.ReadsBack | libs/async/src/dns/dns.c:4680-4739 | iterating over the string of some entries yields their sources in order, with the actions meant, and then the end |
| NssConf.RoundTrip | libs/async/src/dns/dns.c:4597-4739 | for every configuration the sources read back are those written, with the last action for each status |
| NssConf.NextByLoop | libs/async/src/dns/dns.c:4680-4739 | the two loops compute the next source and the new state |
| NssConf.AppendEntry | libs/async/src/dns/dns.c:4600-4639 | the loop over the criteria writes the text of an entry within the 36 characters |
| NssConf.Load | libs/async/src/dns/dns.c:4597-4642 | the string is the text of exactly the entries that fit, in order, and is terminated |
| NssConf.WrittenFits | libs/async/src/dns/dns.c:4600-4641 | what is written fits into the 36 characters with a NUL behind it |
| SourcesLookup.SwitchTried | libs/async/src/dns/dns.c:6640-6653 | with a lookup string written from the name service switch a frame tries the sources in order, and the cache once for each criterion with the action continue |
| SourcesLookup.CacheTriedIff | libs/async/src/dns/dns.c:6648-6650 | the cache is among them exactly if the resolver has one and some criterion continues |

## Left out

- OptimisticDequeue.RunSafe: assumes that a consumer compares its ticket before 2^63 other
  dequeues have overtaken it, without which 64-bit circular comparison means nothing; the steps
  inside the free list and the block index are single steps here and are proved separately.
- DequeueAnswers.NothingMeansFull: for the same reason it assumes that while a ticket is not yet
  compared the tail does not run 2^63 ahead of it.
- DequeueAnswers.DequeuesAlone: with at most 2^63 threads, so that all tickets in hand can be compared.
- FreeList.RunInv: every node starts with a client and is added only by whoever owns it, and there
  are fewer than 2^31 - 1 threads, as the source takes for granted.
- BlockIndex.ImplicitProducer.StartBlock: `enqueue` and the release of a block are taken one at a
  time; lookups may use any earlier header, tail and key, which
  covers concurrent readers.  Capacities stay within the 2^59 blocks that 64-bit indices can name.
- ProducerHash.ProducerMap.GetOrAdd: calls are taken one at a time, and threads do not exit;
  reusing the keys of threads that have ended, and recycled producers, are not modelled.
- NamePacket.Packet.Push: names are well formed (labels of 1 to 63 bytes without NUL or dot), and
  packets have at most 65535 bytes, and before the push a sound table with at most 47 late names:
  SearchCanLoop and LateNameLost show why.
- NameSkip.SkipName: the offset it returns is stated for packets of fewer than 65536 bytes, where
  every loop goes forward; for one of 65536 bytes SkipEndsIff says when it returns at all.
- Records.RecordEnd: for packets of fewer than 65536 bytes, for the same reason.
- PacketRecords.Packet.Push: the bytes of the name and of the data are given, and the length of the
  name before compression; `Messages` puts the names and the records on one buffer.  OPT records
  are not among these (see OptIsCut); the four counts are numbers beside the buffer.
- Messages.NamesReadBack: of records pushed after the message has ceased to be sound only the
  bytes are followed, with each name as some encoded name; LateNameLost and SearchCanLoop show
  what can become of them.  Numbers and texts in the data are bytes.
- NamePacket.Packet.TakeBack: `dns_p_push` and `dns_any_push` as a whole are `Drafts` and
  `Messages`, on values; the class has the parts that touch names.
- AsyncScope.RunInv: the scope is joined once, and work is spawned by the joining coroutine before
  it joins or by work that has not finished, which is what the scope asks of its callers.
- TimerList.Thread.FireExpiredTimers: deadlines and the armed mark of a timer do not change while it
  is listed; a timer is added only when it is not listed, and a timer that was listed when the
  list was emptied is not cancelled before it is added again; what firing does to epoll and to
  coroutine states is not modelled.
- TimerList.List.Erase: what happens to links of other lists when an item of another list is
  passed is not modelled.
- RecordIteration.RecordIterator.Grep: the packet does not change between the calls, and its memo
  is fresh or empty.
- HintIteration.HintIterator.Grep: the addresses of the hints are left out; that all hints are
  handed out is stated for fit priorities, which EnumeratesIffFit shows to be exactly those for
  which it is so.
- Resolver.CallDiscipline: packets are present or absent, their contents, sockets, timers and
  ownership are not modelled.
- NssConf.Load: starts from the words of the file as they were recognised; scanning the file is
  not modelled.
- Permutor.Permutor.E: the TEA round function is any function of round and half.
- Memory orders, allocation details, exceptions, `MAX_SUBQUEUE_SIZE` other than unlimited.
- `ExplicitProducer` and the bulk operations of the queue: the same ideas again, unused by the
  scheduler.
- `AutoResetEvent`: its await operation is always empty and its resume list is written through a
  null head, so its protocol is not implemented.
- `poll.cpp`: the `Poll` class is not part of this model.
- `dns_rr_i_order` as a sort: it is not a strict order.
- `suil::bytes` hexadecimal decoding: it reads one character for both nibbles.
- Sockets, epoll, eventfd, files, logging, arguments, dates, identifiers and the HTTP headers:
  system calls, formatting or wrappers.
