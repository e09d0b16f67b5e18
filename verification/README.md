# Verified models of the phlib base library and the NTFS run list

This project models, in Dafny, the parts of HsCore whose correctness cannot be read off any one
function: linked structures that are changed in place, lock-free protocols, and text and number
codecs. Every file is a module; `dafny verify dfyconfig.toml` checks all of them.

| files | what they model |
|---|---|
| `AvlShape`, `AvlRotate`, `AvlBalance`, `AvlPath`, `AvlTree`, `AvlRemove`, `AvlWalk`, `AvlEnum`, `AvlFind` | the intrusive AVL tree of `collect.c`, on nodes with parent pointers and stored balances behind a sentinel |
| `HandleProtocol`, `HandleLedger`, `HandleSafety`, `HandleSteps`, `HandleRuns`, `HandleGiveUp`, `HandleAlone` | the free lists of the handle table under any number of threads, one action per shared access |
| `HandleRadix` | the three-level table itself: lookup, growth, destruction |
| `FastLock`, `FastLockSafety`, `FastLockRuns`, `FastLockCalls` | the reader/writer lock in one 32-bit word with two semaphores |
| `FilePoolBlocks`, `FilePoolLists`, `FilePool`, `ViewCache` | the segment allocator of `filepool.c` and its cache of mapped views |
| `PowersOfTwo`, `HashChains`, `Hashtable` | the hashtable of `basesup.c`, chains and free list in one array |
| `Unicode`, `UnicodeDecoder`, `UnicodeConvert` | encoder, incremental decoder and two-pass conversions |
| `Md5Rounds`, `Md5Words`, `Md5`, `Md5Known` | the MD5 transform as written out, the streaming context, and known digests |
| `IntegerText`, `FormatText`, `Formatter` | digit tables, integer parsing, and formatting into growing and fixed buffers |
| `Callback`, `CallbackRuns`, `CallbackCalls` | callback registration under any number of threads |
| `DataRuns` | the decoder of NTFS run lists |
| `Listings`, `Chains` | lists without repetition and chains through a next field, used by several of the above |

How the models are built:

- Objects that the program changes in place are objects here, changed by methods. A ghost value (a
  tree shape, a set of live spans, books of where every entry is, the message so far) is tied to the
  fields by a validity predicate, and every method says what becomes of that value.
- The three protocols are state machines. A run is any sequence of actions of any threads, each
  enabled where it happens; the theorems are about every state of every run. What a call was for is
  read off the actions alone, and what it comes to is proved against that: a call returns only with
  what it was for, and does return when no other thread acts in between.
- Codecs are functions with methods proved against them; each has an inverse, a standard or an
  independent definition it is proved to agree with.

Where the code does less than it promises, the exact condition is proved:

- A size close to 2^32 makes the block count of a file pool allocation wrap (`FilePool.EnoughBlocks`),
  for some sizes to no blocks at all (`FilePool.NoBlocks`), and then the header of a live span may be
  overwritten (`FilePool.Pool.AllocateBytes`).
- The size of a file pool is computed in 32 bits, so it can only grow below 4 GB
  (`FilePool.GrowthFits`).
- A hashtable cannot have more than 2^31 buckets (`PowersOfTwo.NoBuckets`).
- The span reserved for a segment header leaves out the block header in front of it, which matters
  for segments below 2^18 bytes (`FilePool.SegmentHeaderFits`).
- A printed number whose first digit looks like a sign is not read back (`IntegerText.PrintedParses`,
  `IntegerText.PlusLost`).
- UTF-16 text that ends in a high surrogate, or has one before a low surrogate, is not read back as
  the code points it was made from (`Unicode.RoundTrip`, `Unicode.SurrogatesLost`).
- A decoder that is fed without being drained can raise an exception
  (`UnicodeDecoder.Decoder.Decode`, `UnicodeDecoder.Overfull`); the conversion loops never make it do so.

## Model

| member | source | states |
|---|---|---|
| `AvlRotate.RotateLeft` | HsCore/phlib/collect.c:109-153 | the slot of the owner, both rotated nodes and the moved child get exactly the pointers of a left turn; no other node changes |
| `AvlRotate.RotateRight` | HsCore/phlib/collect.c:224-268 | the mirror image |
| `AvlRotate.RotateLeftTwice` | HsCore/phlib/collect.c:155-222 | one pass of stores that no other node sees; the new links of the three nodes and the two moved children |
| `AvlRotate.RotateRightTwice` | HsCore/phlib/collect.c:270-337 | the mirror image |
| `AvlRotate.TwiceIsTwoTurns` | HsCore/phlib/collect.c:155-222 | the stores of a double rotation make the memory that two single turns make, one after the other |
| `AvlRotate.Turned` | HsCore/phlib/collect.c:109-153 | a turn makes a well-linked subtree of the other shape out of a well-linked one |
| `AvlRotate.TurnedTwice` | HsCore/phlib/collect.c:155-222 | so does a double turn |
| `AvlBalance.OnceWeighed` | HsCore/phlib/collect.c:339-481 | the balances stored after a single rotation are again right height minus left height, and the height is one less or, in the special case, the same |
| `AvlBalance.TwiceWeighed` | HsCore/phlib/collect.c:339-481 | after a double rotation all three balances are exact, in each of the three cases of the middle node |
| `AvlBalance.Rebalance` | HsCore/phlib/collect.c:339-481 | a subtree that leans by two becomes a well-linked, exactly weighed one with the same elements in the same order, its height one less or (only on removal) the same, as the result tells |
| `AvlTree.Tree.constructor` | HsCore/phlib/collect.c:31-43 | the empty tree behind its sentinel |
| `AvlTree.Tree.FindPosition` | HsCore/phlib/collect.c:52-107 | ends at the equal element, or at the one place where the key belongs, next to an in-order neighbour |
| `AvlTree.TraceGrown` | HsCore/phlib/collect.c:518-564 | walking up after an insertion restores exact balances, with at most one rebalance |
| `AvlTree.Tree.Add` | HsCore/phlib/collect.c:492-569 | an equal element is returned and nothing changes, the rejected element included; otherwise exactly the new element joins the order at one place, links and balances stay exact, and there is at most one rebalance |
| `AvlTree.SortedInsert` | HsCore/phlib/collect.c:492-569 | the order stays strictly ascending |
| `AvlRemove.Unlink` | HsCore/phlib/collect.c:607-629 | taking out a node with at most one child leaves links exact and the path one lower on its side |
| `AvlRemove.TraceShrunk` | HsCore/phlib/collect.c:631-676 | walking up after a removal restores exact balances however often it has to rebalance |
| `AvlRemove.Replace` | HsCore/phlib/collect.c:678-693 | the neighbour takes over parent, children and balance of the removed node, wherever rotations have moved that one |
| `AvlRemove.Choose` | HsCore/phlib/collect.c:588-605 | a node with two children is replaced by an in-order neighbour with at most one child, from the side that is not the lower one |
| `AvlRemove.RemoveElement` | HsCore/phlib/collect.c:577-696 | the tree is again an exact AVL tree over the old elements minus that one, in the old order, the count one less |
| `AvlWalk.Successor` | HsCore/phlib/collect.c:806-838 | the next element in order, null exactly for the last: the climb stops at the sentinel |
| `AvlWalk.Predecessor` | HsCore/phlib/collect.c:848-883 | the element before in order, null exactly for the first |
| `AvlWalk.NextPrevious` | HsCore/phlib/collect.c:806-883 | the two are inverse to each other on every order |
| `AvlFind.FindElement` | HsCore/phlib/collect.c:706-720 | an element with the key, null exactly if there is none |
| `AvlFind.FindNearest` | HsCore/phlib/collect.c:731-748 | the inexact search ends at an in-order neighbour of where the key belongs, and the result tells on which side |
| `AvlFind.FindContaining` | HsCore/phlib/filepool.c:1027-1073 | the range that contains the address, null exactly if no range does, found in the tree as a scan over disjoint ranges would |
| `AvlFind.OnlyLastBase` | HsCore/phlib/filepool.c:1027-1073 | if any range holds the address, the last one that starts at or below it does |
| `AvlEnum.FewestInOrder` | HsCore/phlib/collect.c:901-904 | an AVL tree has at least as many elements as the Fibonacci bound for its height says |
| `AvlEnum.HeightBound` | HsCore/phlib/collect.c:901-904 | a tree of at most 2^32 elements has height at most 45, so 47 slots are enough |
| `AvlEnum.FewestAt46` | HsCore/phlib/collect.c:901-904 | the bound at heights 45 and 46, around 2^32 |
| `AvlEnum.PushAll` | HsCore/phlib/collect.c:906-965 | going down one side stacks subtrees so that what is still to be told stays the same, inside the fixed stack |
| `AvlEnum.Enumerate` | HsCore/phlib/collect.c:894-965 | the callback is told every element exactly once in ascending or descending order, until the first time it says stop |
| `AvlEnum.ListingIsInOrder` | HsCore/phlib/collect.c:894-965 | the ascending listing is the in-order sequence, the descending one its reverse |
| `HandleRuns.NoAba` | HsCore/phlib/handle.c:538-594 | in every interleaving a successful pop takes the head of the main list, which no client holds, and installs its true successor |
| `HandleRuns.HandlesPartitioned` | HsCore/phlib/handle.c:477-1012 | in every reachable state the two free lists, the chains in hand, the handles of clients and those being freed divide all handles; what is in hand is what the owner of the table lock reaches from its own variables; no handle is out twice; nothing outside the table is touched |
| `HandleSteps.TrueSuccessor` | HsCore/phlib/handle.c:538-575 | the argument of the comment: a thread that holds the stripe lock of the head and has read its next entry has the next entry the list has now |
| `HandleSteps.HandleTaken` | HsCore/phlib/handle.c:564-588 | the pop keeps the invariant |
| `HandleSteps.ChainDetached` | HsCore/phlib/handle.c:933-952 | exchanging the alternate chain for an empty one keeps it |
| `HandleSafety.LockPassed` | HsCore/phlib/handle.c:935-941 | so does every stripe lock taken and released before a detached chain is delivered |
| `HandleSteps.LinkTurned` | HsCore/phlib/handle.c:957-981 | reversing a detached chain link by link keeps it |
| `HandleSteps.ChainDelivered` | HsCore/phlib/handle.c:943-1000 | so does pushing it on the main list, reversed or not |
| `HandleSteps.TableGrown` | HsCore/phlib/handle.c:826-853 | so does the push of a new batch of entries |
| `HandleSteps.LinkStored` | HsCore/phlib/handle.c:614-639 | so does storing the next entry of a handle that is being freed |
| `HandleSteps.HandleReturned` | HsCore/phlib/handle.c:614-639 | so does the compare-exchange that returns it to the list chosen for it |
| `HandleRuns.ActionKeeps` | HsCore/phlib/handle.c:477-1012 | every action of every thread keeps the invariant |
| `HandleRuns.Reached` | HsCore/phlib/handle.c:477-1012 | every state of every run has it |
| `HandleGiveUp.GivesUp` | HsCore/phlib/handle.c:500-534 | an allocation returns without a handle only if it has, since it last went for the table lock, found the main list empty under it, taken the alternate list, put all of it on the main list in the order in which the handles were freed, and failed to get a new table; and the main list is empty again |
| `HandleGiveUp.Won` | HsCore/phlib/handle.c:582-594 | an allocation that returns with a handle has itself taken it from the head of the main list, when nobody held it, and done nothing since |
| `HandleGiveUp.ReturnsHow` | HsCore/phlib/handle.c:477-639 | these are the only ways in which an allocation ends, and a free ends with the handle at the head of a list |
| `HandleAlone.AllocatesAlone` | HsCore/phlib/handle.c:477-594 | with nobody inside a lock and nobody acting in between, an allocation gets a handle that was free if and only if one is on either list or a new table fits; a table with room then grows exactly if no handle is free or, when it is strict, if the free ones are fewer than 64 and all on the alternate list |
| `HandleAlone.ServesAlone` | HsCore/phlib/handle.c:477-594 | so it is in every state of every run |
| `HandleAlone.RetriesAlone` | HsCore/phlib/handle.c:573-577 | a thread that has lost the head of the list to another one starts again and comes to the same |
| `HandleAlone.Returns` | HsCore/phlib/handle.c:586-594 | one that has got a handle returns with it, and with no other |
| `HandleAlone.FreesAlone` | HsCore/phlib/handle.c:596-639 | with nobody acting in between, a freed handle goes to the head of the main list, and to that of the alternate list exactly if the table is strict or its lock is held |
| `HandleRadix.HandleTable.constructor` | HsCore/phlib/handle.c:45-94 | one level 0 table of fresh entries, each value naming the free entry that is linked to the next |
| `HandleRadix.HandleTable.Lookup` | HsCore/phlib/handle.c:858-910 | the entry a value names at level 0, 1 or 2, inside a table of the handle table; none exactly for values at or above NextValue |
| `HandleRadix.HandleTable.AllocateMore` | HsCore/phlib/handle.c:641-824 | across every change of level each old value names the same entry, each of the 256 new values names an entry of a fresh table that is free and linked to the one of the next value, and growth fails exactly when the table is full |
| `HandleRadix.HandleTable.DifferentEntries` | HsCore/phlib/handle.c:858-910 | different values name different entries |
| `HandleRadix.HandleTable.EntryNamed` | HsCore/phlib/handle.c:858-910 | every entry of every level 0 table is named by a value, its place in the order of all entries |
| `HandleRadix.CreateLevel0` | HsCore/phlib/handle.c:1014-1054 | a table of free entries, each with the number of the next |
| `HandleRadix.HandleTable.Destroy` | HsCore/phlib/handle.c:96-164 | stopping at the first null of each level still gives back every table of every level, each exactly once |
| `FastLockRuns.MutualExclusion` | HsCore/phlib/fastlock.c:112-378 | with at most 1023 threads there is never another owner beside an exclusive one |
| `FastLockCalls.CallsServed` | HsCore/phlib/fastlock.c:112-378 | in every run every thread is in the code of what it was last called for, told from the calls alone; an acquisition that may wait never comes back without the lock |
| `FastLockCalls.OwnedAsAsked` | HsCore/phlib/fastlock.c:112-378 | whoever owns the lock has asked for it, and owns it exclusively if and only if that was the request |
| `FastLockCalls.RequestsExclude` | HsCore/phlib/fastlock.c:112-378 | while a thread that asked for exclusive ownership has it, no other thread owns the lock, whatever it asked for |
| `FastLockCalls.TryExclusiveSucceeds` | HsCore/phlib/fastlock.c:329-345 | trying for exclusive ownership, with nobody in between, succeeds if and only if nobody owns the lock and no waiter has been handed it |
| `FastLockCalls.TrySharedSucceeds` | HsCore/phlib/fastlock.c:347-378 | trying for shared ownership succeeds if and only if nobody owns the lock exclusively, waits to, or has been handed it |
| `FastLockCalls.AcquireAlone` | HsCore/phlib/fastlock.c:112-234 | an acquisition of a lock that can be had takes it in three steps when nobody is in between |
| `FastLockCalls.BlocksAlone` | HsCore/phlib/fastlock.c:145-153 | one that cannot be had ends, after spinning, on the semaphore |
| `FastLockCalls.WokenAlone` | HsCore/phlib/fastlock.c:149-163 | a woken exclusive waiter owns the lock after three steps, a woken shared one starts again |
| `FastLockCalls.ReleaseAlone` | HsCore/phlib/fastlock.c:236-327 | giving the lock back takes three steps, and one more for the token of whoever must be woken |
| `FastLockRuns.WordIsExact` | HsCore/phlib/fastlock.c:36-53 | the word is the packing of what the threads add up to, with no carry between fields; OWNED and EXCLUSIVE_WAKING never stand together, and one of them is set while anyone is registered as waiting; waiter fields, tokens and threads due to be woken add up to the threads that are blocked; no semaphore is used before it exists |
| `FastLockRuns.NoLostWakeUp` | HsCore/phlib/fastlock.c:135-163 | when every thread is idle or blocked and one is blocked, some blocked thread finds a token |
| `FastLockRuns.ActionKeeps` | HsCore/phlib/fastlock.c:112-378 | every load, compare-exchange, semaphore wait and release keeps the invariant |
| `FastLockRuns.Reached` | HsCore/phlib/fastlock.c:112-378 | every state of every run has it |
| `FastLockRuns.ExclusiveDropKeeps` | HsCore/phlib/fastlock.c:236-280 | the compare-exchange that gives up exclusive ownership keeps the invariant, whether it hands over to an exclusive waiter, to all shared ones or to nobody |
| `FastLockRuns.SharedDropKeeps` | HsCore/phlib/fastlock.c:282-327 | so does the one that gives up shared ownership, of the last owner with waiters or of another |
| `FastLockRuns.JoinKeeps` | HsCore/phlib/fastlock.c:196-206 | so does the one by which a shared owner joins others |
| `FastLockSafety.Unpacked` | HsCore/phlib/fastlock.c:36-53 | the five fields of a packed word are the five numbers that were packed |
| `FilePoolBlocks.TakenOk` | HsCore/phlib/filepool.c:1262-1297 | taking a clear run keeps the count of free blocks equal to the clear bits and the live spans disjoint and equal to the set bits |
| `FilePoolBlocks.GivenOk` | HsCore/phlib/filepool.c:1307-1325 | giving back a live span keeps both and removes exactly that span |
| `FilePoolBlocks.ZeroedOk` | HsCore/phlib/filepool.c:1289-1296 | recording a span of no blocks keeps the spans exact if and only if no live span begins at that block |
| `FilePoolBlocks.ClearBitsFilled` | HsCore/phlib/filepool.c:1262-1325 | filling a run changes the number of clear bits by exactly its length |
| `FilePoolLists.ListIndexIs` | HsCore/phlib/filepool.c:1333-1374 | the binary tree of comparisons finds the first of eight lists whose least number of free blocks is not above the number given |
| `FilePoolLists.ListIndexFalls` | HsCore/phlib/filepool.c:1333-1374 | fewer free blocks never mean an earlier list, so no list before that of a request has a segment it needs |
| `FilePoolLists.FiledInsert` | HsCore/phlib/filepool.c:1384-1421 | insertion keeps every doubly linked list well formed and every segment on exactly the list it is filed under |
| `FilePoolLists.FiledRemove` | HsCore/phlib/filepool.c:1431-1493 | so does removal, from the front, the middle or the end |
| `FilePool.Pool.constructor` | HsCore/phlib/filepool.c:196-234 | a pool whose first segment holds the file header and the segment header |
| `FilePool.Pool.AllocateSegment` | HsCore/phlib/filepool.c:850-875 | while the file stays below 4 GB, a new segment holds its header span and is on the first list |
| `FilePool.Pool.Relist` | HsCore/phlib/filepool.c:489-499 | afterwards the segment is on the list its free blocks belong to |
| `FilePool.Pool.AllocateFromLists` | HsCore/phlib/filepool.c:444-470 | finds a segment with a long enough clear run exactly if one exists |
| `FilePool.Pool.Allocate` | HsCore/phlib/filepool.c:419-507 | a span is taken from an existing segment if any has a long enough clear run, only otherwise from a new one, and its address leads back to it; no live span changes; too large requests change nothing; a request of no blocks keeps everything exact if and only if the block found begins no live span |
| `FilePool.Pool.AllocateBytes` | HsCore/phlib/filepool.c:419-507 | the same for any size in bytes, the block header included: all is exact for certain when the number of blocks is not 0 |
| `FilePool.Pool.Free` | HsCore/phlib/filepool.c:517-539 | exactly the freed span is gone; counts, spans and lists are exact again |
| `FilePool.EnoughBlocks` | HsCore/phlib/filepool.c:435-436 | the computed number of blocks holds header and data if and only if the 32-bit sum does not wrap |
| `FilePool.FewestBlocks` | HsCore/phlib/filepool.c:435-436 | and then it is the least number that does |
| `FilePool.WrapExample` | HsCore/phlib/filepool.c:435-436 | a request of nearly 2^32 bytes for which it does wrap |
| `FilePool.NoBlocks` | HsCore/phlib/filepool.c:435-436 | the sizes for which the number of blocks is 0: those from 2^32 - 7 less the block size up to 2^32 - 8 |
| `FilePool.GrowthFits` | HsCore/phlib/filepool.c:862 | the 32-bit size to which the file is extended covers one more segment if and only if it is below 2^32 |
| `FilePool.OffsetsRepeat` | HsCore/phlib/filepool.c:1085 | from 2^32 on the 32-bit offsets of segments repeat |
| `FilePool.GrowthExample` | HsCore/phlib/filepool.c:862 | with segments of 2^16 bytes the 65536th makes the size 0, and the next would lie on the first |
| `FilePool.Pool.SpanAddressed` | HsCore/phlib/filepool.c:500-503 | the relative address of every span leads back to its segment and offset |
| `FilePool.SegmentHeaderFits` | HsCore/phlib/filepool.c:196-197 | the span reserved for the segment header also has room for the block header in front of it exactly from 2^18 bytes a segment on |
| `FilePool.RvaDecodes` | HsCore/phlib/filepool.c:1517-1553 | decoding undoes encoding for every segment and offset in the pool |
| `FilePool.RvaEncodes` | HsCore/phlib/filepool.c:1517-1553 | a relative address is accepted if and only if it lies inside the segments, and encoding then undoes decoding |
| `ViewCache.Views.FindByIndex` | HsCore/phlib/filepool.c:960-989 | the one view of the segment, exactly if it is mapped |
| `ViewCache.Views.FindByBase` | HsCore/phlib/filepool.c:1027-1073 | the view whose range contains the address, exactly if there is one, found in the AVL tree as a linear scan would |
| `ViewCache.Views.CreateView` | HsCore/phlib/filepool.c:1075-1100 | the buckets and the AVL tree gain exactly the new view, referenced once |
| `ViewCache.Views.DestroyView` | HsCore/phlib/filepool.c:1102-1112 | the buckets and the AVL tree lose exactly the view |
| `ViewCache.Views.DeactivateView` | HsCore/phlib/filepool.c:1123-1144 | the view joins the inactive list; beyond the maximum exactly the views inactive longest are unmapped, never a referenced one |
| `ViewCache.Views.Evict` | HsCore/phlib/filepool.c:1132-1143 | the view inactive longest leaves the list and both indexes |
| `ViewCache.Views.ActivateView` | HsCore/phlib/filepool.c:1114-1121 | the view leaves the inactive list, the rest keeps its order |
| `ViewCache.Views.ReferenceView` | HsCore/phlib/filepool.c:1146-1158 | a view is on the inactive list exactly while its count is 0 |
| `ViewCache.Views.DereferenceView` | HsCore/phlib/filepool.c:1160-1172 | the last reference makes the view inactive, or raises an exception exactly for the first segment |
| `ViewCache.Views.ReferenceSegment` | HsCore/phlib/filepool.c:1174-1204 | a mapped segment keeps its one view, an unmapped one gets a view |
| `Hashtable.Hashtable.constructor` | HsCore/phlib/basesup.c:4495-4529 | an empty table whose number of buckets is the least power of two that is not below the capacity; it stays a power of two |
| `PowersOfTwo.NoBuckets` | HsCore/phlib/basesup.c:5336-5349 | rounding a capacity up to a power of two in 32 bits gives 0 if and only if the capacity is above 2^31 |
| `Hashtable.HashValidated` | HsCore/phlib/basesup.c:4444-4449 | hash codes keep their low 31 bits, so that none is that of an unused entry |
| `Hashtable.Hashtable.Find` | HsCore/phlib/basesup.c:4790-4814 | finds the stored element equal under the compare function, exactly if there is one |
| `Hashtable.Hashtable.Resize` | HsCore/phlib/basesup.c:4542-4582 | the contents stay the same; every live entry is in the bucket of its hash in the larger table, the free list untouched |
| `Hashtable.Hashtable.Add` | HsCore/phlib/basesup.c:4584-4652 | adds exactly the element unless an equal one is there, which is then returned; the buckets are doubled exactly when there was no room |
| `Hashtable.Hashtable.Remove` | HsCore/phlib/basesup.c:4830-4874 | removes exactly the equal element, if there is one |
| `Hashtable.Hashtable.Clear` | HsCore/phlib/basesup.c:4717-4728 | the empty set |
| `Hashtable.Hashtable.Enumerate` | HsCore/phlib/basesup.c:4751-4771 | every live element exactly once |
| `Hashtable.Hashtable.Next` | HsCore/phlib/basesup.c:4751-4771 | the next live entry at or after the key, none exactly if there is none |
| `Hashtable.ListingIsContents` | HsCore/phlib/basesup.c:4751-4771 | the listing of live entries has every element of the set and none twice |
| `Hashtable.ListingSize` | HsCore/phlib/basesup.c:4495-4529 | its length is Count |
| `HashChains.FreeTaken` | HsCore/phlib/basesup.c:4617-4623 | moving an entry from the free list to a bucket keeps chains and free list acyclic and every used slot in exactly one of them |
| `HashChains.NextTaken` | HsCore/phlib/basesup.c:4624-4637 | so does using the next unused slot |
| `HashChains.Dropped` | HsCore/phlib/basesup.c:4851-4859 | so does taking an entry out of its bucket, from any place in the chain |
| `HashChains.Returned` | HsCore/phlib/basesup.c:4861-4865 | so does putting it on the free list |
| `Unicode.PointIffEncoded8` | HsCore/phlib/basesup.c:2608-2746 | UTF-8: a code point is decoded from the front of a stream exactly when the stream starts with its encoding (section 3 of RFC 3629), so no overlong form is accepted |
| `Unicode.PartialIffPrefix8` | HsCore/phlib/basesup.c:2608-2746 | the decoder waits exactly while the units can still become an encoding |
| `Unicode.FoundAt` | HsCore/phlib/basesup.c:2608-2783 | an error is found at the first unit after which the units can become nothing |
| `Unicode.StreamAppend` | HsCore/phlib/basesup.c:2597-2792 | what a stream says can be decoded as it arrives |
| `Unicode.RoundTrip` | HsCore/phlib/basesup.c:2597-2888 | decoding an encoded sequence returns it always in UTF-8 and UTF-32, and in UTF-16 (section 2 of RFC 2781) if and only if no high surrogate is last or before a low surrogate |
| `Unicode.SurrogatesLost` | HsCore/phlib/basesup.c:2747-2783 | a high surrogate alone is waited on for ever; one before a low surrogate is read with it as one code point |
| `Unicode.ScalarValuesReturn` | HsCore/phlib/basesup.c:2597-2888 | every sequence of scalar values comes back in every encoding |
| `Unicode.PointsBound` | HsCore/phlib/basesup.c:2597-2792 | every code point a decoder reports can be encoded again |
| `Unicode.TextsSort` | HsCore/phlib/basesup.c:2794-2888 | UTF-8 texts sort as their code points do (section 1 of RFC 3629) |
| `Unicode.UnitBits` | HsCore/phlib/basesup.c:2794-2888 | how many bytes a code point has in UTF-8, and the bits they hold (section 3 of RFC 3629) |
| `Unicode.SurrogatePairs` | HsCore/phlib/basesup.c:2794-2888 | one unit for the first plane, and a high and a low surrogate with ten bits each for the others (section 2.1 of RFC 2781) |
| `Unicode.Examples` | HsCore/phlib/basesup.c:2794-2888 | examples of section 7 of RFC 3629 and section 4 of RFC 2781 |
| `Unicode.PartialIsShort` | HsCore/phlib/basesup.c:2480-2508 | the units a decoder is waiting on always leave room in the queue |
| `UnicodeDecoder.Decoder.Write` | HsCore/phlib/basesup.c:2480-2508 | appends the unit to the stream, refused exactly when the queue is full (4, 2 or 1 units) |
| `UnicodeDecoder.Decoder.Turn8` | HsCore/phlib/basesup.c:2578-2746 | each state of the UTF-8 machine either takes the unit or reports the front of the stream |
| `UnicodeDecoder.Decoder.Turn16` | HsCore/phlib/basesup.c:2747-2783 | the same for UTF-16 |
| `UnicodeDecoder.Decoder.Decode` | HsCore/phlib/basesup.c:2597-2792 | one call reports the front of the pending stream and takes it off, or leaves the stream alone and the queue empty; it raises an exception exactly when units to be put back do not fit |
| `UnicodeDecoder.Overfull` | HsCore/phlib/basesup.c:2544-2595 | a decoder that raises: three units of a sequence taken, four more queued, the first of them wrong |
| `UnicodeConvert.NextPoint` | HsCore/phlib/basesup.c:3125-3140 | in a loop that decodes after every unit, no call raises |
| `UnicodeConvert.Size` | HsCore/phlib/basesup.c:3107-3145 | counts exactly the bytes of the converted text and always succeeds |
| `UnicodeConvert.UnitsAreBytes` | HsCore/phlib/basesup.c:3107-3145 | the unit of each encoding has as many values as its bytes |
| `UnicodeConvert.Buffer` | HsCore/phlib/basesup.c:3147-3211 | succeeds exactly when the converted text fits, then writes exactly it and leaves the rest of the buffer; the size is told in any case |
| `UnicodeConvert.Convert` | HsCore/phlib/basesup.c:3223-3250 | the two passes agree: any text is converted, to exactly the converted text |
| `UnicodeConvert.ConversionKeepsPoints` | HsCore/phlib/basesup.c:3107-3409 | converting encoded code points gives the same code points encoded the other way if and only if decoding returns them |
| `Md5Rounds.UnrolledTransform` | HsCore/phlib/md5.c:144-225 | the 64 unrolled steps compute the transform that section 3.4 of RFC 1321 generates by its schedule, for any word operations |
| `Md5Rounds.RoundOne` | HsCore/phlib/md5.c:153-168 | steps 1 to 16 are operations 0 to 15 of the schedule |
| `Md5Rounds.RoundTwo` | HsCore/phlib/md5.c:170-185 | steps 17 to 32 are operations 16 to 31 |
| `Md5Rounds.RoundThree` | HsCore/phlib/md5.c:187-202 | steps 33 to 48 are operations 32 to 47 |
| `Md5Rounds.RoundFour` | HsCore/phlib/md5.c:204-219 | steps 49 to 64 are operations 48 to 63 |
| `Md5Words.SelectAgrees` | HsCore/phlib/md5.c:127-131 | the shortened first function is the one of the standard on all words |
| `Md5Words.MajorAgrees` | HsCore/phlib/md5.c:132 | so is the second, made from the first |
| `Md5Words.OperationsAgree` | HsCore/phlib/md5.c:127-225 | so both transforms agree after any number of operations |
| `Md5Words.TransformBlock` | HsCore/phlib/md5.c:144-225 | the program's transform of a block is the transform of the standard |
| `Md5.Context.constructor` | HsCore/phlib/md5.c:21-32 | the context of the empty message |
| `Md5.Context.Update` | HsCore/phlib/md5.c:38-82 | the context of the message so far followed by the input, for any split into pieces |
| `Md5.CounterAdds` | HsCore/phlib/md5.c:47-54 | the two-word counter with its carry is the bit length modulo 2^64 |
| `Md5.CounterTellsFill` | HsCore/phlib/md5.c:56 | the low word tells how much of the block is filled |
| `Md5.LastBlocks` | HsCore/phlib/md5.c:88-125 | processing the one or two last blocks is processing the padding of sections 3.1 and 3.2 of RFC 1321 |
| `Md5.CounterBytes` | HsCore/phlib/md5.c:119-121 | the two words stored in the block are the eight bytes of the length, low byte first |
| `Md5.Context.Final` | HsCore/phlib/md5.c:88-125 | the digest of the whole message as the standard defines it |
| `Md5.DigestOfPieces` | HsCore/phlib/md5.c:21-125 | whatever the pieces, the digest is that of the joined message |
| `Md5Known.InitialBytes` | HsCore/phlib/md5.c:25-28 | the registers start as the sixteen bytes that section 3.3 of RFC 1321 lists |
| `Md5Known.EmptyDigest` | HsCore/phlib/md5.c:21-225 | the digest of the empty message is the one listed in section A.5 of RFC 1321, worked out through all 64 operations |
| `Md5Known.AbcDigest` | HsCore/phlib/md5.c:21-225 | so is that of the message abc |
| `IntegerText.TablesAgree` | HsCore/phlib/data.c:58-98 | a character has a digit value exactly when it is the character of that digit, in either case of letter |
| `IntegerText.DigitPlaces` | HsCore/phlib/data.c:83-98 | figures, then letters in the case asked for, then the rest of the printable characters in their order |
| `IntegerText.ParseMagnitude` | HsCore/phlib/basesup.c:5489-5518 | the value of the digits modulo 2^64; valid exactly if every character is a digit of the base |
| `IntegerText.Parse` | HsCore/phlib/basesup.c:5544-5625 | sign, prefix and digits as documented; refused exactly for bases above 69 |
| `IntegerText.MagnitudeReturns` | HsCore/phlib/basesup.c:5489-5518 | every 64-bit number printed in any base from 2 to 69 is read back |
| `IntegerText.PrintedParses` | HsCore/phlib/basesup.c:5544-5665 | printing and parsing returns a number if and only if its text has a minus sign in front or its first digit is neither 47 nor 49 |
| `IntegerText.PlusLost` | HsCore/phlib/basesup.c:5544-5665 | 47 in base 48 is printed as a plus sign and read as 0 |
| `IntegerText.MinusLost` | HsCore/phlib/basesup.c:5544-5665 | 2451 in base 50 is printed with a minus sign in front and not read back |
| `IntegerText.LowBasesReturn` | HsCore/phlib/basesup.c:5544-5665 | so every signed (the minimum included) and unsigned number returns in the bases 2 to 47 and the default base |
| `IntegerText.PrefixReads` | HsCore/phlib/basesup.c:5530-5611 | with no base given, digits behind one of the seven documented prefixes, in either case, are read in its base, with or without a minus sign |
| `IntegerText.NoPrefixReads` | HsCore/phlib/basesup.c:5528-5541 | text without one of these prefixes is read as in base 10 |
| `IntegerText.DecimalReads` | HsCore/phlib/basesup.c:5528-5541 | so a number printed in base 10 is read back |
| `IntegerText.LowByteCounts` | HsCore/phlib/basesup.c:5496-5516 | only the low byte of a character decides its digit |
| `IntegerText.NoCoincidence` | HsCore/phlib/basesup.c:5544-5625 | a number that loses its first digit to a sign never comes out right by wrap-around |
| `IntegerText.ValueOfDigits` | HsCore/phlib/format_i.h:136-142 | the digits of a number have its value |
| `FormatText.BuiltIsGrouped` | HsCore/phlib/format_i.h:163-187 | counting digits from the right puts a separator before every third one and none in front |
| `FormatText.BuiltLength` | HsCore/phlib/format_i.h:144-193 | the text of a 64-bit number, separators included, stays far inside the 512 characters |
| `FormatText.GroupedAt` | HsCore/phlib/format_i.h:163-187 | counted from the right every fourth character of a grouped number is the separator, and the others are the digits in order |
| `FormatText.AlignedShape` | HsCore/phlib/format_i.h:533-578 | a part is as wide as asked for or as it is, filled behind for left and in front for right alignment, with spaces unless another character is given |
| `FormatText.IntegerReads` | HsCore/phlib/format_i.h:136-234 | an integer that is not grouped, with whatever sign and zeros in front, is read back in its radix unless its first digit looks like a sign; with zero padding it has the width asked for |
| `FormatText.PlainPrints` | HsCore/phlib/basesup.c:5642-5665 | without flags the text is sign and digits |
| `Formatter.PrintDigits` | HsCore/phlib/format_i.h:136-193 | the temporary buffer ends with the text of the number in its radix, case and grouping |
| `Formatter.Output.Ensure` | HsCore/phlib/format.c:78-101 | there is room and everything so far is kept, or from now on nothing is written |
| `Formatter.Output.PutInteger` | HsCore/phlib/format_i.h:195-234 | sign, zeros up to the width, digits |
| `Formatter.Output.Align` | HsCore/phlib/format_i.h:533-578 | the part is filled up to its width on the other side, never cut |
| `Formatter.Output.PutAll` | HsCore/phlib/format_i.h:49-580 | the text is the texts of all formats in order |
| `Formatter.Format` | HsCore/phlib/format.c:111-160 | the string is that text however often the buffer has grown |
| `Formatter.FormatToBuffer` | HsCore/phlib/format.c:181-230 | the length told is that of the text and its null character whatever the room; it succeeds exactly when there is so much, and then the buffer holds both; otherwise the buffer starts with a null character |
| `Formatter.IntegerToString` | HsCore/phlib/basesup.c:5642-5665 | the printed number; refused exactly for base 1 and above 69 |
| `CallbackRuns.UnregisteredIsQuiet` | HsCore/phlib/basesup.c:5221-5237 | the step that unlinks an entry leaves no thread executing its function, about to, just done with it, or at the entry, and no other entry has gone |
| `CallbackCalls.Unregistered` | HsCore/phlib/basesup.c:5216-5237 | in every run a call of PhUnregisterCallback returns only after a moment when the entry was out of the list and no thread was executing its function, about to, or at the entry; unless the entry has been registered again, it is still so on return |
| `CallbackCalls.UnregisterAlone` | HsCore/phlib/basesup.c:5221-5237 | with nobody in between and the callback not busy it takes five steps |
| `CallbackCalls.WokenAlone` | HsCore/phlib/basesup.c:5230-5237 | so does one that had waited, once it is woken and the callback is not busy any more |
| `CallbackCalls.Registered` | HsCore/phlib/basesup.c:5181-5197 | a registration returns only after it has put the entry at the end of the list |
| `CallbackCalls.RegisterAlone` | HsCore/phlib/basesup.c:5181-5197 | which takes four steps with nobody in between |
| `CallbackCalls.InvokesAll` | HsCore/phlib/basesup.c:5248-5293 | an invocation that comes to the head of a list that has not changed meanwhile has executed every function of the list once, in order |
| `CallbackCalls.InvokeAlone` | HsCore/phlib/basesup.c:5248-5293 | with nothing being unregistered and nobody in between it comes there in 2 + 8 n steps for n entries and returns in the next |
| `CallbackRuns.QuietLasts` | HsCore/phlib/basesup.c:5221-5293 | an entry that is out of the list with no thread at it stays so until it is registered again |
| `CallbackRuns.LinksAreSound` | HsCore/phlib/basesup.c:5248-5293 | an invoker is only ever at an entry of the list, and the link it follows leads into the list or to its head |
| `CallbackRuns.BusyIsExact` | HsCore/phlib/basesup.c:5266-5287 | the busy counter of a registered callback is the number of threads inside it |
| `CallbackRuns.WaitersAreWoken` | HsCore/phlib/basesup.c:5228-5287 | a thread that waits for a callback waits for a thread inside it, or one about to pulse it has brought the counter down |
| `CallbackRuns.ActionKeeps` | HsCore/phlib/basesup.c:5188-5293 | every step of every thread keeps the invariant |
| `CallbackRuns.Reached` | HsCore/phlib/basesup.c:5188-5293 | every state of every run has it |
| `CallbackRuns.WithoutRemoves` | HsCore/phlib/basesup.c:5234 | unlinking an entry removes it and nothing else |
| `CallbackCalls.WithoutAt` | HsCore/phlib/basesup.c:5234 | and the others keep their order |
| `DataRuns.ListingReturns` | HsCore/HsCore/Ntfs.c:348-400 | reading undoes writing for every list of runs, in any widths that fit |
| `DataRuns.FinishedWasWritten` | HsCore/HsCore/Ntfs.c:348-400 | whatever reads to the end was written so |
| `DataRuns.SignedReturns` | HsCore/HsCore/Ntfs.c:376-386 | a signed distance of 0 to 8 bytes is extended to the number that was written |
| `DataRuns.CopiedSigned` | HsCore/HsCore/Ntfs.c:376-386 | copying over a word of all ones extends the sign |
| `DataRuns.SumCheck` | HsCore/HsCore/Ntfs.c:390-397 | with 64-bit wrap-around the check for a negative sum finds exactly the sums out of range |
| `DataRuns.GetDataRuns` | HsCore/HsCore/Ntfs.c:348-421 | the entries are the running sums and lengths of the runs, in sectors, up to the first run that starts where it may not; the amount check compares with their clusters |
| `DataRuns.WrittenIsRead` | HsCore/HsCore/Ntfs.c:348-421 | a written list is read back whole if and only if every running sum is in range |
| `DataRuns.StartsAreRead` | HsCore/HsCore/Ntfs.c:348-421 | a list of absolute starts, written as differences, is read back as those starts if and only if each is in range |
| `DataRuns.ListExample` | HsCore/HsCore/Ntfs.c:348-400 | a list of two runs byte by byte, the second one backwards |

## Left out

General:

- Allocation and mapping failures, reference counting of objects and object types.
- The memory order of the hardware: every shared access is one atomic action in program order.
- Bit operations are arithmetic (`/`, `%`, sums) except in MD5, where words are bit-vectors.

AVL tree:

- The compare function is a total order given by an integer key in every element; the tree's count is unbounded, while enumeration is for at most 2^32 elements.
- The callback of PhEnumAvlTree is a function of the elements it has been told so far; both orders are one method with a parameter.
- Insertion and removal are split into the phases of the C functions, one method each.
- PhMinimumElementAvlTree and PhMaximumElementAvlTree would only add easy members.

Handle table:

- Queued locks are abstract: taking and releasing one exclusively is one step, and the try variant may fail at any time.
- Accesses to an entry that no other thread can use at that moment are joined with the access next to them.
- The Count field, per-handle locks, enumeration, sweeping and the query functions.
- Growth in the protocol adds a batch of entries in one step under the table lock; how the tables are built is in `HandleRadix`, which is sequential.

Fast lock:

- Spinning is an arbitrary number of reloads; how often is left open.
- That waiting threads get the lock in the end depends on scheduling and is not stated.

File pool:

- FilePool.Pool.AllocateSegment: a file of 4 GB or more, because from there on the 32-bit size no longer covers the new segment (`FilePool.GrowthFits`) and what the system then does with the mapping is not known here; `Room` is the exact bound.
- RtlFindClearBitsAndSet finds any clear run of the length asked for, and any bit when no bits are asked for; the hint is not modelled.
- The contents of blocks, the file header beyond the free lists, user contexts, and views that are referenced by address.
- The view cache keeps the by-base AVL tree of nodes, but the circular lists of the by-index buckets and of the inactive views are sequences, and reference counts are a map. That a mapping does not overlap another is up to the system; only its base must be new.
- Failing to extend or map is one parameter of Allocate.

Hashtable:

- The Next fields are a sequence of their own beside hash codes and bodies; the bucket index is a remainder instead of a mask, which is the same for powers of two.
- Hashtable.Hashtable.Add: growing a table of 2^31 buckets, because doubling wraps to no buckets at all (`PowersOfTwo.NoBuckets`), after which no entry has a bucket.
- Hashtable.Hashtable.constructor: capacities above 2^31, for the same reason.

Unicode:

- A trailing odd byte of UTF-16 input, ASCII and multi-byte conversions, and strings without a length.
- The two pairs of conversion functions are one pair with both encodings as parameters.

MD5:

- Words are read from the block low byte first, as on the machines the program is for.

Numbers and formatting:

- Floating point, sizes, multi-byte strings and the locale; the thousand separator is a parameter.
- Lengths are in characters, not bytes; that sums of lengths stay below the size of memory is taken for granted.
- A missing buffer is one without room.

Callbacks:

- Progress of PhInvokeCallback: it looks at an entry that is being unregistered again and again (`basesup.c:5266`) while it holds the lock that unregistering needs, so only safety holds.
- Inserting and removing an entry are single steps inside the exclusive lock; releasing the lock and queueing on the condition variable is one step, as the condition variable promises.

NTFS:

- Run lists that do not end inside the bytes given: the program would read on, the model stops and says so.
- Printing of messages; everything that reads from a volume.
