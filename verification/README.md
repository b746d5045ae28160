# A Smalltalk-80 virtual machine, verified

This project models the parts of a Smalltalk-80 virtual machine, written in C after Part Four of Goldberg
and Robson's "Smalltalk-80: The Language and its Implementation", whose correctness is hardest to see from
the code, and proves properties of them in Dafny:

- the **object memory**: a heap of sixteen-bit words in fifteen segments, behind an object table whose
  entries carry an eight-bit reference count. Modelled are marking and recursive freeing by pointer
  reversal, storing with reference counts, the free-chunk and free-pointer lists, allocation, compaction,
  the full collection, and the loading and saving of images;
- **BitBlt**: clipping, edge masks, skew, preload, halftone, the sixteen rules, and the direction of copy;
- the **process scheduler**: ready lists, semaphores, the pending transfer and the buffer of asynchronous
  signals;
- **method lookup and frames**: the dictionary probe, the superclass walk, the method cache, and the
  activation of methods and return from them.

`dafny verify dfyconfig.toml` checks all of it.

## How it is built

The classes `ObjectMemory`, `Form`, `BitBlt`, `Scheduler` and `Interpreter` hold the arrays and registers
that the C code changes in place. Their methods follow the C functions step by step and are proved against
specifications on values: `State` is the whole memory as a value, and `Valid()` ties the word array to it,
bit fields included. A `Layout` says what the words mean: the allocated objects, the length of every chunk,
the free-chunk lists and the free-pointer list. `LaidOut` is the invariant that binds a state to a layout;
`Sound` adds exact reference counts, tiled segments and right counters. Most large predicates are folded
behind a quantifier with a trigger of its own (`OpenLayout`, `OpenPacked`, ...), so that a proof unfolds
them only where it says so.

| modules | what they hold |
|---|---|
| `Words`, `Memory` | bit fields of a table entry; the memory and its accessors |
| `Traversal`, `Marking` | the pointer-reversing walk; marking in both forms |
| `RefCounts`, `Freeing`, `StorePointers` | what a count should be; count down and recursive freeing; `storePointer` |
| `Layouts`, `Allocation`, `ChunkAdding` | free lists, deallocation, allocation in a segment, new free chunks |
| `Abandoning`, `Compaction`, `ChunkAllocation` | compaction of a segment; allocation that compacts segment by segment |
| `Accounts`, `ObjectAllocation`, `Soundness`, `MemoryRuns`, `RunCounts` | the counters; new objects; what every operation keeps; whole runs, and a count over a run |
| `Roots`, `Rectify`, `Collection`, `CollectingAllocation` | zero, mark, rectify; allocation that collects |
| `FirstMemory`, `FullMemory`, `CrowdedImage` | an empty memory, a full one, and an image without free entries, for the findings |
| `PointerFields` | which words are followed, and that the interpreter agrees |
| `TableLoading`, `ObjectLoading`, `Packing`, `SnapshotLoading`, `Saving`, `Snapshots` | images: loading, when the objects fit, saving, the round trip |
| `BitWords`, `BitGeometry`, `BitCopy`, `BitBlts` | words as bits, the geometry of a copy, its outcome pixel by pixel, the registers |
| `Schedulers`, `Scheduling`, `Dispatching` | the linked lists and registers; processes as queues, runs of events; who runs and who is ready |
| `Objects`, `Methods`, `Contexts`, `Interpreters` | objects as words; probe and walk; frames; the registers and the cache |
| `CallCounts`, `Activations`, `Agreement` | send and return call by call on the object memory, the count of the caller's context, and that both models of a context agree |

## Findings

Eight promises do not hold of the code as it stands. Each has the exact condition under which it does, and most
an input for which it does not.

- **A full collection may make free chunks overlap.** Rectifying deallocates the old free chunks once more.
  A chunk of 256 words or more that was freed as a pointer object keeps its pointer bit, so it is measured a
  word longer than it is (objectmemory.c:1372-1375, 1464-1478). A layout exists afterwards exactly if every
  such chunk ends right before the spare last word of its segment: `Collection.CollectionFits`, with an input
  in `FirstMemory.CollectionMayOverlap`. The allocator only collects when every segment has been compacted,
  and then the condition holds: `CollectingAllocation.ExhaustedRoomy`.
- **A full collection may leave `freeWords` too high.** The words of the old free chunks are added a second
  time. It is right exactly if there was no free chunk: `Collection.FreeWordsAfterCollection`, with an input
  in `FirstMemory.FreeWordsMayBeHigh`.
- **A class may be counted once too few.** `allocate` counts the class before it looks for a chunk
  (objectmemory.c:1482-1510); if that collects, the count is made up anew without the object to come. The
  counts are right afterwards exactly if, before the call, the class was nil, or referred to by 128 accessible
  fields and counted registers, or by 127 fields of objects that the pass meets before the class itself, while
  the mark counts as one more: `CollectingAllocation.ClassOneShort`. `FullMemory.AllocateInFull` is a call that
  leaves them wrong. (A class that nothing accessible refers to is freed by the collection:
  `CollectingAllocation.Allocate`.)
- **A call may leave the caller's context stuck.** The sender field is counted before the register gives the
  caller up (interpreter.c:931-958, 354-360), so that a caller with 127 references has 128 for a while. Its
  count is unchanged after the return exactly if it was not 127: `CallCounts.CallKeepsCount`.
- **An image with too few free entries is loaded wrong.** Each segment's rest needs an entry for its free
  chunk; when there is none left, nil is put on the list in its place (objectmemory.c:797-806, 2152-2171).
  The memory can be tiled exactly if there are enough: `SnapshotLoading.LoadSnapshot`, with a well-formed and
  rightly counted image that has too few in `CrowdedImage.TooFewEntries`.
- **BitBlt goes wrong within a single word.** For a copy to the right in the same row of one form the masks
  are exchanged even if there is only one word (bitblt.c:650-668). All contents are copied right exactly if
  no exchange happens there or the word is whole: `BitCopy.RightExactlyIfStraight`, with a request in
  `BitBlts.OnePlaceRight`.
- **Resuming may break the lists.** A process that is on a list already, or is running, gets a second link:
  `Scheduling.ResumedSoundExactly`, with a world of two processes in `Scheduling.ResumedTwice`.
- **An empty cache entry answers the selector nil.** If nil is sent to class nil and the entry for them is
  blank, it is taken for a method (interpreter.c:884-914). The registers are as after a search exactly if that
  is not so: `Interpreters.Interpreter.FindNewMethodInClass`.

## Model

| member | source | states |
|---|---|---|
| Marking.MarkObjectsAccessibleFrom | objectmemory.c:1228-1258 | on any graph the pointer-reversing walk ends and leaves the count 1 in exactly the unmarked objects reached from the root through unmarked ones; every other field of the table and every word of every object is as before, the spare word behind huge pointer objects apart |
| Traversal.Descend | objectmemory.c:1850-1866 | reversing a pointer pushes the object and its field on a stack held in the counts, spare words and reversed fields themselves: from the memory and that stack the heap before can be read back |
| Traversal.Retreat | objectmemory.c:1867-1887 | going back pops that stack: the reversed field, and the cursor in the count or the spare word, are found and put back, though the size is read again from a heap that may be reversed |
| Marking.MarkAllRecursively | objectmemory.c:1765-1797 | the recursive form meets the same specification, and writes no word at all |
| Marking.FormsAgree | objectmemory.c:1765-1891 | whatever meets the specification of marking from a root agrees on the whole table, and on all words but the spare ones |
| PointerFields.FollowedExactly | objectmemory.c:1422-1460 | told without the last pointer: marking, counting and freeing follow the class of every object, every word of a pointer object, of a compiled method the header and the literals that six bits of the header number, and nothing else |
| PointerFields.LiteralsFollowed | objectmemory.c:1447-1455 | against the interpreter's own reading of a method: the words followed end right before its first instruction, and they are its header and literals |
| PointerFields.SpaceTaken | objectmemory.c:1464-1478 | in a layout an object takes its size, and one word more exactly if it is a pointer object of 256 words or more |
| Freeing.CountDown | objectmemory.c:1687-1711 | with exact counts, the objects freed are listed each once, each after its last reference has gone, none of them in the set kept; counts of survivors stay exact or stuck, their words stay, the layout holds, and the counters get back what was freed; with an integer or a remaining reference nothing is freed |
| StorePointers.FreedExactly | objectmemory.c:1664-1711 | an object is freed if and only if no set of objects that support one another (stuck, in a register, not yet referred to, or held by the set) has it |
| StorePointers.StorePointer | objectmemory.c:1919-1942 | if the object stays alive without the field, the field has the new value after, every other word of the survivors is as before, counts are exact again, and no register's object is lost |
| Layouts.DeallocateLaidOut | objectmemory.c:1745-1759 | deallocating an object puts its chunk first on the list for its size in its segment, and keeps all lists and the layout |
| Allocation.AttemptToAllocateChunkInCurrentSegment | objectmemory.c:2210-2304 | it gives the first chunk of the list for the size; if there is none, the first big chunk that fits or can be split, whole if it fits, and otherwise split off at its end under the first free entry; and nil exactly if there is no such chunk, or it is to be split and no entry is free. What is given is off every list, and the rest still laid out |
| ChunkAllocation.AttemptToAllocateChunk | objectmemory.c:2176-2206 | a chunk of the current segment is taken with nothing else moved, if it gives one; objects are the same seen through their pointers, whatever was compacted on the way; if nil comes back every segment has at most one chunk left, which is not of the size, and cannot be split unless there was no free entry to begin with |
| Abandoning.AbandonFreeChunksInSegment | objectmemory.c:1155-1200 | every free chunk of the segment is off its list and marked, its entry released, all lists of the segment are empty, and the mark returned is the lowest chunk's place |
| Abandoning.ReverseHeapPointersAbove | objectmemory.c:1111-1152 | exactly the objects at or above the mark have exchanged their size with their entry's location, which now names the object |
| Compaction.SweepCurrentSegmentFrom | objectmemory.c:989-1060 | going through the segment once, every object is moved down over the abandoned chunks in order, its words copied and its entry put right |
| Compaction.CompactCurrentSegment | objectmemory.c:1063-1086 | compaction is not to be seen: every allocated object has its size, class, words and flags through its entry, those below the first hole and in other segments stay in place, address order is kept, one free chunk is left at the top, or none if there was none, and the other chunks' entries are free |
| ObjectAllocation.AllocatedSound | objectmemory.c:1482-1510 | making the chunk an object, counting its class and settling the counters keeps the memory sound |
| CollectingAllocation.AllocateChunk | objectmemory.c:1299-1327 | either a chunk is found at once; or every segment is spent, a collection takes place in a memory for which it is safe, and the chunk is found after it; or nil comes back and every segment is spent again |
| CollectingAllocation.Allocate | objectmemory.c:1482-1510 | without a collection the new object is as asked, the others are kept, and the memory is sound; with one, if the class is accessible, exactly the accessible objects and the new one are left, with their words, and counts are exact but for the reference to the class; a class that is not accessible is not kept |
| CollectingAllocation.ClassOneShort | objectmemory.c:1482-1510 | after an allocation that collected, counts are exact if and only if before it the class was nil, or had 128 references from accessible objects and counted registers, or 127 from objects at entries below its own |
| FullMemory.AllocateInFull | objectmemory.c:1299-1327 | in a sound memory full of objects that nothing refers to, an instance of a class with one reference is allocated after a collection, and the counts are wrong |
| CollectingAllocation.ExhaustedRoomy | objectmemory.c:1299-1327 | when every segment has been compacted in vain, no free chunk can grow into another in the collection |
| Accounts.FreeWordsCounted | objectmemory.c:1299-1327 | freeWords is the number of places of the heap that no allocated object covers |
| Accounts.FreeOopsCounted | objectmemory.c:2073-2083 | freeOops is the number of free entries and of free chunks |
| Soundness.IncreaseReferencesTo | objectmemory.c:2325-2334 | a reference put in a register keeps the memory sound, counted for the register |
| Soundness.DecreaseReferencesTo | objectmemory.c:2337-2346 | a register that gives its reference up keeps the memory sound without it, and frees as the count down does |
| Soundness.SoundCompacted | objectmemory.c:1063-1086 | compaction keeps the memory sound, with the same objects |
| MemoryRuns.RunStaysSound | objectmemory.c:1299-1942 | over every run of references taken and given up, stores, compactions and allocations without a collection, from any sound memory, counts are exact, segments tiled, each free chunk on one list, counters right; an allocation is a chunk found for a class counted, made an object, and settled in the counters |
| MemoryRuns.FetchesLastStored | objectmemory.c:1919-1942 | over every such run an object that stays allocated keeps its size, class and flags, and each field holds what was stored there last, however often it has been moved |
| MemoryRuns.Refers | objectmemory.c:2325-2334 | taking a reference is a step of the runs |
| MemoryRuns.Releases | objectmemory.c:2337-2346 | giving one up is a step of the runs |
| MemoryRuns.Stores | objectmemory.c:1919-1942 | a store is a step of the runs, and frees nothing of the set that does without the field |
| MemoryRuns.Compacts | objectmemory.c:1063-1086 | compaction is a step of the runs |
| MemoryRuns.Allocates | objectmemory.c:1482-1510 | an allocation is a step of the runs unless it collects |
| RunCounts.MakesTotal | objectmemory.c:1687-1942 | in each step the references to an object change by what the step makes, less what it overwrites, gives up, and frees with other objects |
| RunCounts.CountFollows | objectmemory.c:1687-1742 | over every run the count of an object that stays allocated is the number of its references, until 128 at once; from then on it is stuck |
| MemoryRuns.NeverDangling | objectmemory.c:1687-1711 | at any point of such a run, what a register or an allocated object refers to is allocated |
| Roots.ZeroReferenceCounts | objectmemory.c:1405-1416 | every count is zero, nothing else has changed |
| Roots.MarkAccessibleObjects | objectmemory.c:1272-1287 | after all roots the count is 1 in exactly the objects accessible from some root |
| Rectify.RectifyCounts | objectmemory.c:1333-1394 | the one pass counts exactly the references held by marked objects, never counts up a garbage object whatever the order of entries, and deallocates every other chunk once |
| Rectify.PassEnds | objectmemory.c:1333-1394 | after the pass the count of a survivor is its references, or stuck exactly if there are 128, or 127 that were met before the mark was taken off |
| Rectify.FreedTwice | objectmemory.c:1372-1375 | deallocating a free chunk again keeps its length if and only if it is not of 256 words or more with the pointer bit set; otherwise it grows by one |
| Rectify.Overlapped | objectmemory.c:1372-1375 | a stale chunk with more than the spare word behind it is entered so long that it covers a word of the next chunk, and no layout of the survivors fits |
| Rectify.FreeingLeavesStale | objectmemory.c:1745-1759 | freeing an object leaves such a chunk if and only if it was a pointer object of 256 words or more |
| Collection.ReclaimInaccessibleObjects | objectmemory.c:1206-1217 | exactly the objects accessible from the roots are kept, words unchanged, with counts that are their references from survivors and from the registers, stuck exactly where those say; freeOops is the entries without an object, the registers' only objects counted as such |
| Collection.CollectionCompleted | interpreter.c:1362-1370 | the active context and the pending process are counted for their registers |
| Collection.CollectionFits | objectmemory.c:1333-1394 | some layout with exactly the survivors allocated exists after a collection if and only if no stale free chunk had anything but the spare word behind it |
| Collection.CollectedHealthy | objectmemory.c:1333-1394 | then the memory is laid out, tiled, closed and exactly counted again |
| Collection.FreeWordsAfterCollection | objectmemory.c:1333-1394 | how far freeWords is too high after any collection: by the old free chunks and one for each stale one; right if and only if there was no free chunk |
| FirstMemory.FirstSound | objectmemory.c:781-811 | there are sound memories: nil, and free chunks that fill the segments |
| FirstMemory.CollectionMayOverlap | objectmemory.c:1372-1375 | a sound memory after whose collection no layout exists, whatever the roots |
| FirstMemory.FreeWordsMayBeHigh | objectmemory.c:1372-1375 | a sound memory after whose collection freeWords is too high, whatever the roots |
| TableLoading.LoadObjectTable | objectmemory.c:632-687 | the entries are the file's, all others free, the free ones all on one list from the lowest to the highest, and freeOops is the number of entries that have no object |
| SnapshotLoading.LoadObjects | objectmemory.c:691-811 | it succeeds if and only if the objects can be shared out to the segments in their order at all; then all words are in place, apart, each rest of a segment is a free chunk on its list, freeWords is the room left; if entries ran out no layout tiles the memory |
| SnapshotLoading.LoadSnapshot | objectmemory.c:814-826 | the same of table and objects together, for any well-formed file |
| Packing.LoadsIfItCan | objectmemory.c:728-746 | filling each segment until an object does not fit, and never going back, finds room if and only if some way of putting the objects into segments in their order does |
| CrowdedImage.TooFewEntries | objectmemory.c:789-806 | a well-formed, rightly counted image whose objects fit the memory and leave no entries for the free chunks |
| SnapshotLoading.LoadedSound | objectmemory.c:814-826 | the loaded memory is sound if and only if the file's counts were exact or stuck and its references went to its own objects |
| Saving.SaveObjects | objectmemory.c:858-985 | the file is the header, the objects in order padded to a page, and the table up to the last one; and every entry overwritten on the way is as it was |
| Snapshots.SavedInWords | objectmemory.c:858-985 | word by word: the header holds the number of words of the objects and the length of the table, which goes to the last object referred to and begins a page; the objects stand one after the other without a gap from the second page on; each entry has the bits of the memory's and the place of its object, and the others only the free bit |
| Snapshots.SavedWellFormed | objectmemory.c:858-985 | whatever is saved can be loaded, and has exactly the objects that were referred to |
| Snapshots.RoundTrip | objectmemory.c:814-985 | after saving and loading, the same objects have the same count, bits, size, class and words; only their places differ |
| Snapshots.SoundAgain | objectmemory.c:814-985 | a sound memory comes back sound if no object was unreferenced and no register held a count |
| BitBlts.BitBlt.ClipRange | bitblt.c:232-320 | for all integers the rectangle is exactly the pixels whose destination is in the clip and the form and whose source is in the source form; if it is empty there is none |
| BitBlts.BitBlt.ComputeMasks | bitblt.c:542-621 | rasters, skew and number of words are those of the rectangle, and the masks let through its pixels in the first and last word, merged if they are one |
| BitBlts.WordsPerRow | bitblt.c:799-802 | the raster is the least number of words that hold the pixels of a row, and a form has as many rows of it as it is high |
| BitBlts.BitBlt.CheckOverlap | bitblt.c:627-671 | copying starts at the bottom, or at the right with the masks exchanged, exactly where the forms are the same and source precedes destination |
| BitBlts.BitBlt.CalculateOffsets | bitblt.c:499-536 | word indices and deltas lead through the words of the rectangle, and a word is preloaded exactly if its pixels need it |
| BitCopy.RightExactlyIfStraight | bitblt.c:627-671 | the copy is right for every rule and content if the exchange of masks does no harm; otherwise every outcome of copying onto a blank form is wrong |
| BitBlts.OnePlaceRight | bitblt.c:650-668 | a request to copy one pixel one place to the right in one form that goes wrong so |
| BitBlts.BitBlt.CopyBits | bitblt.c:334-493 | every pixel of the clipped rectangle is the rule's of source, halftone and destination as they were before, even in overlapping forms, and no other changes, where the masks are in order; nothing changes if nothing is visible, the size checks decide the result, and the updated rectangle is exactly what is visible |
| BitWords.MergeBit | bitblt.c:684-796 | each of the sixteen rules acts on words as on each pair of pixels |
| Scheduling.RunSound | primitives.c:364-610 | over every run of enabled signals, waits, resumes and suspends each process is at one place only and no ready one is more urgent than the running one |
| Scheduling.ResumedSoundExactly | primitives.c:554-570 | resuming keeps that if and only if the process is on no list and not running |
| Scheduling.ResumedTwice | primitives.c:554-570 | a sound world of two processes in which resuming either breaks the lists |
| Scheduling.SignalsConserved | primitives.c:364-379 | over every run the initial excess and signals equal the waits passed and the excess left, waiting processes and signals lost at the integer limit counted |
| Scheduling.FirstComeFirstServed | primitives.c:446-501 | over every run the queue of a semaphore and what came equals what left and the queue at the end, in order |
| Dispatching.SignalIs | primitives.c:365-379 | a signal with waiters takes the first off the semaphore: it runs if it is more urgent, the process that ran going last on its ready list, and else it goes last on its own; all other queues stay, in order; without waiters the excess goes up by one as far as an integer can |
| Dispatching.WaitIs | primitives.c:579-593 | a wait uses up a signal in excess; or the running process goes last on the semaphore, and the first of the most urgent ready processes runs; all other queues stay |
| Dispatching.ResumeIs | primitives.c:554-570 | one of the two runs, the running one unless the other is more urgent, and the other is last on the ready list of its priority; all other queues stay |
| Dispatching.WokenIs | primitives.c:504-552 | the first of the nonempty ready list of the highest priority leaves it and runs; all other queues stay |
| Dispatching.ProcessesConserved | primitives.c:364-610 | over every run a process is there (it runs or is on a list) as often as it was and was resumed, less the times it was suspended: no signal and no wait loses or makes one |
| Dispatching.TurnsTaken | primitives.c:447-552 | over every run the ready list of a priority and those that joined it equal those that left it to run and the list at the end, in order |
| Scheduling.DeliveredOnce | primitives.c:393-421 | the deliveries signal the semaphores of the buffer once each, the one buffered last first |
| Schedulers.Scheduler.PrimitiveWait | primitives.c:579-593 | the linked lists and registers after a wait represent the queues after a wait, and no suspended context is touched |
| Schedulers.Scheduler.SynchronousSignal | primitives.c:365-379 | the same of a signal; and of the first waiter and the running process the more urgent is the active one, and the last link of the other's ready list is its own |
| Schedulers.Scheduler.Resume | primitives.c:554-570 | of any process: the less urgent of it and the running one joins its ready list, and the links represent the queues after resuming if and only if the process was on no list and not running |
| Schedulers.Scheduler.CheckProcessSwitch | primitives.c:393-421 | every buffered signal is delivered once, in order, and the buffer emptied; the running context is saved in the process that ran, if another is to run, whose context is installed; no other suspended context changes |
| Schedulers.Scheduler.AsynchronousSignal | primitives.c:355-361 | a semaphore is added to the buffer, if there is room for it |
| Methods.ProbeExactly | interpreter.c:395-427 | a selector kept at one slot is found if and only if no empty slot comes between its home and that slot in cyclic order |
| Methods.ProbeComplete | interpreter.c:395-427 | in a well filled dictionary the probe finds each selector where it is, and only if it is |
| Methods.HomeIsRemainder | interpreter.c:390-427 | for a power of two the probe begins at the remainder of the hash, and its slots go up from there, round the end |
| Methods.AndBit | interpreter.c:405-405 | the mask of the probe and of the cache is a bitwise one: a bit is set exactly if it is in both |
| Methods.Nearest | interpreter.c:430-446 | what the walk finds is the definition of the nearest class that has one |
| Methods.FoundInWords | interpreter.c:395-446 | in the words of the objects: if a method is found, some class of the chain has in its dictionary the selector k places after the second field, and the method is field k of the array in that field; with its primitive |
| Methods.ChainInWords | interpreter.c:430-452 | the chain begins with the class; each next one is the field 0 of the one before, and of the last it is nil |
| Objects.HeaderIs | interpreter.c:520-569 | flags, temporaries, context size and literals that are read from a header make it up |
| Objects.PrimitiveIs | interpreter.c:576-603 | the primitive is in the eight bits above the lowest of the last literal but one, if all flags are set, and else there is none |
| Interpreters.Interpreter.LookupMethodInDictionary | interpreter.c:395-427 | the loop ends within its two passes and finds what the probe does; in the words themselves, the method is found in the method array at the place that the selector has among the selectors, with its primitive |
| Interpreters.Interpreter.LookupMethodInClass | interpreter.c:430-446 | the registers hold the nearest definition of the selector; else the message is packed and doesNotUnderstand: sought, once; else it stops |
| Interpreters.Interpreter.CreateActualMessage | interpreter.c:454-474 | the selector and arguments are in the message, which replaces them on the stack, and nothing else changes |
| Interpreters.Interpreter.InitializeMethodCache | interpreter.c:917-922 | an emptied cache is right for every heap |
| Interpreters.Interpreter.FindNewMethodInClass | interpreter.c:884-914 | with a right cache the registers are left as by the walk, hit or miss, if and only if selector, class and the entry for nil and nil are not all nil; then the blank entry is taken; and the cache is right after, with what was found in the entry of the selector sought, the selector rewritten included, and the others as they were |
| Interpreters.Interpreter.FetchContextRegisters | interpreter.c:284-306 | in the fields themselves: the home of a block is its field 5, of a method context itself; receiver and method are those of the home |
| Contexts.FetchedInWords | interpreter.c:284-366 | the registers fetched for a context, a block with a home elsewhere included, are told by the fields of it and of its home; a return from a block goes to the sender of the home |
| Contexts.SendInWords | interpreter.c:932-958 | the new context has sender, method, receiver and arguments in their fields and nil elsewhere, room for 12 or 32 more, and begins at the byte after the literals with its stack above the temporaries |
| Contexts.CallerInWords | interpreter.c:932-958 | the caller has its registers in its fields, nil where receiver and arguments were, and is otherwise unchanged |
| Contexts.FetchStored | interpreter.c:284-313 | registers stored in a context are fetched again |
| Contexts.StoreFetched | interpreter.c:284-313 | registers just fetched leave the context as it was when stored |
| Contexts.CallReturns | interpreter.c:932-1068 | a send, anything that keeps to the callee's frame and leaves the waiting contexts alone, and the return restore the caller's registers, the stack below, and put the value in place of receiver and arguments; and the callee can not be returned to any more |
| Contexts.StaysInFrame | interpreter.c:932-1068 | pushes, pops, jumps, stores into temporaries, receivers and other objects, and calls to any depth with all that runs in them, keep to their own frame and leave the waiting contexts to return to |
| Contexts.SendReturns | interpreter.c:932-1068 | so for every body of these, a send that returns is to its caller the replacement of receiver and arguments by the value |
| Activations.ActivateOn | interpreter.c:932-958 | on the object memory, each call that the activation makes is a step of a run: sender, registers, method, receiver and arguments into the new context, nil in their place, the registers stored, the caller given up by the register and the callee taken; nothing is freed |
| Activations.ReturnOn | interpreter.c:1027-1068 | on the object memory, each call that the return makes is a step of a run: the value and the caller counted, the callee cut off and given up, the value stored and given up |
| Activations.Joined | interpreter.c:932-1068 | a send, a body and a return on the memory make one run |
| Agreement.SendAgrees | interpreter.c:932-958 | if the object memory has the objects of the interpreter's heap, then after the calls of a send it has those of the heap after the activation, the new context included: the activation on the memory refines that on values |
| Agreement.ReturnAgrees | interpreter.c:1027-1068 | the same of a return, for all objects that are still allocated; the caller is |
| CallCounts.CallKeepsCount | interpreter.c:932-1068 | over such a run, whatever the body, the caller's context ends with the count it had, or stuck if that was 127, provided that it is not among receiver, arguments, method and result, and that no other reference to it is made, overwritten or freed |
| Interpreters.Interpreter.ActivateNewMethod | interpreter.c:932-958 | the new context and the registers are those of the activation that the frame theorems speak of |
| Interpreters.Interpreter.ReturnValueTo | interpreter.c:1027-1049 | the return of the frame theorems, with the home of the context returned to, if that is not nil and has an instruction pointer; else cannotReturn: is prepared with the active context and the value on the stack |

## Left out

- Memory.ObjectMemory: entry 0 of the object table is reserved and never denotes an object, so loops and roots start at 2.
- SnapshotLoading.LoadSnapshot: files that are not well formed (no nil, objects beyond the file or larger than a segment, pointers beyond the object, zero counts, which the code asserts away, odd or too long tables) and reads that fall short are not modelled; the file is a sequence of words.
- Saving.SaveObjects: writes that fail are not modelled, and nil is in the memory that is saved.
- Snapshots.SoundAgain: objects with the count 0 are not saved while their references stay counted, and references from registers stay counted too; when either occurs only RoundTrip is stated.
- CollectingAllocation.AllocateChunk: where the code ends with an out-of-memory error the model returns nil.
- CollectingAllocation.Allocate: CompiledMethods, whose header is 0 until it is stored and is read as a pointer to entry 0 in the meantime, are not allocated.
- MemoryRuns.RunStaysSound: full collections are not steps of the runs, since after one the counters, and for unsafe chunks the layout, need not be right.
- Collection.ReclaimInaccessibleObjects: the root list and the interpreter's registers are parameters; that the context registers are stored in the active context beforehand (interpreter.c:1351-1353), two integers in its own fields, is not part of it.
- Interpreters.Interpreter.ActivateNewMethod: the new context is a parameter, as are the objects of an actual message; reference counts are not part of the interpreter's own model but of Activations and CallCounts.
- Activations.ActivateOn: it begins when the new context is allocated without a collection (FrameBegins).
- Contexts.StaysInFrame: a block that stores into the temporaries of a waiting home context is not a step, as that context changes.
- Schedulers.Scheduler.Resume: reference counts are not part of the scheduler's model; the process lists do not change.
- Schedulers.Scheduler.AsynchronousSignal: where the code stops with an error, as the buffer is full, the model reports it.
- BitBlts.BitBlt.CopyBits: coordinates are unbounded, so overflow of C integers is not modelled; a word is sixteen booleans. The pixel claim is made where the halftone has sixteen words of its own and no shared word is written before it is read (`ReadInTime`); where the forms share words otherwise, or halftone and destination do, only `g.exact` says so.
- BitBlts.BitBlt.ClipRange: the display and character scanning are not modelled.
- swapPointersOf, instance enumeration, byte access and the low-memory warning: easy next to the members above.
- Bytecode dispatch and the primitives other than those of the scheduler: mostly one case each.
- The display, events, files and clock in system.c, main.c and runtime.c: foreign input and output.
- libs, docs/code and images/imageswapper.c: other programs.
