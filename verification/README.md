# A model of the snapshot kernel and its bundle, with proofs

The repository is a small i386 kernel that runs one program on many tests. It loads the program,
runs it up to its first read of test data, freezes the address space as a copy-on-write snapshot,
and starts every test from that snapshot. Host programs in Rust and Python write the image with the
program's files and tests (the bundle) and read the outcomes back. This project models five parts
of it and proves what they are for. `dafny verify dfyconfig.toml` checks everything.

**Copy-on-write paging** (`Machine` to `Program`, `LowPages`, `PteBits`, `Witnesses`; `Integers`
holds the widths). Physical memory is frames of 1024 words, the two-level tables are concrete, and
class `Paging.Kernel` updates tables, free lists and allocator words in place as `kernel/paging.c`
and `kernel/alloc.c` do. A ghost map (`Ownership`) gives every frame its one use; with the free
chains, the bits and the page budget it is the invariant of every reachable state. `FlatMemory` maps
a state to plain memory, page to contents and right, and each operation is shown to act there as the
plain operation does. `Runs` says what a test should do on plain memory; `Program` proves that the
kernel's runs do that, for every sequence of operations, every list of tests and every limit, and
that after each test the snapshot is what it was.

**Address space** (`Scans`, `FlatSearch`, `Search`, `Moves`, `RemapViews`, `HeapViews`,
`AddressSpace`, `MemCalls`). The early-exit scans over two levels are flat scans; the search for
free ranges is sound, ends, and for sizes below 0x7fff000 bytes finds every range with one page to
spare; for larger ones it finds every range; the place is the topmost one, up to one page for the
smaller sizes, and for all sizes a function of plain memory, as long as no page table is empty,
which every operation but a move keeps. `brk`, `mmap2`, `mprotect`, `munmap` and `mremap` with
overlapping moves are plain memory operations, and the same calls get the same answers in every
test.

**Bundle** (`Bytes`, `Linker`, `BundleRows`, `FileLists`, `BundleDump`, `BundleWalk`, `KernelFiles`,
`RoundTrip`, `Placement`, `HostRead`, `LaunchRun`). Class `Linker.Builder` appends bytes, leaves
words open for labels and fills them in while going through a map in arbitrary order, placing
strings and data on the way. For every bundle and every order the kernel's walk over the image finds
exactly the bundle, an open for writing is refused on exactly the bundle's read-only files, nothing
overlaps, and the host reads back what the kernel holds. One class stands for both writers: `python`
selects named strings and a missing common list, where `python/bundle.py` differs.

**Initial stack and ELF image** (`InitialStack`, `ElfLoad`). The size pass and the write pass agree,
and the ABI's reading of the stack finds the program. The loop over program headers leaves each
segment its image exactly when the headers agree on every byte they share.

**Files, time, numbers** (`FileStore`, `FileCalls`, `TimeBudget`, `DebugOut`). Files are growing
byte sequences with zero-filled gaps under every interleaving of calls; TL comes exactly at the
first round over the limit; printed numbers parse back.

Where the code does not do what it is evidently meant to do, a lemma says exactly when the two
agree. The scans downwards stop at index 0 and at entry 0, as meant; for the compiled unsigned
loops, which do not, `Scans.GuardedExactly` and `Scans.TableDownExactly` give the condition on the
state under which all searches are as meant, and `Witnesses.WrapReached` a state where it fails. In
the other cases the model does what the code does: directory entry 0 is not marked
(`TestSteps.FirstOpExactly`, `TestSteps.TestLowExactly`, `LowPages`), a copy goes through a physical
address (`Kernel.MapPage`, `Witnesses.FaultReached`), only a mapping that begins a page table slides
down (`FlatSearch.SlidesExactly`), others go up and stay mapped where they were
(`AddressSpace.PlaceSays` in `SysMremap`, `Witnesses.UpwardReached`), moves over-credit
(`RemapViews.MoveFinished`, carried along as the room of `Runs.Plain`), the break is not restored
(`HeapViews.StaleAnswers`, `BrkTwice`), an old size of 0 is accepted (`Search.FindMremap`), the
limit 0xffffffff (`BudgetOps.SetMlKeepsUse`), no common file (`BundleDump.SetExactly`), rights after
open (`FileCalls.RightsUnused`), overlapping or overlong segments (`ElfLoad.ImagesExactly`,
`ElfLoad.LoadHeaders`).

## Model

| member | source | states |
|---|---|---|
| `Paging.Kernel.LowmemAllocPage` | kernel/alloc.c:25-38 | takes the head of the low free list and clears it, or the next unused page: the new state and the page are those of `LowAlloc`, which `PageOps.LowAllocList` shows to pop the chain |
| `PageOps.LowAllocList` | kernel/alloc.c:25-38 | allocating a table keeps the low free list an acyclic null-ended chain of exactly the free frames and gives the frame its one use |
| `PageOps.PushList` | kernel/alloc.c:40-44 | freeing a table pushes its frame on the chain and on no other place |
| `Paging.Kernel.LowmemFreePage` | kernel/alloc.c:40-44 | the whole new state of a push, the link written into the freed page itself |
| `Paging.Kernel.HighmemPreAlloc` | kernel/alloc.c:46-57 | first half of the two-phase pop: charge, and the frame that will be taken; nothing else moves, and an exceeded budget takes nothing |
| `Paging.Kernel.HighmemPostAlloc` | kernel/alloc.c:59-63 | second half: the head is read through the mapping just made |
| `Paging.Kernel.HighmemFree` | kernel/alloc.c:65-73 | push through the virtual page that still maps the frame, with the credit |
| `Paging.Kernel.HighmemIncrementMl` | kernel/alloc.c:75-79 | a credit, unless exceeded |
| `DataOps.TakePageInv` | kernel/alloc.c:46-63 | pre_alloc, the new word and post_alloc together are one atomic pop: frame ownership, both chains and the budget hold afterwards, whatever the page was before |
| `DataOps.FreePageInv` | kernel/alloc.c:65-73 | freeing a private page keeps every frame in exactly one use and moves this frame to the top of the chain |
| `DataOps.ForgetPageInv` | kernel/paging.c:203-211 | dropping a page of the snapshot frees no frame and returns its charge |
| `Paging.Kernel.SetMl` | kernel/alloc.c:81-88 | the new budget words, with the 32-bit wrap-around of both differences |
| `BudgetOps.SetMlKeepsUse` | kernel/alloc.c:81-88 | the pages in use, less what moves have credited too much, counted modulo 2^32, carry over to a new limit whenever they fit; the budget is exceeded at once if and only if they do not, or the limit is the word ML_EXCEEDED itself and nothing is in use |
| `BudgetOps.UsualRoom` | kernel/alloc.c:81-88 | a run may then hold the limit and what was credited too much |
| `BudgetOps.SetMlInv` | kernel/alloc.c:81-88 | a change of limit keeps the invariant and everything below the marks |
| `PteBits.DecodeInjective` | kernel/paging.c:47-300 | a 32-bit page-table word and its decoded entry determine each other, so the entry datatype loses nothing |
| `PteBits.PreparedBits` | kernel/paging.c:52-53 | the two assignments of cow_prepare_tbl move bit 2 to bit 512 and set bit 1024 |
| `PteBits.UnsharedBits` | kernel/paging.c:156 | the word of a page taken back from the snapshot: new frame, bits 512 and 1024 gone, bit 2 if either right was there |
| `PteBits.AllowBits` | kernel/paging.c:245-246 | granting the right sets bit 512 on shared words, bit 2 on private ones |
| `PteBits.DenyBits` | kernel/paging.c:247-248 | taking the right away clears both bits |
| `PteBits.FreshBits` | kernel/paging.c:147 | the word of a fresh page |
| `PteBits.MarkBits` | kernel/paging.c:436 | marking a moved word changes bit 1024 alone |
| `PteBits.FrameBits` | kernel/paging.c:114 | masking a word leaves the address of its frame |
| `PteBits.BootBits` | kernel/paging.c:17-45 | the words of init_paging: the kernel's mapping of a frame, and the tables over it |
| `PteBits.ZeroIsNone` | kernel/paging.c:143 | the word 0 is the absent entry and no other word is |
| `Paging.Kernel.GetCowAt` | kernel/paging.c:106-129 | the table of a directory entry becomes private to the run; no page's word, no budget and nothing below the marks changes |
| `PageOps.PrivateDirTables` | kernel/paging.c:106-129 | a snapshot table is copied to a frame of its own and the copy means the same for all 1048576 pages |
| `Paging.Kernel.MapPage` | kernel/paging.c:139-172 | one turn of map_pgdir; the kernel faults if and only if the page is the snapshot's and nothing is mapped at the virtual page with the number of its frame |
| `MapSteps.MapStep` | kernel/paging.c:139-172 | that turn keeps the whole invariant and does to the flat memory what mapping one page does |
| `MapSteps.WriteBackStep` | kernel/paging.c:149-162 | the copy through the physical address lands on a page that keeps its contents |
| `Paging.Kernel.MapRange` | kernel/paging.c:176-191 | every page of the range ends private and mapped, writable if asked for or before; every other page is the same; the charge is the number of pages taken and exceeds the budget exactly when it did not suffice; it fails only where a fault is due |
| `RangeLoops.MapUsed` | kernel/paging.c:176-191 | a step of map_range leaves no table empty that was not |
| `Paging.Kernel.UnmapRange` | kernel/paging.c:222-232 | every page of the range is absent, every other the same, private frames are freed once, marked ones not, the credit is the number of pages there were; a table of the range that is left without pages is given back and its directory entry is absent |
| `RangeLoops.UnmapUsed` | kernel/paging.c:222-232 | a step of unmap_range leaves no table empty that was not |
| `Paging.Kernel.OutsideEmpty` | kernel/paging.c:213-219 | the two scans after an unmapping decide whether the rest of the table is empty |
| `Paging.Kernel.SetRights` | kernel/paging.c:252-259 | mapped pages of the range have the right asked for and the same frame, sharing, contents and remaining bits; nothing is charged |
| `Paging.Kernel.CowRange` | kernel/paging.c:291-300 | pages marked copy-on-write end in a frame of their own, really writable, contents unchanged; all others are untouched, the count returned is their number and the copy is never what exceeds the budget, but for a budget word of 0xfffffffe |
| `MapSteps.CopyStep` | kernel/paging.c:272-286 | one copy keeps the invariant: credit, pop and new word balance |
| `MapSteps.UnmapStep` | kernel/paging.c:203-211 | one unmapping keeps the invariant, whichever way the frame goes |
| `MapSteps.ProtectStep` | kernel/paging.c:243-249 | one change of rights keeps the invariant: bit 2 only on private frames, bit 512 only on shared ones |
| `Paging.Kernel.InitPaging` | kernel/paging.c:17-45 | after the start the invariant holds with no page mapped; the first gigabyte of memory is mapped one to one to the top of the address space, the first megabyte to itself, and the tables take the first 258 low frames |
| `Paging.Kernel.CowPrepare` | kernel/paging.c:57-67 | freezes the address space: every word is the prepared one, the memory is unchanged, nothing in it can be written through a page table any more, and both free lists are chains of frames below the saved marks |
| `Snapshot.PrepareWords` | kernel/paging.c:47-67 | word by word: pages of the program are prepared, the kernel's stay |
| `Snapshot.PrepareFrozen` | kernel/paging.c:57-67 | from any reachable state within budget the result is frozen |
| `Snapshot.PrepareChains` | kernel/paging.c:57-90 | the free lists of the run before the tests are free lists of the snapshot, holes among used frames included |
| `Paging.Kernel.ClonePaging` | kernel/paging.c:71-99 | the six words saved, empty free lists, a copy of the directory in a fresh frame; the memory looks the same |
| `Snapshot.CloneInv` | kernel/paging.c:92-99 | a run may start from there: the invariant holds with everything older below the marks |
| `Paging.Kernel.PopPaging` | kernel/paging.c:467-471 | the saved directory and allocator words are back over whatever memory the run left |
| `Snapshot.PopRestores` | kernel/paging.c:467-471 | after any run that kept the memory below the marks: the same directory, the same tables 1 to 767, the same data frames and all six allocator words |
| `Snapshot.RestoredFrozen` | kernel/main.c:62-91 | a snapshot restored in full is frozen again, for the next turn |
| `Snapshot.RestoredChains` | kernel/paging.c:82-90 | pop_paging finds both in-page free chains of the snapshot as they were, through whatever frames they run |
| `TestSteps.ChainsKept` | kernel/paging.c:467-471 | so for every pair of chains the snapshot had |
| `TestSteps.FirstOpExactly` | kernel/paging.c:57-67 | directory entry 0 is not marked: for each kind of operation, as the first of a test, the table of the first 4 MiB comes back if and only if a condition on the snapshot's words holds (nothing mapped, unmapped, given another right, stored to or copied lazily, or moved to below 4 MiB) |
| `TestSteps.TestLowExactly` | kernel/paging.c:57-67 | for a whole test without moves below 4 MiB, however it ends: the table comes back if and only if the operations carried out, whose number is in the report, replayed on the words from 1 to 4 MiB of the snapshot, end with the words they began with |
| `LowPages.KeptExactly` | kernel/paging.c:57-67 | those words are the same exactly when each is vacant, lazily writable, read-only or taken as before |
| `LowPages.SafeExactly` | kernel/paging.c:57-67 | the condition for one operation is that its replay changes no word |
| `LowPages.FrozenLow` | kernel/paging.c:57-67 | the words of a snapshot are determined by the memory of the program, so the condition can be checked on that |
| `LowPages.MmapLow` | kernel/paging.c:176-191 | a mapping does to those words what the replay says |
| `LowPages.MunmapLow` | kernel/paging.c:222-232 | so does an unmapping |
| `LowPages.MprotectLow` | kernel/paging.c:252-259 | a change of rights |
| `LowPages.StoreLow` | kernel/runtime.c:104-112 | a store, which takes a lazily writable page for the test |
| `LowPages.CopyLow` | kernel/paging.c:291-300 | so do the copies made for a buffer |
| `LowPages.MoveShows` | kernel/paging.c:406-465 | a move of pages to below 4 MiB never leaves the table as it was |
| `LowPages.MapLowExactly` | kernel/paging.c:57-67 | map_range of pages that are free or the snapshot's leaves that table alone exactly when the range starts at 4 MiB or above |
| `LowPages.UnmapLowExactly` | kernel/paging.c:57-67 | unmap_range leaves it alone exactly when nothing of the range was mapped below 4 MiB |
| `LowPages.LowPageLeaks` | kernel/paging.c:57-67 | the failing case: for every frozen state and free page below 4 MiB, a test that maps the page leaves it to the next test, writable, in a frame that will be handed out again |
| `LowPages.LowStoreLeaks` | kernel/paging.c:57-67 | the commonest failing case: a store to any lazily writable page below 4 MiB leaves the test's own frame, writable, to the next test |
| `TestSteps.AboveHarmless` | kernel/paging.c:57-67 | tests that stay at 4 MiB and above are harmless on every snapshot |
| `FlatMemory.MmapView` | kernel/sys_vmem.c:48-52 | on the flat memory: a zeroed mapping |
| `FlatMemory.ClearView` | kernel/sys_vmem.c:115-118 | map_range and memset of pages that need not be free: zeros, with the right asked for or had before |
| `FlatMemory.ClearedReads` | kernel/sys_vmem.c:115-118 | a cleared page reads as zeros and may be written if asked for or before |
| `FlatMemory.UnmapView` | kernel/paging.c:222-232 | on the flat memory: the pages are gone |
| `FlatMemory.ProtectView` | kernel/paging.c:252-259 | on the flat memory: the right changes and nothing else |
| `FlatMemory.CopyView` | kernel/paging.c:291-300 | copying is invisible |
| `FlatMemory.StoreView` | kernel/runtime.c:104-112 | a store changes one word of one page and no other page, although frames are shared |
| `Paging.Kernel.MovePage` | kernel/paging.c:406-465 | one word moves and its source is marked |
| `Paging.Kernel.MovePages` | kernel/paging.c:406-465 | in either direction, across tables and over an overlap, the words at the target are the old words of the source, as memmove would leave them, uncovered source words are marked and all others are the same |
| `Moves.MoveInv` | kernel/paging.c:406-465 | each single move keeps frame ownership: the frame follows its word |
| `RemapViews.MoveView` | kernel/sys_vmem.c:106-113 | a downward move and its unmapping, on the flat memory: old contents and rights at the new place, nothing at the old one, all else untouched |
| `RemapViews.UpwardLeaves` | kernel/sys_vmem.c:106-113 | an upward move leaves the whole source mapped and unmaps none of it |
| `RemapViews.MoveFinished` | kernel/paging.c:203-211 | no move stays pending, and the budget is too high by exactly the pages unmapped behind the move |
| `StoreSteps.HardwareMeaning` | kernel/runtime.c:92-112 | in every reachable state the processor lets the program write a page exactly when bit 2 of its word is set, and such a page is private |
| `StoreSteps.RetryStep` | kernel/runtime.c:104-112 | an answered fault turns one copy-on-write page into a writable one; an unanswered one changes nothing |
| `Program.Program.UserStore` | kernel/runtime.c:92-118 | the store with its fault and retry ends after at most one copy: it succeeds exactly when the flat memory allows it |
| `Program.Program.ZeroPages` | kernel/sys_vmem.c:52 | memset over the run's own pages |
| `Program.Program.MmapAt` | kernel/sys_vmem.c:48-52 | map_range, set_rights and memset in a row |
| `Program.Program.MoveDownTo` | kernel/sys_vmem.c:106-113 | move_pages and unmap_range for a lower place |
| `Program.Program.RunOp` | kernel/runtime.c:71-176 | one operation of a program (mapping, unmapping, rights, downward move, store, copies for a buffer): invariant, memory below the marks, and plain memory with its limit, status included; the kernel faults only on a mapping over a page that is still the snapshot's |
| `Program.Program.Run` | kernel/runtime.c:68-176 | for every sequence of operations the run ends after as many of them, with the status and the memory, that plain memory with the limit gives, moves and mappings over mapped pages included; a fault comes only at a mapping over a page still the snapshot's, reached as plain memory reaches it |
| `RunSteps.MmapStep` | kernel/alloc.c:46-57 | a mapping exceeds the limit exactly when the pages would be more than it allows, a page of the snapshot counting twice |
| `RunSteps.NeedIs` | kernel/paging.c:139-172 | what a mapping takes is its free pages and those of the snapshot |
| `RunSteps.MunmapStep` | kernel/paging.c:222-232 | an unmapping is that of plain memory, and its credit never exceeds a limit below ML_EXCEEDED |
| `RunSteps.MoveStep` | kernel/sys_vmem.c:106-113 | a downward move is that of plain memory, with the limit raised by the pages it leaves |
| `RunSteps.StoreDone` | kernel/runtime.c:92-118 | a store is that of plain memory, and takes its page from the snapshot |
| `RunSteps.CopyDoneStep` | kernel/vmem.c:291-298 | the copies for a buffer change nothing a program sees and take its writable pages from the snapshot |
| `RunSteps.MmapFault` | kernel/paging.c:149-162 | a fault of map_range is on a page that is still the snapshot's |
| `Runs.RunSplit` | kernel/runtime.c:68-176 | a run on plain memory is any beginning of it that is carried out, and then the rest |
| `Runs.ExceedsExactly` | kernel/alloc.c:46-57 | on plain memory a mapping ends the run exactly when the pages there were and the new ones, the snapshot's in the range counted twice, are more than the limit allows |
| `Runs.MappedReads` | kernel/sys_vmem.c:48-52 | after mmap a page reads as zeros and may be stored to exactly if asked for |
| `Runs.ProtectedReads` | kernel/sys_vmem.c:64-73 | after mprotect a page holds what it held and may be stored to exactly if asked for |
| `Runs.UnmappedReads` | kernel/sys_vmem.c:122-131 | after munmap a page is gone, stores to it are refused, and mapped again it reads as zeros |
| `Runs.OutsideReads` | kernel/sys_vmem.c:48-131 | mappings, unmappings, changes of rights and copies leave every page outside their range as it was |
| `Runs.StoredReads` | kernel/runtime.c:104-112 | a stored word is read back and every other word of every page is as it was |
| `Runs.MovedReads` | kernel/sys_vmem.c:106-113 | a moved page is at the new place with contents and right, and at the old one no longer |
| `Runs.SnapEmpty` | kernel/main.c:28-60 | before the tests no page is the snapshot's |
| `Runs.NoFaultDue` | kernel/main.c:28-60 | so no fault is due there |
| `Runs.SoundEnough` | kernel/alloc.c:65-79 | no credit reaches the word ML_EXCEEDED when limit and pages moved stay below it |
| `RunSteps.PresentCount` | kernel/paging.c:203-211 | what unmapping credits is the number of mapped pages |
| `RunSteps.RunTurn` | kernel/runtime.c:71-176 | one more operation of a run keeps what is known of the run so far |
| `RunSteps.RunStops` | kernel/runtime.c:71-176 | a run that ends early ends as plain memory does |
| `TestSteps.TestReport` | kernel/main.c:62-91 | what a test reports is what plain memory gives from the snapshot's memory, the limit and its own operations alone: status, number of operations, memory, and over budget exactly when it ends so; a kernel fault only where one is due; over budget throughout when the snapshot does not fit the limit |
| `TestSteps.ReportsAgree` | kernel/main.c:62-91 | the same test gives the same report whatever ran before it, over budget included |
| `TestSteps.TestStartPlain` | kernel/main.c:64-66 | a test starts over budget exactly when the snapshot does not fit its limit, else with all of the snapshot's memory, every page the snapshot's |
| `TestSteps.TestEnd` | kernel/main.c:62-91 | after pop_paging the snapshot is the one the test started from, whole exactly when the words from 1 to 4 MiB are |
| `TestSteps.SameStart` | kernel/main.c:62-66 | every test with the same limit starts from the same state, but for frames that are not handed out yet |
| `Program.Program.RunTest` | kernel/main.c:62-91 | clone, set_ml, run, pop: the report of the test; registers, allocator words, frames and free chains as they were, and the table of the first 4 MiB exactly when `TestSteps.TestLowExactly` says |
| `Program.Program.RunTests` | kernel/main.c:62-91 | every test of any list that leaves the words from 1 to 4 MiB at its end as they were starts from the same memory, whatever the others did; the free chains survive all of them |
| `Program.Program.Launch` | kernel/main.c:16-61 | start, load, first run, freeze: memory and budget words are what plain memory gives; it gets that far only if plain memory does within the limits, and always then if no credit reaches ML_EXCEEDED |
| `Program.Program.RunAll` | kernel/main.c:16-93 | the whole program: each test behaves on the memory of the first run's end as plain memory with the test's limit; when the tests are reached, as for `Launch` |
| `Scans.CheckAccess` | kernel/paging.c:330-352 | the least page of the range that fails the requirement, or the end, for every value of perms |
| `Scans.CheckAccessPgdir` | kernel/paging.c:302-328 | the same within one table |
| `Scans.CheckAccessBackwards` | kernel/paging.c:382-404 | the greatest failing page, or the page below the limit; the start page is looked at exactly when its table is present and it does not begin a table |
| `Scans.CheckAccessPgdirBackwards` | kernel/paging.c:354-380 | the same within one table, with a loop that stops at index 0 |
| `Scans.DownFromExactly` | kernel/paging.c:354-380 | the loop as compiled for lower index 0 answers as the one meant does if and only if the word in memory before the table fails the test |
| `Scans.ScanAgreesExactly` | kernel/paging.c:354-380 | one compiled scan of a table stops where the one meant does if and only if a word of the table fails the test, or the word in memory before it does |
| `Scans.GuardedExactly` | kernel/paging.c:354-404 | all scans down for a mapped or a free page, wherever they start, agree with those meant if and only if the word before each table is not zero where the table's first two pages are free, and zero where both are mapped |
| `Scans.TableDownExactly` | kernel/paging.c:382-404 | the loop over directory entries for perms -2, which as compiled does not stop at entry 0, answers as meant if and only if an entry at or below the start is absent |
| `Witnesses.WrapReached` | kernel/paging.c:354-380 | a reachable state in which the compiled loop leaves its table: a program that fills the 4 MiB from 4 MiB on |
| `Witnesses.OnePage` | kernel/paging.c:57-99 | a program of one page, mapped, frozen and cloned |
| `Witnesses.FaultReached` | kernel/paging.c:149-162 | a test that maps that page again makes the kernel fault, whatever page it is but one |
| `Search.BackEnd` | kernel/vmem.c:213-219 | a candidate for the end of a free range, never above the last one unless a page below it is free; without empty tables the one plain memory gives |
| `Search.FrontEnd` | kernel/vmem.c:220 | the range below is free down to the answer, and not further |
| `Search.RunsTurn` | kernel/vmem.c:211-224 | a turn that finds a range too short passes over no run of free pages longer than the size |
| `Search.RunsTurnLarge` | kernel/vmem.c:211-224 | nor, for 0x7fff000 bytes or more and without empty tables, over one as long as the size |
| `Search.TopmostSmall` | kernel/vmem.c:208-226 | below 0x7fff000 bytes the end of a free stretch that a turn accepts is the topmost place: no free run longer than the size ends more than a page above it, and the page behind is the limit or mapped, but for one page |
| `Search.TopmostLarge` | kernel/vmem.c:208-226 | from there on no free run as long as the size ends above it while no table is empty, and it ends at the limit or in front of a mapped page |
| `Search.DoFindMmap` | kernel/vmem.c:208-226 | ends; 0 or a range that is free and inside the limits; below 0x7fff000 bytes 0 only when no longer free run exists there; without empty tables, from there on 0 only when no run is as long; the search is top-down: an answer is the topmost place (`Search.Topmost`), up to one page, at the end of its free run; without empty tables the place is `FlatSearch.FlatFind` of plain memory |
| `Search.FindMmap` | kernel/vmem.c:228-235 | the place asked for when it is free, else the topmost one as above |
| `Search.FindMremap` | kernel/vmem.c:237-249 | in place exactly when there is room behind, else into the gap around the mapping exactly when `FlatSearch.SlidesExactly` says, else where find_mmap says; without empty tables always `FlatSearch.FlatRemap` of plain memory; never over pages of other mappings, but for an old size of 0, sound then if and only if the start page is not seen to be mapped or the range below it is free |
| `FlatSearch.SlidesExactly` | kernel/vmem.c:241-247 | a mapping without room behind it slides down if and only if it begins a page table and the free pages in front make up for what is missing; any other is stopped by its own start page |
| `FlatSearch.GapFacts` | kernel/vmem.c:241-245 | what the two scans of find_mremap find around a mapping |
| `Search.EmptyMremap` | kernel/vmem.c:241-247 | what the two scans find for an old size of 0 |
| `HeapViews.ReadyForStores` | kernel/vmem.c:291-298 | after check_writable and do_cow every page is writable for the processor and private |
| `HeapViews.WritableScan` | kernel/vmem.c:262-271 | check_writable succeeds exactly when every page is one the program may write |
| `HeapViews.RoundMeans` | kernel/vmem.c:177-178 | as many pages as the bytes need and no more; the last 4095 sizes wrap to none |
| `HeapViews.GrownHeap` | kernel/vmem.c:181-191 | growth keeps the heap mapped and writable |
| `HeapViews.ShrunkHeap` | kernel/vmem.c:192-196 | so does shrinking |
| `HeapViews.StaleAnswers` | kernel/vmem.c:11-12 | the break is not brought back for the next test: its brk calls, whatever they are, are answered as they should be if and only if the break is the snapshot's |
| `HeapViews.StaleGrowth` | kernel/vmem.c:175-197 | a growth that the snapshot's break allows has the same answer and memory if and only if the stale break is on the same page; from a lower one it is refused, from a higher one it leaves a hole |
| `AddressSpace.AddressSpace.Brk` | kernel/vmem.c:175-197 | from any break, sound or stale, case by case: below the start or onto pages in use the old break and nothing changed; growth maps pages that were free, writable and zero; shrinking unmaps exactly the pages between; the same page-rounded break changes nothing; a sound heap stays sound |
| `AddressSpace.AddressSpace.BrkBack` | kernel/vmem.c:175-197 | two calls: after a heap shrinks it may grow back to where it was, the answer is the break asked for and the pages read as zeros |
| `AddressSpace.AddressSpace.BrkTest` | kernel/main.c:62-91 | clone_paging, brk, pop_paging: the snapshot is back, the break is the one the test left, and the next test's heap is sound exactly when that is not above the snapshot's |
| `AddressSpace.AddressSpace.BrkTwice` | kernel/main.c:62-91 | two tests in a row: a growth the snapshot's break would get is refused after a test that shrank the heap, and granted after one that did not |
| `AddressSpace.AddressSpace.SysMunmap` | kernel/sys_vmem.c:122-131 | the error exactly when due, otherwise the pages are gone from the flat memory |
| `AddressSpace.AddressSpace.SysMprotect` | kernel/sys_vmem.c:64-73 | the same for the rights |
| `AddressSpace.AddressSpace.MmapPlace` | kernel/sys_vmem.c:21-41 | the checks and the choice: a free place inside the program's part, the one asked for if it is free, no place only if there is none; the kernel's own pages exactly for MAP_FIXED from 0x10000 up to 0x100000; without empty tables the place plain memory gives |
| `AddressSpace.AddressSpace.SysMmap2` | kernel/sys_vmem.c:19-62 | without MAP_FIXED nothing mapped is touched and the kernel cannot fault; with it, it faults exactly where map_range does; the answer is a zeroed mapping with the rights asked for, one operation of a run, budget included |
| `AddressSpace.AddressSpace.MremapPlace` | kernel/vmem.c:237-249 | a place made of free pages and the mapping's own: in the gap whenever it slides, and without empty tables the one of plain memory |
| `AddressSpace.MremapKept` | kernel/sys_vmem.c:76-120 | after mremap the pages that stay are at the new place with contents and rights |
| `AddressSpace.MremapAdded` | kernel/sys_vmem.c:115-118 | the added pages read as zeros and have the right of the first old page |
| `AddressSpace.MremapGone` | kernel/sys_vmem.c:76-113 | no old page outside the new place is left mapped |
| `AddressSpace.AddressSpace.SysMremap` | kernel/sys_vmem.c:76-120 | shrinks, stays, grows in place or moves down and grows: old bytes and rights first, zeros behind with the rights of the first page, nothing left behind, nothing else changed; it moves down whenever it slides, and without empty tables goes up, leaving the pages at both places, exactly when plain memory has no place at or below the old one; an old size of 0 clears pages that need not be free, and only then can the kernel fault |
| `AddressSpace.MovedUpDone` | kernel/sys_vmem.c:106-113 | after the upward move each old page is mapped at both places with one frame |
| `Witnesses.UpwardPlace` | kernel/vmem.c:237-249 | two pages side by side: to grow the first one, mremap goes to 0x7fffd000 |
| `Witnesses.UpwardReached` | kernel/sys_vmem.c:106-113 | a program that does so from the start of the machine |
| `AddressSpace.AddressSpace.GrowNothing` | kernel/sys_vmem.c:98-120 | the rest of the call for an old size of 0 |
| `MemCalls.DoCall` | kernel/runtime.c:104-176 | mmap2, munmap or mprotect as main_loop dispatches it: the answer is a function of plain memory and the arguments, the effect one operation of a run; it halts only where a fixed mapping over a page still the snapshot's, or over the kernel's own, is due |
| `MemCalls.RunCalls` | kernel/runtime.c:104-176 | any sequence of these calls is answered as plain memory answers it; it ends over the limit exactly at the call after which plain memory would hold more pages than the limit allows |
| `MemCalls.CallsTurn` | kernel/runtime.c:104-176 | one more call keeps what is known of the answers so far |
| `MemCalls.CallsTest` | kernel/main.c:62-91 | so in a test, from the snapshot's memory, which is back afterwards; over budget at once exactly when the snapshot does not fit the limit |
| `MemCalls.CallsTests` | kernel/main.c:62-91 | the same calls in every test get exactly the answers of plain memory with the test's limit |
| `MemCalls.AnsweredExactly` | kernel/runtime.c:104-176 | a report that is not cut short by the kernel stopping is that of plain memory |
| `MemCalls.MoreRoom` | kernel/alloc.c:46-57 | a larger limit serves the same calls with the same answers |
| `MemCalls.TestsAgree` | kernel/main.c:62-91 | of two tests with the same calls the one with the smaller limit gets a beginning of the answers, and all of them if it is served to the end |
| `AddressSpace.AddressSpace.ReadyBuffer` | kernel/vmem.c:262-298 | succeeds exactly when every page of the buffer may be written; then each is writable and private, and the program sees no difference |
| `Linker.Builder.Align` | rust/src/bundle.rs:56-60 | the fewest zeros that make the length a multiple |
| `Linker.Builder.WriteLabel` | rust/src/bundle.rs:71-76 | four zero bytes and an open word for the label |
| `Linker.Builder.SetLabelString` | rust/src/bundle.rs:91-97 | a label for the string and its zero byte, a new number or in Python the string itself |
| `Linker.Builder.SetLabelBytes` | rust/src/bundle.rs:98-102 | a new label for the bytes |
| `Linker.Builder.SetLabelInode` | rust/src/bundle.rs:103-107 | a new label for an inode number |
| `Linker.Builder.Patch` | rust/src/bundle.rs:50-53 | the open word holds the low 32 bits of the value, no other byte changes |
| `Bytes.LowestFirst` | rust/src/bundle.rs:50-53 | the four bytes of a word, the lowest first |
| `Linker.Builder.ResolveWord` | rust/src/bundle.rs:35-53 | one turn of resolve |
| `Linker.PutKeeps` | rust/src/bundle.rs:50-53 | filling in one open word changes no other |
| `Linker.StepLinks` | rust/src/bundle.rs:34-54 | whichever open word is next, its turn keeps: labels placed behind everything written, aligned, apart from each other, inode numbers all different |
| `Linker.Builder.Resolve` | rust/src/bundle.rs:33-55 | for every order of iteration: panics exactly when a label was never set; otherwise every open word holds its label's address or a number of its own, and every other written byte is the same |
| `BundleRows.DumpFile` | rust/src/bundle.rs:173-198 | the seven words of struct file, and the labels kept for the size and the data |
| `BundleRows.DumpTest` | rust/src/bundle.rs:130-142 | the seven words of struct test, and the label of its outcome |
| `FileLists.DumpFiles` | rust/src/bundle.rs:234-248 | the rows of a list, each linked to the next and the last to the tail |
| `FileLists.ListNext` | rust/src/bundle.rs:234-248 | one more row, under the label kept for it |
| `BundleDump.DumpTests` | rust/src/bundle.rs:222-231 | the rows of the tests, with labels kept for the lists of those that have files |
| `BundleDump.DumpLists` | rust/src/bundle.rs:232-251 | the lists of all tests one after the other |
| `BundleDump.DumpBody` | rust/src/bundle.rs:215-264 | the complete image before resolve |
| `BundleDump.SetExactly` | rust/src/bundle.rs:36 | resolve finds every label exactly when there is a common file, or the writer is Python's |
| `BundleWalk.CellFound` | kernel/bundle.h:4-20 | each linked word is what the kernel needs it to be |
| `BundleWalk.FileFound` | kernel/fs.h:3-16 | a row is a struct file with the file's name, its access word FILE_READONLY exactly for a read-only file and FILE_READWRITE for the others, its data, size and capacity |
| `BundleWalk.ListFound` | kernel/fs.h:15 | the links are a null-ended list of exactly these files |
| `BundleWalk.ListUnique` | kernel/fs_open.c:23-24 | a pointer leads to one list of files only, so any two images that show a bundle show the same one |
| `KernelFiles.ListBecomes` | kernel/fs.h:3-16 | read as struct file, the list in memory is that of the bundle: the same files in the same order, and for each the name, the rights, the buffer and the size |
| `KernelFiles.RightsHold` | kernel/fs_open.c:12-32 | over the list of a test fs_open answers EACCES exactly when it is to write and the first file of the name is read-only in the bundle |
| `RoundTrip.TestSeen` | kernel/bundle.h:4-12 | a test sees its limits, its two names, its own files and then the common ones |
| `RoundTrip.Seen` | kernel/bundle.h:14-20 | the round trip: the kernel's walk finds the executable, every test and every list |
| `Placement.InodesApart` | rust/src/bundle.rs:45-49 | all inode numbers differ and are at least 179 |
| `Placement.DataIsClear` | rust/src/bundle.rs:37-43 | the data of a file lies behind all structures and overlaps no other data and no string |
| `Placement.Separated` | rust/src/bundle.rs:33-55 | all of that for the whole bundle |
| `HostRead.Dump` | rust/src/bundle.rs:215-306 | for every bundle, either writer and every order: fails exactly without a test or, in Rust, without a common file; otherwise the image shows the bundle, nothing overlaps, and the recorded offsets are those of the words the kernel changes |
| `HostRead.Offsets` | rust/src/bundle.rs:265-297 | the offsets of outcomes, sizes and data |
| `LaunchRun.ReadWord` | rust/src/launch.rs:70-73 | the loop from the last byte to the first reads the word |
| `LaunchRun.ReadOutputs` | rust/src/launch.rs:74-88 | the writable files of a test in order; fails exactly on one without data or with a size outside the image |
| `LaunchRun.Run` | rust/src/launch.rs:63-95 | outcomes and outputs of every test but the first, in order |
| `LaunchRun.FileKept` | kernel/fs.h:3-16 | if only outcomes, sizes and data change, every file keeps its name, rights, data pointer, capacity and successor |
| `LaunchRun.TestKept` | kernel/bundle.h:4-12 | and every test its limits, names and list |
| `LaunchRun.ReadBack` | rust/src/launch.rs:75-87 | what the host reads of a file is its first sz bytes as the kernel holds them |
| `LaunchRun.OutputsAre` | rust/src/launch.rs:74-88 | the outputs of a test are as many as its writable files, and the entry of each is the bytes the kernel holds for it |
| `LaunchRun.RunReturns` | rust/src/launch.rs:63-95 | run then fails exactly when a test but the first has a writable file without data |
| `InitialStack.Sizes` | kernel/vmem.c:61-92 | the first pass adds up exactly: start of the strings and stack pointer |
| `InitialStack.Stack.PushList` | kernel/vmem.c:97-104 | pointers, strings and the null of argv or envp |
| `InitialStack.Stack.PushAux` | kernel/vmem.c:113-156 | the auxiliary vector and its three strings, as `InitialStack.AuxReads` reads them |
| `InitialStack.BuildStack` | kernel/vmem.c:58-165 | for every program that fits: the second pass ends exactly at 0xc0000000, so its check never fails, and the ABI's reading of the result, which looks the auxiliary values up by type, finds the program |
| `InitialStack.AbiHolds` | kernel/vmem.c:58-165 | section 2.3.1 of the System V ABI, Intel386 supplement: an aligned stack pointer, argc, argv, envp, 18 pairs, AT_NULL left from the zero fill, every pointer to its string; a lookup of AT_PHDR, AT_PHENT, AT_PHNUM, AT_PAGESZ, AT_BASE, AT_ENTRY and the others up to AT_NULL finds the program's values, and no type occurs twice |
| `InitialStack.AuxReads` | kernel/vmem.c:113-156 | each of the 18 values is found under its type of the ABI, those of AT_PLATFORM, AT_EXECFN and AT_RANDOM lead to their strings and bytes |
| `InitialStack.Looked` | kernel/vmem.c:113-156 | the lookup, pair by pair up to AT_NULL, finds the first value of a type |
| `InitialStack.PairFound` | kernel/vmem.c:113-156 | so the value in each of the 18 places is the one its type leads to |
| `InitialStack.TypesOnce` | kernel/vmem.c:113-156 | the 18 types differ and none is AT_NULL |
| `ElfLoad.Memory.MapSegment` | kernel/elf.c:29-54 | refuses exactly a place outside the program's part and overruns exactly when a byte of the file has no mapped page; otherwise the pages, writable by PF_W (`ElfLoad.FlagsMean`), the file's bytes and zeros behind them |
| `ElfLoad.Memory.LoadHeaders` | kernel/elf.c:96-128 | the loop: succeeds exactly when no header is refused or overruns, else ends at the first that does; on success each covered byte is what the last header over it wants, others are unchanged, and a page is writable exactly if it was or one of its headers has PF_W (`ElfLoad.RightsMean`) |
| `ElfLoad.HeaderRead` | kernel/elf.c:96-101 | the 32 bytes of an Elf32_Phdr laid out from given fields are read back as those fields |
| `ElfLoad.TableRead` | kernel/elf.c:96-101 | and so is each header of a table of them |
| `ElfLoad.FlagsMean` | kernel/elf.c:48 | a segment is writable exactly if the bit PF_W of p_flags, 2, is set |
| `ElfLoad.LoadedMeans` | kernel/elf.c:29-54 | PT_LOAD, PT_DYNAMIC, PT_PHDR and the program's own PT_INTERP are loaded, at p_vaddr plus the base modulo 2^32, inside 0x100000 to 0xc0000000 |
| `ElfLoad.TouchMeans` | kernel/elf.c:29-48 | the pages of a segment are those its bytes are on |
| `ElfLoad.RightsMean` | kernel/elf.c:96-128 | after the loop the pages are the old ones and those of the segments, and one is writable exactly if it was or a segment on it has PF_W |
| `ElfLoad.NoOverrun` | kernel/elf.c:49-52 | no overrun when p_filesz is at most p_memsz |
| `ElfLoad.OverrunsThere` | kernel/elf.c:96-128 | whether a header overruns depends on the headers up to it only |
| `ElfLoad.ImagesExactly` | kernel/elf.c:96-128 | every segment has its image at the end if and only if the headers agree where they overlap |
| `ElfLoad.ImageMeans` | kernel/elf.c:96-128 | an image is the first p_filesz bytes from p_offset of the file, then zeros up to p_memsz |
| `ElfLoad.UsualAgree` | kernel/elf.c:96-128 | headers apart, or nested at the same place of the file like PT_PHDR, do agree |
| `FileStore.SeenMeans` | kernel/fs.h:3-16 | of a file a program sees name, rights, size and the first sz bytes of the buffer, and has the whole buffer as room |
| `FileStore.FsWrite` | kernel/fs.c:21-40 | a growing sequence of bytes: clamped at the capacity, a gap filled with zeros even by no bytes |
| `FileStore.FsRead` | kernel/fs.c:6-19 | the bytes of that sequence, never those past sz |
| `FileStore.ReadBytes` | kernel/fs.c:6-19 | the bytes from the offset on: as many as asked for if there are, else all that are left |
| `FileStore.ReadsJoin` | kernel/fs.c:6-19 | two reads in a row are one read of both lengths |
| `FileStore.WriteBytes` | kernel/fs.c:21-40 | a write changes its own bytes and the gap before them only |
| `FileStore.WritesJoin` | kernel/fs.c:21-40 | two writes in a row are one write of both |
| `FileStore.StrCmp` | kernel/fs_open.c:5-10 | 0 exactly for equal strings |
| `FileStore.StripDots` | kernel/fs_open.c:21-22 | leading "./" dropped any number of times |
| `FileStore.StripMeans` | kernel/fs_open.c:21-22 | what is dropped is "./" repeated, and nothing else |
| `FileStore.OpenMeans` | kernel/fs_open.c:12-32 | each answer of fs_open: which errors exactly when, and otherwise the first file of the name, which may be written if the flags ask for that |
| `FileCalls.Files.FindFile` | kernel/fs_open.c:21-24 | the first file of that name |
| `FileCalls.Files.FsOpen` | kernel/fs_open.c:12-32 | each error when due, otherwise the first file of that name, truncated if asked |
| `FileCalls.Files.SysRead` | kernel/sys_fs.c:37-47 | the specification's step for a read |
| `FileCalls.Files.SysWrite` | kernel/sys_fs.c:49-61 | for a write; what fits is written even when the answer is ENOSYS |
| `FileCalls.Files.SysLlseek` | kernel/sys_fs.c:135-164 | for a seek, with 64-bit wrap-around |
| `FileCalls.SeekMeans` | kernel/sys_fs.c:140-163 | the wrapping sum and its two tests are addition with a sign: the new offset if it is from 0 to 2^32 - 1, else the right error |
| `FileCalls.Files.SysOpen` | kernel/sys_fs.c:166-193 | for an open: the lowest free descriptor |
| `FileCalls.Files.SysClose` | kernel/sys_fs.c:63-69 | for a close |
| `FileCalls.Step` | kernel/sys_fs.c:37-193 | on sequences: every call keeps sizes within the room, and makes, removes and renames no file |
| `FileCalls.ReadMeans` | kernel/sys_fs.c:37-47 | a read: errors exactly when due; otherwise the bytes from the offset on, and the offset is behind them |
| `FileCalls.ReadTwice` | kernel/sys_fs.c:37-47 | two reads in a row through a descriptor are one: the same bytes, the same state, the same error |
| `FileCalls.WriteMeans` | kernel/sys_fs.c:49-61 | a write: errors exactly when due; otherwise what fits is at the offset, the offset is behind it, and ENOSYS if not all fits |
| `FileCalls.WrittenReadBack` | kernel/sys_fs.c:37-164 | what a write of the whole buffer wrote is read back after seeking to where it began |
| `FileCalls.SeekCallMeans` | kernel/sys_fs.c:135-164 | a seek from the start, the offset or the end, each error in the order of the code |
| `FileCalls.OpenCallMeans` | kernel/sys_fs.c:166-193 | an open: the error due, or the lowest closed descriptor, at offset 0, over a file emptied if O_TRUNC asks for it |
| `FileCalls.CloseMeans` | kernel/sys_fs.c:63-69 | after a close the descriptor answers EBADF to close, read and write, and no other descriptor and no file changed |
| `FileCalls.Files.RunCalls` | kernel/sys_fs.c:37-193 | over every interleaving of calls through any descriptors the answers are those of plain sequences, so bytes past a truncation are never seen |
| `FileCalls.RightsUnused` | kernel/sys_fs.c:49-61 | after open the rights of a file decide nothing |
| `FileCalls.Files.Restore` | kernel/sys_fs.c:25-29 | the descriptors come back, the files stay as they are |
| `TimeBudget.Clock.Rebase` | kernel/runtime.c:70-75 | under 64-bit wrap-around: the use so far is kept when it fits the new limit, else nothing is left |
| `TimeBudget.Clock.MainLoop` | kernel/runtime.c:68-90 | TL exactly in the first round at which use before and rounds together exceed the limit |
| `TimeBudget.FirstOverUnique` | kernel/runtime.c:84-89 | there is one such round only |
| `TimeBudget.OverMeans` | kernel/runtime.c:84-89 | up to that round the ticks are within the limit and with it they are not |
| `TimeBudget.LimitMeans` | kernel/runtime.c:70-75 | the limit is the microseconds in ticks while the product fits 64 bits |
| `TimeBudget.Clock.RunTests` | kernel/main.c:60-79 | so in every test after restore_runtime, whatever the other tests took |
| `DebugOut.Weight` | kernel/debugout.c:38-40 | the multiplier ends as the least power of the base above the number and stays a signed 64-bit value |
| `DebugOut.PutDigits` | kernel/debugout.c:36-47 | the digits parse back, none for 0, no leading zero |
| `DebugOut.DigitIs` | kernel/debugout.c:36-47 | the digits are 0 to 9 and then a to z |
| `DebugOut.PutNumber` | kernel/debugout.c:49-57 | for every unsigned 64-bit number and base 2 to 36: digits that parse back to it, without superfluous zeros |
| `DebugOut.PutSigned` | kernel/debugout.c:59-67 | with a minus sign for negative numbers |

## Left out

- Program.Program.RunTests: asks that every test leave the words from 1 to 4 MiB at its end as they were, on the memory of the snapshot; for others the promise fails, and `TestSteps.FirstOpExactly` and `TestSteps.TestLowExactly` say exactly when. A move of pages to below 4 MiB is followed only as the first operation of a test.
- MemCalls.RunCalls: mremap and brk are not among the calls: a move can leave a table empty, after which the places of large mappings depend on more than plain memory, and brk depends on the break the last test left (`HeapViews.StaleAnswers`).
- Program.Program.RunAll: a run is a sequence of memory operations at the places the kernel chose, of downward moves, stores and copies for buffers; which system call asked for them, registers, and the files of the program are not part of a run. The limit is claimed exactly while no credit lifts it to the word ML_EXCEEDED (`Runs.SoundEnough`).
- Paging.Kernel.MapRange: says nothing of the contents a page of the snapshot has afterwards, because the code copies through the frame's physical address; every caller in the kernel clears the pages next.
- Paging.Kernel.MapRange: physical memory is unbounded, so the bump pointers never run out; an address is a page number, the twelve low bits being dropped by the code before use.
- Paging.Kernel.MovePages: asks for a target that is free but for the source, and for a source that is mapped, as its callers see to.
- AddressSpace.AddressSpace.SysMmap2: anonymous mappings only; the flag checks that return ENOSYS, the sixth argument and the read of a file into the mapping are not modelled. What MAP_FIXED from 0x10000 up to 0x100000 does to the kernel's own pages is not followed; the answer is then `KernelPages`.
- AddressSpace.AddressSpace.SysMremap: stops with `Stranded` after the move to a higher address, before a move to address 0 and, for an old size of 0, to one below 1 MiB. Sums of address and new size from 2^32 on are excluded.
- AddressSpace.AddressSpace.Brk: when the page-rounded break does not change C leaves the result undefined, and so does the contract.
- Scans.CheckAccessBackwards: the loop stops at index 0 and directory entry 0, as meant; `Scans.GuardedExactly` and `Scans.TableDownExactly` say when the compiled loops agree, and the searches (`Search.DoFindMmap`, `Search.FindMremap`) rest on that. A range that the start page alone would make up is excluded.
- Scans.CheckAccessPgdirBackwards: the same for index 0.
- Search.DoFindMmap: for 0x7fff000 bytes or more an existing range is promised to be found only while no page table is empty; the last step of a move can leave one, and the code looks for absent tables only.
- Program.Program.UserStore: a store goes to a page of the program or ends the run; the processor's check of pages outside the program's part is not modelled.
- HostRead.Dump: the offsets that the Rust code keeps in the files and tests are returned as values; for an image that does not fit below 4 GiB, which the kernel could not address, no offsets are given. `tests.len() - 1` of an empty list is taken to panic.
- LaunchRun.OnlyResults: that the kernel keeps sizes within capacities is proved separately, as the invariant of `FileCalls.Files`.
- FileCalls.Files.SysLlseek: asks for a descriptor below 1024, which the code does not look at.
- FileCalls.Files.RunCalls: the contents of the program's buffers are arguments, and the checks on them (`AddressSpace.ReadyBuffer`) a flag. Files of the common list are not reset between tests: `FileCalls.Files.Restore` brings back the descriptors only.
- ElfLoad.Memory.LoadHeaders: ends with `Overrun` where the file has more bytes for a header than there are mapped pages: the kernel then faults, or from 0xc0000000 on writes over itself, and neither is followed. validate_elf, the scan for the load base, the copy of the headers for AT_PHDR and the interpreter's name buffer are not modelled, and the base of a position-independent file is an argument.
- InitialStack.BuildStack: argc is stored once instead of being counted up in place; addresses of the headers and the entry point are arguments.
- TimeBudget.Clock.MainLoop: the ticks of each round in the program are arguments.
- DebugOut.PutNumber: the characters are returned instead of sent to the debug port.
- Translation buffers and invlpg: translations always follow the tables.
- Accessed and dirty bits, which the processor sets in page-table words.
- memcpy and memset inside the paging code are assignments of whole pages.
- Outcome words, debug output and the memory map log.
- Interrupts, descriptor tables, processor start, FPU state, timers: hardware plumbing.
- uname, stat, access, readlink, signal mask and thread-area calls: single branches.
- Directory packing and the virtual machine launchers: input and output of the host.
