# Verified model of the Wayca scheduler

A Dafny 4.11 model of the Wayca scheduler library and of some of its tools, with proofs of what they promise.
`dafny verify dfyconfig.toml` checks the whole project.

## What is modelled

- The CPU allocator for groups (`lib/group.c`, driven by `lib/threads.c`), in two layers. `Topology`, `Allocator`,
  `Library` and `Api` say on values what each API call does, in every state. `Runs` proves what every call keeps,
  `Order` which calls keep the documented ranges, `Theorems` what follows for whole runs, and `Attributes` exactly when
  a new attribute keeps them, with `Subtrees` for the groups below. `Balance`, `Detach` and `Placement` are about one
  group's bookkeeping; `Crews`, `Sessions`, `Books` and `Refresh` carry it over to runs of calls, for threads
  in a group and for child groups of a father alike. `Examples` and `Straying` have runs from the initial state that
  fall short. `Answers` says for every call when it succeeds, which error it returns otherwise, and all that is
  different afterwards; `Batches` and `Families` have the documented placement tables, for threads and for groups.
  `Containment`, `Frames` and `Ledger` hold the parts about re-placing. `CpuScan`, `LoadTable`, `Siblings`,
  `Records` and `Scheduler` are the C code's own form: a class whose records are linked through sibling fields, whose
  load table is an array, and whose methods walk lists, loop over CPUs and recurse into child groups. Every API method of `Scheduler.Wayca` is proved to change the state
  exactly as the value-level call says, to return its error number, and to keep what every call keeps.
- The group mutexes. `Locks` has callers that take one mutex, or a second one while they have the first, in any
  interleaving, and says exactly which programs can deadlock. `LockOrder` gives the mutexes each API call takes and says
  which calls can block each other, and what is changed without its mutex.
- The thread pool. `Pool` is the worker protocol with one step per critical section, spurious wake-ups, and a
  signal that wakes at least one sleeper. `ThreadPool` is the circular doubly linked queue and the critical sections
  on it, each proved to be a step of the protocol.
- Word-level bit scanning (`Words`, `Bitops`), linked to the set searches the allocator's loops use, and the hex
  bitmap printer and parser (`Irq`).
- The two CPU-list parsers (`CpuList`, `MaskList`) with their 32-bit loop counter (`Counter`), find-and-delete on a
  tree (`Prune`), the pointer-chase list (`Chase`), job spreading (`Spread`) and the resumable calibration loop
  (`Calibration`).

A `cpu_set_t` is a set of CPU numbers; `Bitops` ties it to its words. A thread or group is named by its table
slot. The topology counts are inputs: levels that exist divide the CPU count and nest (`Topology.Regular`). A thread's
affinity at start is an input of the create call. Numbers are unbounded except where wrap-around matters: 64-bit words in
`Words`, 32-bit and 64-bit numbers in `CpuList` and `MaskList`.

## Where the code falls short of its promises

- A detach keeps a group's rounds and marks exact only if the leaver's claim is still marked; otherwise the
  exclusive-or marks its CPUs instead of freeing them. `Detach.DetachKeepsExact` is the exact condition,
  `Books.DepartureKeepsBooks` and `Books.CallKeepsBooks` state it for the calls. If the CPUs were the only unclaimed
  ones the group is used up: `Detach.ExhaustingDetachExists` and `Theorems.RoomLost` say when, `Examples.UsedUp` gives a
  run on every machine.
- Placing a member in a group with nothing unclaimed: a group of single CPUs makes the search read outside the load
  table, the only attach of a thread `Runs.Defined` excludes. With several CPUs per block the member gets
  the first block of the machine, which is inside exactly when CPU 0 is the group's (`Allocator.PlacementInside`,
  `Allocator.PlacementOutside`, `Order.StepInv`); `Straying.FourthStrays` is a run where it is not.
- A detached scattered per-CPU thread frees one CPU of the block it claimed: `Detach.DetachUndoesAttach` is an
  equivalence.
- Changing a group's attribute checks the granularity it had before: `Attributes.AttributeContains` says exactly when
  the group, its threads and its children end up in range, `Subtrees.SubtreeContained` says it for all groups below, and
  `Examples.WidenedEscapes` is a run where they do not.
- Changing the attribute of an attached group requests a second block from the father without giving back the first:
  `Books.AttributeLeaks`. The claim stays until the father is re-placed: `Books.LeakStays`, `Refresh.RearrangedExact`.
  `Examples.SecondBlockLeaks` is a run.
- A group detached from its father keeps the father's block, though a group without father is documented to cover all
  CPUs: `Theorems.RootsKept`, and `Examples.OrphanKeepsBlock` for a run.
- Detaching a process takes its load off twice: `Theorems.PidDetachUnbalances`.
- Attaching a group without father to itself, and detaching a group from itself, lock the same non-recursive mutex
  twice and hang; `Runs.Defined` excludes both, and `LockOrder.HangsIff` says that no other call hangs on the group mutexes alone.
- Attaching and detaching groups lock the group and then the father the caller names. `LockOrder.PairBlocksIff` says
  that two calls can block each other for good exactly when they lock the same two groups in opposite order,
  `LockOrder.OppositeBlocks` gives two calls that do, one of which would be refused, and
  `LockOrder.AcceptedNeverBlock` says that calls which would all be accepted never do.
- Changing a group's attribute changes its father's marks without the father's mutex, at the same time as a call that
  has it: `LockOrder.AttributeWritesFather`, `LockOrder.AttributeRaces`.
- `cpulist_parse` cuts numbers to 32 bits and advances a 32-bit counter: `CpuList.ItemExact` says for every item, with
  numbers of any length, when the result is right. `CpuList.LastCpuHangs`, `CpuList.CutMarksZero`,
  `CpuList.CutMarksRange` and `CpuList.WrapsAndEnds` give inputs.
- `list_to_mask` accepts a stride of 0 and then never ends (`MaskList.NeverEndsIff` says when,
  `MaskList.ZeroStrideStalls` gives a list), cuts the first number to an `int` (`MaskList.MarksExact` says when that
  matters, `MaskList.CutMarksFour` gives a list), and returns 0 for every list it refuses unless a number is too long
  (`MaskList.ListToMask`; `MaskList.RefusedSilently` gives a list).
- `bitmap_str_to_cpumask` writes past the set for lines of more than 256 digits: `Irq.Parse` says when,
  `Irq.ZerosOverrun` gives a line.

## Model

| member | source | states |
|---|---|---|
| Topology.Arrange | lib/group.c:390-434 | An accepted attribute yields a granularity that divides the CPU count, and the binding bits survive a fall-back to per-CPU level |
| Topology.ArrangeStable | lib/group.c:390-434 | Arranging a group a second time changes neither attribute nor granularity |
| Topology.ArrangeWords | lib/group.c:390-423 | For every level word, with any binding bits, a member gets as many CPUs as the level has, and a single CPU where the machine lacks the level |
| Topology.InvalidWords | lib/group.c:393-412 | Exactly the words whose low bits are none of the five levels are refused |
| Topology.BindingWords | include/wayca-scheduler.h:642-655 | What the two binding words say alone and together, beside any level |
| Topology.LevelsComparable | lib/group.c:390-434 | Of two levels of a regular machine one divides the other, so any granularity a group may get nests with any other |
| Allocator.IdlestBlockMeaning | lib/group.c:85-125 | The chosen block is the lowest-numbered aligned block of least summed load among those whose first CPU is available, if some sum is below INT_MAX, and else the block of the first available CPU |
| Allocator.PlacementInside | lib/group.c:463-564 | With an unclaimed CPU, or with none but CPU 0 in the group, a placement stays inside the group, claims CPUs of the group only, and leaves at least one CPU unclaimed |
| Allocator.PlacementOutside | lib/group.c:85-125 | In every other group in order it goes outside, and the marks with it |
| Allocator.NextBlockInside | lib/group.c:85-125 | The block found is wholly inside the group or wholly outside, by the same condition; with nothing unclaimed the search ends at block 0 |
| Allocator.TargetMeaning | lib/group.c:463-510 | In a compact group with a block claimed in part the thread is aimed at the first unclaimed CPU of such a block, else at the idlest CPU, lowest first, of the idlest block |
| Allocator.AimsUnique | lib/group.c:463-510 | There is only one such CPU |
| Balance.PlacementFresh | lib/group.c:463-564 | With at most one partly claimed block, every placement lands on unclaimed CPUs, keeps that shape, and keeps rounds and marks equal to the members' claims on each CPU |
| Balance.FairShare | lib/group.c:560-563 | Exact bookkeeping means fair shares: rounds and marks are quotient and remainder of all claims by the CPU count, and each CPU is claimed the floor or ceiling of the average |
| Balance.ReleaseExact | lib/group.c:699-718 | Taking back a claim keeps the bookkeeping exact for the remaining members if and only if the claim is still marked |
| Placement.KthPlacement | lib/group.c:463-564 | From equal loads the k-th thread of a fresh group goes to the closed-form position and leaves the closed-form bookkeeping, for every k, size and granularity |
| Placement.HitsClosed | include/wayca-scheduler.h:638-646 | How often the first k threads cover each CPU, counted one by one, equals a closed form in all four modes |
| Detach.AttachRunExact | lib/group.c:463-564 | Over any run without detaches, under any loads, the bookkeeping stays exact and at most one block is partly claimed |
| Detach.FairRun | lib/group.c:463-564 | While members only come, whatever the loads, rounds and marks account for exactly their claims and each CPU has the floor or ceiling of the average |
| Detach.DetachUndoesAttach | lib/group.c:585-613 | Detaching the thread just attached restores the group if and only if its claim is what it is bound to (not a scattered per-CPU group with several CPUs per block) |
| Detach.NestedDetachRestores | lib/group.c:585-613 | Last-in-first-out attaching and detaching restores marks, rounds and seats across any number of roll-overs |
| Detach.LastInFirstOutExact | lib/group.c:585-613 | If only the newest member ever leaves, the bookkeeping is exact at all times |
| Detach.AnyOrderWithinCapacity | lib/group.c:585-613 | With whole-block claims and never more members than blocks, any leaving order keeps claims disjoint and the marks exactly their union |
| Detach.DetachExhausts | lib/group.c:597-606 | A detach leaves no unclaimed CPU if and only if, in a round under way, the thread is bound to exactly the unclaimed CPUs and is released by exclusive-or |
| Detach.DetachKeepsExact | lib/group.c:585-613 | A detach keeps rounds and marks exactly the remaining members' claims if and only if the mode frees what it claimed and the claim is still marked |
| Detach.ExhaustingDetachExists | lib/group.c:597-606 | Some member can leave its group exhausted if and only if the group has rolled over, is in a round, and the unclaimed CPUs are as many as one member is bound to; never in compact groups that are not per CPU |
| Library.AddGroupWoven | lib/group.c:671-697 | Linking a group keeps every link agreeing in both directions and members of one kind, whatever the granularities |
| Library.AddGroupWf | lib/group.c:671-697 | Linking a group below one of coarser granularity keeps the granularity falling from father to child |
| Library.DropGroupWoven | lib/group.c:699-718 | Unlinking a child keeps every link agreeing |
| Library.AddThreadWoven | lib/group.c:566-583 | Adding a thread to a group without child groups keeps members of one kind and both directions of every link |
| Library.DropThreadWoven | lib/group.c:608-611 | Removing a member keeps every link agreeing |
| Api.NeverRefused | lib/group.c:629-634 | In a forest in order re-placing a group is never refused, so ignoring the children's results loses nothing |
| Api.RetagWf | lib/threads.c:762-787 | With a new attribute the forest stays in order if and only if the new granularity lies strictly between the children's and the father's |
| Api.VacantThread | lib/threads.c:414-424 | The slot given out is the lowest free one, or none is free |
| Api.VacantGroup | lib/threads.c:429-439 | The same for groups |
| Frames.ReplaceKeeps | lib/group.c:625-669 | Re-placing a group gives new CPUs only to groups below it, and new marks only to them and to its father, whose marks are those of the request |
| Frames.ReplaceKeepsSeat | lib/group.c:625-669 | It moves only threads of groups below it |
| Frames.ClimbGrows | lib/group.c:629-634 | In a forest in order granularity strictly grows from child to father along any path |
| Containment.RequestHouses | lib/group.c:311-387 | A request gives the group one aligned block of its father (or the whole machine) and disturbs only its own children |
| Containment.SeatThreadsInside | lib/group.c:653-657 | Re-seating all threads of a group puts them inside it and touches no other group or thread |
| Containment.ReplacePlaced | lib/group.c:625-669 | The recursive re-placing puts a whole subtree in place, every group in one block of its father and every thread in its group, and disturbs nothing else |
| Containment.ReplaceOnMachine | lib/group.c:625-669 | Re-placing keeps every thread on CPUs of the machine |
| Ledger.MoveBalanced | lib/group.c:24-56 | Moving a thread's load from its old to its new CPUs keeps each CPU's load the sum over the threads on it |
| Ledger.ReplaceBalanced | lib/group.c:625-669 | So does re-placing a whole subtree |
| Ledger.TotalLoad | lib/group.c:24-56 | With T threads the loads sum to between T*n and T*(2n-1) |
| Runs.InitialBase | lib/threads.c:324-382 | The initial library keeps what every call keeps |
| Runs.StepBase | lib/threads.c:514-983 | Every call the original survives, orderly or not, keeps the links agreeing, each CPU's load the sum over the live threads on it, live threads on CPUs of the machine, and each group owning one region of a topology level |
| Order.StepInv | lib/threads.c:514-983 | From a library in order (granularity falling, every child in one block of its father, every thread in its group) a call leads to a library in order if and only if it is orderly: the group it takes CPUs from is open, and a new granularity lies between the children's and the father's |
| Order.AttachThreadInv | lib/threads.c:890-920 | Attaching a thread to an open group keeps the library in order |
| Order.AttachThreadOutside | lib/threads.c:890-920 | Attaching one to a group that is not open does not |
| Order.CreateThreadInv | lib/threads.c:514-533 | Starting a thread keeps the library in order |
| Order.JoinThreadInv | lib/threads.c:645-668 | So does joining one |
| Order.CreateGroupInv | lib/threads.c:839-859 | So does creating a group |
| Order.DestroyGroupInv | lib/threads.c:861-888 | So does destroying one |
| Order.GroupAttachInv | lib/threads.c:941-963 | Attaching a group, populated subtrees included, keeps the library in order if and only if the father is open |
| Order.SetAttributeInv | lib/threads.c:762-787 | Changing an attribute keeps it in order if and only if the new granularity nests and the father is open |
| Attributes.AttributeAccepted | lib/group.c:629-638 | In a library in order only unknown groups and unknown attributes are refused: the check looks at the granularity the group had |
| Attributes.AttributeContains | lib/group.c:629-669 | From any library in order, after an accepted attribute the group is one block of its father, its threads run inside it and its children own blocks of it, if and only if the father is open, the new granularity is above the children's and at most the father's if there are children, and the threads fit the block: it is at most the father's, or they are bound per CPU and, when scattered, the idlest CPUs they are sent to happen to lie inside |
| Attributes.OverhangsAtStart | lib/group.c:636-657 | With a granularity above the block the group is given, scattered per CPU and two threads or more, that block must be part of the machine's first block of the new granularity |
| Subtrees.ReplaceAlike | lib/group.c:625-669 | Re-placing a group looks at nothing but the groups below it and its father's granularity |
| Subtrees.SubtreeContained | lib/group.c:629-669 | From any library in order, after an accepted attribute every group below the group, its threads and its children are in range, if and only if the same condition on the state before the call holds |
| Refresh.RearrangedExact | lib/group.c:625-669 | Attaching a group or giving it an attribute, in order, leaves its own rounds and marks exactly its members' claims, for threads and for child groups |
| Theorems.RunContainment | include/wayca-scheduler.h:597-600 | After any run of orderly calls every child group owns one aligned block of its father's CPUs, of the father's granularity, and every member thread runs on a non-empty subset of its group's CPUs |
| Theorems.OrderKept | include/wayca-scheduler.h:597-600 | The library is in order after every call of a run if and only if every call is orderly |
| Theorems.RootsKept | include/wayca-scheduler.h:601-603 | If every group without father covers all CPUs, a call keeps it so if and only if it does not detach a group from a father that hands out less than the machine |
| Theorems.RunRoots | include/wayca-scheduler.h:601-603 | So in runs without such a detach every group without father covers all CPUs |
| Theorems.RunLedger | lib/group.c:24-56 | After any run, orderly or not, each CPU's load is the sum of ceil(n/CPUs) over the live threads on it, and the live threads, T of them, load the machine with T*n to T*(2n-1) |
| Theorems.Acyclic | lib/group.c:629-634 | In a forest in order no group is its own ancestor |
| Theorems.DescendantRefused | lib/threads.c:941-963 | In a library in order attaching a group below its own descendant fails |
| Theorems.RoomLost | lib/group.c:597-606 | A call takes away a group's last unclaimed CPU if and only if the leaving member occupies exactly the unclaimed CPUs in a round under way |
| Theorems.RunNeverStuck | lib/group.c:463-495 | In any run of orderly calls without such a call attaching a thread or group always finds a place inside |
| Theorems.BuildingRun | lib/threads.c:514-963 | Every call of a run of creates, attaches and attribute changes on groups with neither father nor child groups is orderly and takes no group's last CPU |
| Theorems.BuildingContained | include/wayca-scheduler.h:597-600 | So after every such run, without further condition, all groups and member threads are in range, and the next attach finds a place inside |
| Examples.WidenedEscapes | lib/group.c:629-638 | Seven calls from the initial state after which the only thread of a group runs on CPUs the group does not have: a group of single CPUs below one of clusters is given NUMA granularity |
| Examples.UsedUp | lib/group.c:597-606 | On every machine with n > 1 CPUs: calls from the initial state that leave a group with members and no unclaimed CPU, so that the next attach reads outside the load table |
| Examples.OrphanKeepsBlock | lib/threads.c:965-983 | Five calls from the initial state after which a group without father owns two of the machine's four CPUs |
| Examples.SecondBlockLeaks | lib/group.c:636-638 | Five calls from the initial state after which a father's books hold a claim to its child's first block that nobody has |
| Straying.FourthStrays | lib/group.c:85-125 | On eight CPUs: calls from the initial state after which a thread of a group on CPUs 4 to 7 runs on CPUs 0 and 1 |
| Theorems.PidDetachUnbalances | lib/threads.c:740-760 | Detaching a process, in a group or not, leaves each of its CPUs short by the thread's load and all others exact |
| Crews.BlockIsSeat | lib/group.c:311-345 | The block a father hands to a child group is the seat and the claim of a scattered whole-block thread |
| Crews.ThreadArrives | lib/threads.c:890-920 | Attaching a thread is one attach of the group's roster of threads |
| Crews.GroupArrives | lib/threads.c:941-963 | Attaching a child group is one attach of the father's roster of groups |
| Crews.ThreadDeparts | lib/threads.c:645-668 | Detaching or joining a thread is one detach of its group's roster, at the member's position |
| Crews.GroupDeparts | lib/threads.c:861-888 | Detaching or destroying a child group is one detach of its father's roster |
| Crews.PassingKeeps | lib/threads.c:514-983 | Every other call that does not re-place the group leaves the group, its bookkeeping and its members' CPUs alone |
| Crews.CallIsEvent | lib/threads.c:514-983 | So every call that does not re-place the group is one event of its roster, for rosters of threads and of child groups |
| Sessions.SessionFollows | lib/threads.c:514-983 | Any run in which the group is not re-placed is a run of its roster, with any calls on other groups and threads in between |
| Sessions.NestedSession | lib/threads.c:890-983 | From exact books, only the newest member, thread or child group, ever leaving: back at an earlier size, claims, rounds, member list and members' CPUs are what they were, and the books are exact and fair |
| Sessions.AnyOrderSession | lib/threads.c:890-983 | Members leaving in any order where claims are whole blocks, as child groups' are: within capacity claims are disjoint and together exactly what is marked, and the shares fair |
| Sessions.FairSession | lib/threads.c:890-963 | Members only coming: every CPU of the group is claimed the floor or ceiling of the average, and rounds and marks account for exactly the members |
| Sessions.FreshBooks | lib/threads.c:839-859 | A group without members that has just got its CPUs has exact books |
| Sessions.ExactIsFair | lib/group.c:560-563 | Exact books mean fair shares, also after members have left: each CPU is claimed the floor or ceiling of the average, and rounds and marks are quotient and remainder of all claims |
| Books.DepartureKeepsBooks | lib/threads.c:922-983 | A detach, join or destroy keeps the group's books exact if and only if its way of seating is reversible and the leaver's claim is still marked |
| Books.AttributeLeaks | lib/group.c:636-638 | After an attached group's attribute changed, its father's books are those of its children and of one more claim, to the child's first block, that nobody has |
| Books.OwesExcess | lib/group.c:311-345 | Such books count one claim too many on exactly the CPUs of that block, so rounds and marks do not account for the children |
| Books.CallKeepsBooks | lib/threads.c:514-983 | A call that does not re-place the group keeps its books exact if and only if it changes no child's attribute and whoever leaves does so with a claim still marked |
| Books.CallKeepsDebt | lib/threads.c:514-983 | A call that re-places neither the father nor a child leaves exactly that claim too many if and only if whoever leaves does so with a claim still marked |
| Books.LeakStays | lib/threads.c:514-983 | So over whole sessions of the father, however many children come and go, the claim is there in every state if and only if every leaver's claim was marked |
| Batches.PlacementTable | include/wayca-scheduler.h:638-646 | The documented table for every machine size: where the i-th of any number of threads attached to a fresh group sits, in all four modes; the four rows below say it of the attribute words |
| Batches.PlainRow | include/wayca-scheduler.h:642 | With the word L alone, L a level of k CPUs, thread i gets block i mod B |
| Batches.PerCpuRow | include/wayca-scheduler.h:643 | With the word L and WT_GF_PERCPU it gets CPU (i div B) mod k of block i mod B |
| Batches.CompactRow | include/wayca-scheduler.h:644 | With the word L and WT_GF_COMPACT it gets block (i mod len) div k |
| Batches.CompactPerCpuRow | include/wayca-scheduler.h:645-646 | With all three it gets CPU i mod len |
| Families.GroupTable | include/wayca-scheduler.h:631-636 | With the word L and any binding bits, child group i covers block i mod B |
| Answers.WeightIsCeiling | lib/group.c:24-56 | A thread weighs n divided by the number of its CPUs, rounded up, on each of them |
| Answers.CreateThreadAnswer | lib/threads.c:565-643 | Takes the first vacant slot, fails with ENOMEM only when there is none, and changes nothing but the slot, its seat and the loads |
| Answers.JoinThreadAnswer | lib/threads.c:645-668 | Succeeds exactly for live threads: the thread leaves its group, its slot is vacant, its weight is off its CPUs, all else is as before |
| Answers.AttachThreadAnswer | lib/threads.c:890-920 | Succeeds exactly if the thread is in no group and the group has no child groups; the thread is the newest member, on the CPU it is to be aimed at, and all else is as before |
| Answers.DetachThreadAnswer | lib/threads.c:922-939 | Succeeds exactly for members; the thread is in no group, the member list is one shorter, the marks are taken back, and every other group, seat and load is as before |
| Answers.CreateGroupAnswer | lib/threads.c:838-859 | Takes the first vacant slot for a group with the default attribute over the whole machine, fails with ENOMEM only when there is none |
| Answers.DestroyGroupAnswer | lib/threads.c:861-888 | Succeeds exactly without members, with EBUSY otherwise; the group leaves its father and its slot is vacant, all else is as before |
| Answers.DetachGroupAnswer | lib/threads.c:965-983 | Succeeds exactly for children of the group named; the child keeps its CPUs and members, all else is as before |
| Answers.AttachGroupAnswer | lib/threads.c:941-963 | Succeeds exactly if the group has no father, the other no threads, and the granularity lies between those of the children and of the father, with EINVAL or ERANGE otherwise; it is the newest child |
| Answers.SetAttributeAnswer | lib/threads.c:761-788 | Succeeds exactly if the old granularity lies between and the word names a level; of the forest only the attribute and granularity change |
| Answers.ReplaceInTurn | lib/group.c:625-669 | A group is re-placed by requesting CPUs, then its threads are seated, or its child groups re-placed, one after the other, oldest first |
| Answers.AttachGroupRearranges | lib/group.c:671-697 | Attaching a group re-places it in that way |
| Answers.SetAttributeRearranges | lib/threads.c:776-785 | So does changing its attribute |
| Siblings.AppendToFamily | lib/group.c:209-246 | Linking behind the tail keeps all chains acyclic and disjoint and extends exactly one |
| Siblings.RemoveFromFamily | lib/group.c:248-298 | Unlinking a member keeps all chains acyclic and disjoint and shortens exactly one |
| Records.LinkThreadOk | lib/group.c:574-577 | The records stay linked as the member lists say, counters included, when a thread is added |
| Records.UnlinkThreadOk | lib/group.c:608-610 | The same when a thread is removed |
| Records.LinkGroupOk | lib/group.c:682-685 | The same when a child group is added |
| Records.UnlinkGroupOk | lib/group.c:713-715 | The same when a child group is removed |
| LoadTable.UpdateLoad | lib/group.c:24-56 | Adds or removes ceil(n/CPUs) on exactly the thread's CPUs |
| LoadTable.FindIdlestCore | lib/group.c:58-79 | Returns the lowest-numbered CPU of least load |
| LoadTable.FindIdlestSet | lib/group.c:85-125 | Returns the block the allocator's specification chooses, also with nothing available when a block has several CPUs: the remainder of -1 moves the start to CPU 0 |
| LoadTable.FindIncompleteSet | lib/group.c:131-157 | Returns the start of the stretch that holds the first CPU of a partly available block, or -ENODATA when there is none, for groups of whole blocks and for groups inside one block |
| LoadTable.ChooseTarget | lib/group.c:463-495 | Aims at the CPU Allocator.TargetMeaning describes, with unclaimed CPUs or without |
| LoadTable.AssignSeat | lib/group.c:463-564 | Seat and new bookkeeping are those of the specification |
| Scheduler.MembersLive | lib/group.c:159-207 | With links that agree the walked lists hold live records only |
| Scheduler.ShapeChunky | lib/group.c:131-157 | The CPUs any group ever owns are whole blocks of every level or part of one, which is what the searches need |
| Scheduler.UndoGraft | lib/group.c:688-694 | Unlinking right after linking restores the forest |
| Scheduler.Wayca.constructor | lib/threads.c:324-382 | The library starts empty and valid |
| Scheduler.Wayca.IsThreadInGroup | lib/group.c:159-176 | The walk finds a thread if and only if it is a member |
| Scheduler.Wayca.IsGroupInFather | lib/group.c:195-207 | The same for child groups |
| Scheduler.Wayca.TailThread | lib/group.c:209-227 | The walk ends at the last member |
| Scheduler.Wayca.BeforeThread | lib/group.c:248-273 | The walk stops at the member before the one sought |
| Scheduler.Wayca.TailGroup | lib/group.c:229-246 | The walk ends at the last child |
| Scheduler.Wayca.BeforeGroup | lib/group.c:275-298 | The walk stops at the child before the one sought |
| Scheduler.Wayca.MaxTopoCpusInChildren | lib/group.c:178-193 | The largest granularity among the children |
| Scheduler.Wayca.LinkThread | lib/group.c:574-577 | The thread becomes the last member and nothing else changes |
| Scheduler.Wayca.UnlinkThread | lib/group.c:608-610 | The member leaves the list and nothing else changes |
| Scheduler.Wayca.LinkGroup | lib/group.c:682-685 | The group becomes the last child and nothing else changes |
| Scheduler.Wayca.UnlinkGroup | lib/group.c:713-715 | The child leaves the list and nothing else changes |
| Scheduler.Wayca.SeatMember | lib/group.c:463-564 | One thread gets the specified seat, its group the specified marks |
| Scheduler.Wayca.AddThread | lib/group.c:566-583 | Refuses a present member and a group of groups, else links and seats |
| Scheduler.Wayca.DeleteThread | lib/group.c:585-613 | Refuses a non-member, else takes back the claim and unlinks |
| Scheduler.Wayca.DeleteGroup | lib/group.c:699-718 | The same for a child group |
| Scheduler.Wayca.RequestFromFather | lib/group.c:311-345 | Hands out and marks the father's next block |
| Scheduler.Wayca.RequestResource | lib/group.c:359-387 | The whole machine or the father's next block |
| Scheduler.Wayca.MoveMember | lib/group.c:653-657 | Takes a thread's load off, seats it again, puts its load on |
| Scheduler.Wayca.SeatMembers | lib/group.c:649-657 | The thread loop is the specified sequence of moves |
| Scheduler.Wayca.RearrangeChildren | lib/group.c:658-666 | The child loop re-places the children that are not refused and leaves the others |
| Scheduler.Wayca.TooCoarseOrFine | lib/group.c:629-634 | The two granularity checks |
| Scheduler.Wayca.RearrangeGroup | lib/group.c:625-669 | Refusal, invalid attribute or the specified recursive re-placing, with the code for each, in any forest whose links agree; ends because granularity falls |
| Scheduler.Wayca.AddGroup | lib/group.c:671-697 | Links and re-places, or leaves everything as it was |
| Scheduler.Wayca.FindFreeThread | lib/threads.c:414-424 | The lowest free slot |
| Scheduler.Wayca.FindFreeGroup | lib/threads.c:429-439 | The lowest free slot |
| Scheduler.Wayca.CreateThread | lib/threads.c:514-533 | The call, on linked records and arrays, does what its specification says and keeps what every call keeps |
| Scheduler.Wayca.FreeThread | lib/threads.c:590-597 | Takes the load off and frees the slot |
| Scheduler.Wayca.JoinThread | lib/threads.c:645-668 | As CreateThread, for joining |
| Scheduler.Wayca.AttachThread | lib/threads.c:890-920 | As CreateThread, for attaching a thread, with the old load restored on refusal |
| Scheduler.Wayca.DetachThread | lib/threads.c:922-939 | As CreateThread, for detaching a thread |
| Scheduler.Wayca.CreateGroup | lib/threads.c:839-859 | As CreateThread, for creating a group |
| Scheduler.Wayca.DestroyGroup | lib/threads.c:861-888 | As CreateThread, for destroying a group, with EBUSY for members |
| Scheduler.Wayca.AttachGroup | lib/threads.c:941-963 | As CreateThread, for attaching a group; a refused attach leaves the library as it was |
| Scheduler.Wayca.DetachGroup | lib/threads.c:965-983 | As CreateThread, for detaching a group from another one |
| Scheduler.Wayca.SetAttribute | lib/threads.c:762-787 | As CreateThread, for a new attribute, with the old one restored on failure |
| Locks.RunKeeps | lib/threads.c:755-980 | In every interleaving no mutex has two owners, and a run makes at most the steps of its programs |
| Locks.Nested | lib/threads.c:956-960 | A caller has the first mutex of its section whenever it has or takes the second |
| Locks.DeadlockStays | lib/threads.c:956-960 | Callers that wait for each other's mutexes stay where they are, whatever the others do |
| Locks.Progress | lib/threads.c:956-960 | When no caller can go on, all have finished or some wait for each other in a circle |
| Locks.Finishes | lib/threads.c:755-980 | Programs that cannot deadlock finish from every state they reach |
| Locks.CanBlockIff | lib/threads.c:956-980 | Some interleaving deadlocks if and only if some callers have sections that begin with different mutexes and each end with one that another begins with |
| Locks.AscendingNeverBlocks | lib/threads.c:956-980 | Callers that take mutexes in one common order never deadlock |
| Locks.PairIff | lib/threads.c:956-980 | Two programs can deadlock if and only if one takes a mutex twice or they take two in opposite order |
| Locks.TogetherIff | lib/threads.c:776-785 | Two sections can be entered at the same time if and only if they share no mutex |
| LockOrder.HangsIff | lib/threads.c:939-983 | A call that is alone hangs if and only if it attaches a group without father to itself or detaches a group from itself |
| LockOrder.PairBlocksIff | lib/threads.c:857-983 | Two other calls can block each other for good if and only if they lock the same two groups in opposite order |
| LockOrder.OppositeBlocks | lib/threads.c:939-983 | After four calls from the initial state, detaching the inner group and attaching the outer one to it can block each other, though the second would be refused |
| LockOrder.UpwardNeverBlocks | lib/threads.c:857-983 | Calls that lock the group of smaller granularity first never block, and all finish |
| LockOrder.AcceptedNeverBlock | lib/threads.c:857-983 | In a library in order that includes all calls that would be accepted |
| LockOrder.AttributeWritesFather | lib/threads.c:776-785 | Changing the attribute of an attached group always changes its father's marks, with only the group locked |
| LockOrder.AttributeRaces | lib/threads.c:776-785 | It can be inside at the same time as a call that attaches another group to that father, and both change the father's marks |
| LockOrder.ThreadCallsLock | lib/threads.c:645-939 | The calls about threads take the mutex of every group they change |
| LockOrder.GroupCallsLock | lib/threads.c:838-983 | So do creating, destroying and detaching a group |
| LockOrder.AttachGroupLocks | lib/threads.c:956-960 | Attaching a group takes the mutexes of all groups it changes but those below it |
| LockOrder.SetAttributeLocks | lib/threads.c:776-785 | Changing an attribute takes those of all but the groups below and the father |
| Pool.RunInv | lib/threads.c:1012-1306 | Every step of the worker protocol keeps the pool's invariant over whole runs |
| Pool.WorkConserving | lib/threads.c:1065-1098 | No lost wake-up: before the stop the idle counter is the number of workers outside tasks, and the awake ones number at least the smaller of waiting tasks and idle workers |
| Pool.SignalWakesAny | lib/threads.c:1301-1302 | A signal may wake any one sleeper and nobody else |
| Pool.FirstInFirstOut | lib/threads.c:1012-1063 | Tasks start in queueing order |
| Pool.ExactlyOnePhase | lib/threads.c:1065-1098 | Each queued task is in exactly one of waiting, running, done and discarded, and run by at most one worker |
| Pool.NoneAfterStop | lib/threads.c:1071-1075 | No task starts once the pool is stopping |
| Pool.DestroyDiscards | lib/threads.c:1219-1235 | Destroy discards exactly the tasks never started; all others are done |
| Pool.StepsBounded | lib/threads.c:1065-1098 | Without new calls workers take boundedly many steps, however often they wake without reason |
| Pool.SettledMeansFinished | lib/threads.c:1219-1227 | When no worker can step, a running pool has done every task and a stopping one has let every worker go, so destroy does not hang |
| ThreadPool.TaskList.Append | lib/threads.c:1012-1034 | The circular doubly linked queue gains one task at its end |
| ThreadPool.TaskList.TakeFirst | lib/threads.c:1036-1063 | It loses its first task, or is empty |
| ThreadPool.ThreadPool.constructor | lib/threads.c:1139-1187 | A new pool is in the protocol's initial state |
| ThreadPool.ThreadPool.Submit | lib/threads.c:1297-1303 | The critical section is the protocol's queue step, and signals whenever a worker sleeps |
| ThreadPool.ThreadPool.Poll | lib/threads.c:1071-1088 | The worker's first critical section is an exit, sleep or take step |
| ThreadPool.ThreadPool.Account | lib/threads.c:1092-1094 | The second is the finish step |
| ThreadPool.ThreadPool.RequestStop | lib/threads.c:1220-1223 | The destroy call's first critical section is the stop step |
| ThreadPool.ThreadPool.DropTasks | lib/threads.c:1228-1234 | Its second is the drain step |
| Words.GenMaskBit | lib/bitops.h:36-37 | The mask expression, with its 64-bit wrap-around, selects exactly the bits from l to h |
| Words.LowMask | lib/bitops.h:85 | All ones shifted left keep exactly the bits from the shift on |
| Words.HighMask | lib/bitops.h:169 | All ones shifted right keep exactly the bits below |
| Words.SomeBit | lib/bitops.h:60-63 | A word is zero exactly when no bit is set |
| Bitops.Ffs | lib/bitops.h:60-63 | The lowest set bit, or 64 |
| Bitops.Fls | lib/bitops.h:67-70 | The highest set bit, or 64 |
| Bitops.FindNextInWords | lib/bitops.h:75-100 | The word loop returns the first wanted bit at or after start, or the size |
| Bitops.FindNextBit | lib/bitops.h:102-117 | The first set bit at or after the offset, or the size, by mask or by loop |
| Bitops.FindNextZeroBit | lib/bitops.h:119-134 | The first clear bit at or after the offset, or the size, by mask or by loop |
| Bitops.FindFirstBit | lib/bitops.h:136-155 | The first set bit or the size |
| Bitops.FindLastBit | lib/bitops.h:157-181 | The last set bit or the size |
| Bitops.FindFirstZeroBit | lib/bitops.h:183-202 | The first clear bit or the size |
| Bitops.FirstSet | lib/bitops.h:214-221 | Least CPU of the set, or -1 |
| Bitops.NextSet | lib/bitops.h:232-239 | Least CPU of the set after a position, or -1: the step the allocator's loops iterate with |
| Bitops.LastSet | lib/bitops.h:223-230 | Greatest CPU of the set, or -1 |
| Bitops.FirstUnset | lib/bitops.h:205-212 | Least CPU outside the set, or -1 |
| CpuScan.FindFrom | lib/bitops.h:232-239 | The least member at or after a position, or -1 |
| CpuScan.FindBelow | lib/bitops.h:223-230 | The greatest member below a position, or -1 |
| Irq.HexToBinMeans | lib/bitops.h:46-54 | The value is the place of the digit, in either case, among the hex digits, or -1 for any other character |
| Irq.Print | lib/irq.c:44-74 | The text denotes exactly the mask's low bits as a number and always fits the caller's buffer; counted from its end every ninth character is a comma and all others are lower-case hex digits, and it begins with the highest chunk that is not zero, or the lowest, in eight digits or as many as the bits of the mask's top chunk need |
| Irq.Parse | lib/irq.c:76-111 | Succeeds exactly on a line of hex digits and commas, and stores the number it denotes; writes past the set if and only if the line ends in more digits than the set holds; with length 0 returns the pending error and stores nothing |
| Irq.ZerosOverrun | lib/irq.c:76-111 | A line of 257 zeros is such a line |
| Irq.RoundTrip | lib/irq.c:44-111 | For every mask and width from 1 to 1024 parsing the printed line gives back exactly the bits below the width |
| Counter.Values | lib/topo.c:386-391 | The values of a 32-bit counter are exactly the 32-bit numbers congruent to its start modulo the greatest power of two in the step |
| Counter.EndsIff | lib/topo.c:386-391 | It reaches a bound if and only if the greatest of them does, also after wrapping around |
| CpuList.NumberExact | lib/topo.c:327-338 | A number is read as written if and only if it has 32 bits |
| CpuList.ReadItem | lib/topo.c:363-382 | The pointer comparisons tell the three item forms apart, whatever follows in the list; numbers are cut to 32 bits, and longer than 64 bits refused |
| CpuList.MarkRange | lib/topo.c:386-391 | If the loop ends it marks exactly the values the counter had, as far as the set has room, or reports a CPU beyond it |
| CpuList.RangeExact | lib/topo.c:386-391 | It does what the range means if and only if the greatest member plus the stride has 32 bits, or with fail the greatest member is past the set, or without fail the counter ends and all values it has after wrapping are past the set |
| CpuList.RightWhenFine | lib/topo.c:386-391 | For strides up to the set's size, and for all ranges whose first wrapped value is in the set, that is one comparison: the greatest member plus the stride has 32 bits, or with fail the greatest member is past the set |
| CpuList.ItemExact | lib/topo.c:340-397 | Every item, its numbers of any length, is treated as it means if and only if a condition on the numbers written and on what they are cut to holds: a refused item is no range; an accepted one is one, its cut range is looped over as it means, and the two ranges agree below the set's size, told from their first members and the one after the last; with fail the past-the-set cases are told apart |
| CpuList.ShortExact | lib/topo.c:340-397 | An item of 32-bit numbers is treated as it means if and only if it is no range or its loop is |
| CpuList.OneExact | lib/topo.c:340-397 | A single number of any length is treated as it means under an exact condition on the number, the set and fail |
| CpuList.LastCpuHangs | lib/topo.c:386-391 | The list 4294967295 never ends |
| CpuList.CutMarksZero | lib/topo.c:332 | The list 4294967296 marks CPU 0 |
| CpuList.CutMarksRange | lib/topo.c:332 | The list 4294967296-4294967300 marks CPUs 0 to 4 |
| CpuList.WrapsAndEnds | lib/topo.c:386-391 | The list d-d:4294967295, for every number d below 2^32 - 1, wraps around, ends, and marks all CPUs up to d |
| CpuList.Parse | lib/topo.c:348-397 | A list whose items do not hang the parser yields what its items do one after the other: their marks, or the code of the first that is refused |
| CpuList.ListRight | lib/topo.c:340-397 | If each item is treated as it means, so is the list |
| CpuList.AcceptedUnion | lib/topo.c:340-397 | A list that is accepted means the union of its ranges below the set size |
| MaskList.ReadRange | lib/threads.c:44-52 | Reads first, last and stride of an item, and whether a number was too long |
| MaskList.MarkAll | lib/threads.c:61-62 | The loop marks the strided range from the first number cut to an int, as far as the mask has room |
| MaskList.AcceptedIff | lib/threads.c:53-60 | An item is accepted exactly if its numbers have 64 bits, the last is a CPU of the machine, and twice the stride is at most the CPU count less two |
| MaskList.MarksExact | lib/threads.c:61-62 | An accepted item marks its members if and only if its first number has 32 bits or is cut to one past the range or past the mask |
| MaskList.NeverEndsIff | lib/threads.c:53-62 | The loop over an accepted item stays in the range for ever if and only if the stride is 0 and the first number, cut to an int, is in the range |
| MaskList.ZeroStrideStalls | lib/threads.c:53-62 | The list 0-3:0 passes the checks on every machine with at least four CPUs and never ends |
| MaskList.CutMarksFour | lib/threads.c:53-62 | The list 4294967296-3 passes them too and marks CPUs 0 to 3, though the range is empty |
| MaskList.RefusedSilently | lib/threads.c:53-67 | The list 0-5 is refused on machines with at most five CPUs, marks nothing and returns 0 |
| MaskList.ListToMask | lib/threads.c:34-68 | A list whose accepted items do not stall yields the marks of the items before the first refused one, and reports that one only if a number was too long |
| MaskList.BothParsers | lib/threads.c:34-68 | Both parsers give the union of every list of ranges of the machine's CPUs |
| Prune.FindNode | tools/wayca-sc-info/wayca_sc_topo.c:977-994 | The first match in document order, or none exists |
| Prune.UnlinkFilter | tools/wayca-sc-info/wayca_sc_topo.c:1004-1008 | Unlinking a first match leaves the filtered tree the same and shrinks the tree |
| Prune.FilterKeeps | tools/wayca-sc-info/wayca_sc_topo.c:1004-1008 | In document order, exactly the nodes without match at or above them are kept, each as deep as before |
| Prune.OutlineTells | tools/wayca-sc-info/wayca_sc_topo.c:1004-1008 | Depths and labels in document order tell the whole tree |
| Prune.ParentsKept | tools/wayca-sc-info/wayca_sc_topo.c:1004-1008 | The parent of each kept node is its old parent |
| Prune.DeleteAll | tools/wayca-sc-info/wayca_sc_topo.c:996-1009 | Repeated search and unlink ends; what is left has no match and is, in document order, exactly the nodes without match at or above them |
| Chase.Fill | tools/wayca-memory-bench/wayca-memory-bench.c:306-319 | The list is one cycle through all slots and untouched elsewhere |
| Chase.Init | tools/wayca-memory-bench/wayca-memory-bench.c:292-319 | The same for every buffer of at least one stride and stride divisible by 8 |
| Chase.Walk | tools/wayca-memory-bench/wayca-memory-bench.c:421-446 | The walk makes 16 times as many hops as slots, hop n landing on slot n modulo the count, and ends at slot 0 |
| Chase.LapDistinct | tools/wayca-memory-bench/wayca-memory-bench.c:421-446 | Hops less than a lap apart land on different slots, wherever the lap begins |
| Spread.SpreadCpus | tools/functions.c:26-40 | An error exactly for more jobs than cores; else job i gets the whole part of cores*i/jobs, so the cores increase strictly inside the range, floor or ceiling of the even distance apart |
| Spread.CeilIsShare | tools/functions.c:70 | Dividing what remains over the nodes that remain gives each node its even share |
| Spread.SpreadNumas | tools/functions.c:60-82 | Shares are floor or ceiling of the average and add up to all jobs; each node's cores are its own, each the whole part of its even distance, or an error exactly when its share exceeds them |
| Spread.NodeByNode | tools/functions.c:44-72 | Each node's cores begin where those of the node before it end |
| Spread.NodesApart | tools/functions.c:75 | Cores of different nodes never coincide when a node's allowed clusters are its own |
| Calibration.Breakpoint | tools/wayca-calibration/wayca_calibration.py:675-690 | Resumes at the cell after the last data line, or writes a new header |
| Calibration.Attempt | tools/wayca-calibration/wayca_calibration.py:779-798 | An attempt killed after any number of cells leaves the next cells in order |
| Calibration.Calibrate | tools/wayca-calibration/wayca_calibration.py:651-690 | However often it is killed, data line k holds pair (k div cnt, k mod cnt), and the table is complete once the attempts add up |

## Left out

- Interleavings of two calls' memory accesses: each call is one atomic step, except that `Locks` and `LockOrder` interleave the group mutexes it takes, those of the state it starts in.
- The mutexes of the load table and of the thread, group and pool tables: no other mutex is taken while one of them is held.
- Scheduler.Wayca.AttachGroup: does not cover attaching a group without father to itself, which blocks on the group's own lock.
- Scheduler.Wayca.DetachGroup: does not cover detaching a group from itself, which blocks on the group's own lock.
- Scheduler.Wayca.AttachThread: does not cover a group of single CPUs with none unclaimed, where the original reads outside its table.
- Theorems.RunContainment: covers runs of orderly calls, since after any other call the library is not in order.
- Theorems.RootsKept: covers calls on a library in order.
- Attributes.AttributeContains: covers the call on a library in order.
- Detach.AnyOrderWithinCapacity: compact groups with several CPUs per block are not covered, since members leaving in any order can leave several partly claimed blocks there.
- Detach.NestedDetachRestores: scattered per-CPU groups with several CPUs per block are not covered, since there detaching does not undo attaching.
- Sessions.SessionFollows: covers runs in which the group itself is not re-placed, which gives it new CPUs and all its members new seats.
- The fields `stride` and `topo_hint` and the count of CPUs a group asks its father for: they do not influence placement.
- `wayca_sc_thread_set_attr`, which is deprecated and adds load without taking the old load off, and process attach, which adds a thread like the create call.
- Failing system calls and `malloc`: thread creation fails only when the table is full.
- Pool.WorkConserving: assumes no queue call after the stop, the race the code itself notes.
- CpuList.Parse: covers the texts of lists that do not hang it; what the parser makes of other texts is not modelled.
- MaskList.ListToMask: covers the texts of lists that do not stall it, on machines whose CPUs fit a `cpu_set_t`.
- Prune.DeleteAll: does not cover a root that itself has the deleted name, which the original frees and then searches from.
- Chase.Init: fixed stride only; with random access the probing step does not wrap around.
- Chase.Walk: does not model the loop counter's `int` range.
- Spread.SpreadCpus: exact quotients in place of doubles.
- Calibration.Attempt: a cell's two file writes are one step, and an attempt is killed between cells only.
- sysfs and procfs reading, device discovery, memory binding and the `thread_bind_*` and `process_bind_*` wrappers: thin layers over system calls.
- The daemon, the deployers, `managed_threads.c`, the interrupt dump and the kernel module: sockets, processes and configuration text.
- Building, validating and printing XML.
