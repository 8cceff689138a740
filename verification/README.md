# A verified model of the JOS kernel and of the process sieve

The project models the teaching kernel in `TPs/Sched` (virtual memory, copy-on-write fork, the big kernel lock and the
scheduler, user page faults, IPC, and four small algorithms) and the process-pipeline sieve in `TPs/Fork/primes.c`, and
proves what they are for: laws over every input, every reachable state or every interleaving.

## How it is organised

**Virtual memory** (`mmu`, `vm_store`, `vm_view`, `vm_steps`, `vm_teardown`, `kernel`, `kernel_ipc`, `kernel_calls`,
`kernel_runs`, `kernel_errors`, `self_map`, `perm_bits`, `env_id`). `KernelVm.Kernel` is a class whose fields are the
kernel's own: the `pages` array with `pp_link` and a 16-bit `pp_ref`, the free-list head, the words of physical memory
and `envs[]`. Page tables live in that memory. The invariant `View.Ok` says that every count equals the number of
references (user entries, directory entries, `env_pgdir`s) to the page, that free pages are unreferenced and on an
acyclic list, and that tables are private. Every operation is proved against the flat map `(env, page number) -> (page,
flags)`, `FlatOf`, with the free list it leaves and the set `View.Lost` of managed pages that are neither free nor
referenced. `kernel_runs` puts all calls together into runs of any length, with laws that name no operation: who can
come to write a page, whose address space a call may change, and that words change only by stores. `kernel_errors` has
the errors as the comments list them.

**Copy-on-write fork** (`cow`, `cow_steps`, `cow_runs`, `cow_return`, `cow_perms`, `cow_fork`, `cow_kernel`,
`cow_system`). `lib/fork.c` as a machine whose steps are reads of `uvpt`, system calls and single words of `memmove`,
with any live environment taking the next step. The partner is an eager machine with private pages, and with rights of
its own to each (`cow_perms`). `cow_kernel` runs `duppage` and `pgfault` as calls on the kernel class itself;
`cow_system` carries out whole interleaved runs on it, so that what each environment reads through the kernel's page
tables is what the eager machine holds.

**Processors and scheduling** (`smp`, `smp_reach`, `smp_status`, `sched`). `Smp` has the spin lock access by access, the
trap and yield paths, and the environment status machine on any number of CPUs; `SmpReach` has runs from boot to the
states where it breaks, `SmpStatus` what becomes of each environment. `Sched` has the two scans as loops, and runs of
them.

**User page faults** (`upcall`, `upcall_nest`), byte-addressed because the first frame is not aligned; handlers that
fault again form a tree. **IPC** (`ipc`). **The sieve** (`sieve_math`, `sieve`, `sieve_runs`): any number of processes,
FIFO pipes of any capacity, descriptors closed one call at a time. **Small algorithms**: `partition`, `stab`,
`print_parse`.

## What was found

- `sys_page_map` never calls `check_perm`. Bits of `perm` above the low twelve are or-ed into the page number; the call
  keeps the counting invariant if and only if they are set there already (`PermBits.SamePageIff`,
  `KernelVm.Kernel.SysPageMap`; `PermBits.StrayBit` is an input).
- `pp_ref` has 16 bits; mapping a page with a full count breaks the invariant, unless it is there already
  (`KernelVm.Kernel.PageInsert`, `KernelVm.Kernel.SysPageMap`, `KernelIpc.SysIpcTrySend`).
- `env_page_alloc` keeps its page when `page_insert` fails: free implies unreferenced, not conversely. A call loses a page
  if and only if it is an allocation, or a message with a page, with good arguments that finds one free page and needs a
  second one for the table; the pages lost in a run are exactly the free pages these calls found (`KernelRuns.Step`,
  `KernelRuns.Run`).
- The guard of `pgfault` is always zero (`PgfaultGuard.GuardNeverFires`), so a write to a plain read-only page also ends
  in a private writable copy (`CowFork.HandlerCompletes`).
- `duppage` has two windows. If the page was not writable at its first call, the child gets the page of that moment and
  not that of the return; the two differ exactly when the parent has changed the page in between
  (`CowRuns.CowCopiesInEffect`, `CowReturn.ReturnIff`, `CowFork.UntimelyReachable`). If the page was plainly read-only
  when `duppage` read its entry and the parent has stored to it before the call, parent and child end up sharing a page
  that the parent can write (`CowReturn.StaleIff`, `CowReturn.StaleLeaks`, `CowFork.StaleReachable`). Without either,
  fork is exact (`CowReturn.CowRefinesEager`).
- `sys_env_set_status` and IPC sends can be aimed at an environment another CPU is running, and `env_destroy` at one that
  is already DYING; these are exactly the calls that break the status machine (`Smp.PoliteExact`), and runs from boot
  reach them (`SmpReach.SecondCpuReachable`, `SmpReach.SlotReusedReachable`).
- The scheduler's start index is NENV for slot NENV-1. With nothing to find the loop then does not end
  (`Sched.ScanEndsIff`), and otherwise slot 0 comes last: with slots 0, 1 and NENV-1 busy, slot 0 never runs
  (`Sched.StarvingRun`; `Sched.ZeroServedIff` is the exact condition). All other slots wait boundedly
  (`Sched.BoundedWaiting`).
- The priority scan stops at its first hit, so it is not the search for the best priority that `TPs/Sched/sched.md`
  describes. `Sched.WorseTaken` is an input where a better slot is passed over, and `Sched.BestIff` says when the two
  agree. The boost comes every ten switches, not every ten calls of the scheduler as that file says.
- A fault with the stack pointer at UXSTACKTOP or up to two bytes above is treated as non-recursive and loses its return
  address but for a coincidence (`Upcall.UnwindIff`).
- `sys_ipc_recv` sets `env_ipc_recving` before it checks its argument, and a later message can be lost; a receiver woken by
  `sys_env_set_status` returns a message nobody sent (`Ipc.GoodCallIff`, `Ipc.RefusedRecvLoses`, `Ipc.WokenReadsStale`).
  `sys_ipc_recv` also refuses addresses from UTOP up, which its comment allows (`KernelIpc.SysIpcRecv`).
- `sys_ipc_try_send` looks through an uninitialised pointer when the sender's address is not mapped. If that does not stop
  it, the receiver's page is replaced by an empty one and the send is then refused (`KernelIpc.RefusedSendReplaces`). A
  receiver that asked for address 0 gets no page, and keeps its old `env_ipc_perm` (`Ipc.PermIff`).
- `stab_binsearch` reports "not contained" as left > right only if there is no entry of the type
  (`StabSearch.NotContained`); when addr and addr+1 both occur it may go on to a later entry, and
  `StabSearch.SearchSound` bounds how far.

## Model

| member | source | states |
|---|---|---|
| KernelVm.Kernel.PageInit | TPs/Sched/kern/pmap.c:291-332 | The free list is acyclic and holds exactly the pages outside the reserved ranges, once each, all with count 0. |
| KernelVm.Kernel.EnvInit | TPs/Sched/kern/env.c:114-128 | Every slot is free and the list threads the slots in increasing order. |
| KernelVm.Kernel.MemInit | TPs/Sched/kern/pmap.c:291-332 | From cleared arrays and a kern_pgdir with an empty user half, the machine invariant holds, no user address is mapped and no page is lost. |
| KernelVm.InitiallyFreeIff | TPs/Sched/kern/pmap.c:291-332 | In addresses: the pages put on the list are those that hold neither address 0, MPENTRY_PADDR, the stretch from IOPHYSMEM to EXTPHYSMEM, nor the kernel. |
| KernelVm.Kernel.PageAlloc | TPs/Sched/kern/pmap.c:346-360 | Takes exactly the first free page, or NULL exactly when there is none; nobody but the caller has the page then; no translation, count or table changes; with ALLOC_ZERO the page reads as zeros. |
| KernelVm.Kernel.PageFree | TPs/Sched/kern/pmap.c:366-377 | An unreferenced page goes to the front of the list; the two panics are unreachable under its precondition, which every caller meets. |
| KernelVm.Kernel.PageDecref | TPs/Sched/kern/pmap.c:383-388 | The count falls by one and the page is freed exactly when the count was one. |
| KernelVm.Kernel.PgdirWalk | TPs/Sched/kern/pmap.c:412-429 | Returns the entry of va, or NULL exactly when the table is missing and cannot be made; creates at most one table and changes no translation. |
| KernelVm.Kernel.PageLookup | TPs/Sched/kern/pmap.c:518-532 | The page the flat map gives for va, or NULL exactly when it gives none. |
| KernelVm.Kernel.PageRemove | TPs/Sched/kern/pmap.c:549-568 | Deletes the translation of va alone, in all address spaces; the page goes to the front of the free list exactly when this was its last reference; no page is lost. |
| KernelVm.Kernel.PageInsert | TPs/Sched/kern/pmap.c:489-505 | For every perm and every count: after a success the invariant holds if and only if the bits of perm above the low twelve are set in the page number and the 16-bit count has room or the page is there already; va alone then maps the page, the free list is exact and no page is lost. Failure changes nothing. |
| VmSteps.InsertChain | TPs/Sched/kern/pmap.c:489-505 | Walk, count up, remove, store: together they are one change of the flat map with all counts and the free list exact, also when the page replaces itself; no page is lost. |
| VmSteps.StrayChain | TPs/Sched/kern/pmap.c:489-505 | If the word stored names another page than the one counted, or the count was full, the invariant does not hold afterwards. |
| VmSteps.HangTable | TPs/Sched/kern/pmap.c:412-429 | Hanging a cleared table under an empty directory slot keeps the invariant and the flat map. |
| VmSteps.ClearEntry | TPs/Sched/kern/pmap.c:549-568 | Clearing an entry and dropping the reference keeps the invariant and deletes one translation. |
| KernelVm.PresentIffNonzero | TPs/Sched/kern/pmap.c:518-568 | On every user entry the nonzero test, the present-bit test and being mapped agree. |
| KernelVm.MappedIsData | TPs/Sched/kern/pmap.c:489-505 | A page mapped for a user is managed, not free, and never a page table or directory. |
| KernelVm.Kernel.EnvSetupVm | TPs/Sched/kern/env.c:161-195 | The first free page becomes the directory: the words of kern_pgdir and the self-map; translations stay, no page is lost, and it fails exactly without a free page. |
| KernelVm.Kernel.EnvAlloc | TPs/Sched/kern/env.c:205-267 | Takes the first free slot and the first free page, gives the slot its next id and an empty address space, or fails without changing anything; no page is lost. |
| KernelVm.Kernel.EnvFree | TPs/Sched/kern/env.c:407-454 | Counts fall by the environment's own references, exactly the pages, tables and directory only it referenced are freed, all other translations stay. |
| KernelVm.Kernel.FreeTable | TPs/Sched/kern/env.c:425-444 | One round of the outer loop drops exactly the references of one table and the table itself. |
| VmTeardown.TearDownDone | TPs/Sched/kern/env.c:407-454 | Dropping all references of one environment, one by one, adds up to the conservation law of env_free. |
| VmTeardown.TornDownLost | TPs/Sched/kern/env.c:407-454 | No page is lost by env_free, and none that was is found again. |
| KernelVm.Kernel.EnvPageAlloc | TPs/Sched/kern/syscall.c:46-58 | The exact result, check_perm included; on success the first free page is mapped and reads as zeros and the free list is exact. A page is lost if and only if there is one for the caller but none for the table, and then it is that one. |
| KernelVm.Kernel.SysPageAlloc | TPs/Sched/kern/syscall.c:227-246 | The same, with the tests of the arguments in their order; on failure no translation and no used page changes. |
| KernelVm.Kernel.EnvPageMap | TPs/Sched/kern/syscall.c:61-73 | The exact result; whether the invariant holds after a success, as an if and only if on perm and the count; then the source page is inserted. |
| KernelVm.Kernel.SysPageMap | TPs/Sched/kern/syscall.c:264-291 | The exact result. After a call that succeeds the invariant holds if and only if the unchecked bits of perm are set in the page number and the count is not full; dstva then maps the source page, the free list is exact, no page is lost and nothing else changes. |
| KernelVm.Kernel.SysPageUnmap | TPs/Sched/kern/syscall.c:300-316 | Unmaps va alone, or fails on exactly the bad arguments; the page is freed with its last reference, and none is lost. |
| KernelVm.Kernel.SysExofork | TPs/Sched/kern/syscall.c:137-157 | The first free slot becomes a blocked environment with a fresh id, this parent, no pages and the first free page as directory; no other environment, translation or used page changes; exact errors. |
| KernelVm.Kernel.SysEnvSetStatus | TPs/Sched/kern/syscall.c:166-186 | Exact result; only the status of the target changes. |
| KernelVm.Kernel.SysEnvDestroy | TPs/Sched/kern/syscall.c:110-124 | The target's pages are conserved as in env_free, and none is lost. |
| KernelVm.Kernel.UserStore | TPs/Sched/inc/mmu.h:57-60 | What the PTE_P and PTE_W bits promise: a user store faults exactly when the flat map gives no writable page, and otherwise changes one word of that page and no table. |
| KernelIpc.Transfer | TPs/Sched/kern/syscall.c:383-393 | The page transfer of a send, both calls together: the exact result; the invariant holds afterwards if and only if the count of the sender's page had room; the page that arrives, the free list and the page lost, if any; all other mapped pages keep their words. |
| KernelIpc.TransferDone | TPs/Sched/kern/syscall.c:383-393 | The fresh page that env_page_alloc put there goes back to the free list when the sender's page takes its place. |
| KernelIpc.FitsThen | TPs/Sched/kern/syscall.c:383-393 | Putting the fresh page there first does not change whether the count has room. |
| KernelIpc.SysIpcTrySend | TPs/Sched/kern/syscall.c:356-402 | The exact result for every argument; the receiver, which was receiving, is RUNNABLE with the value, the sender's id and the flag cleared; and the pages as in the transfer. |
| KernelIpc.RefusedSendReplaces | TPs/Sched/kern/syscall.c:370-393 | A refused send has replaced the receiver's page if and only if nothing is mapped at the sender's address, perm is good, there is memory, and it is not the receiver's own address. |
| KernelIpc.SysIpcRecv | TPs/Sched/kern/syscall.c:413-426 | Blocks if and only if the address is below UTOP and page-aligned; the receiving flag is set in any case. |
| KernelIpc.Exchange | TPs/Sched/kern/syscall.c:356-426 | Receive and send together: if the send succeeds the receiver's fields hold value, sender and flags, the page it asked for at its address is the sender's, with these flags, and without a page no mapping changes. |
| KernelRuns.Step | TPs/Sched/kern/syscall.c:110-426 | Any call by any environment breaks the counting law if and only if it maps a page with a full count where it is not yet, or with a perm that names another page; otherwise flat map, free list and environments are as the call says, it loses a page if and only if it is an allocation or a message that finds one page and needs two, nobody comes to write a page that nobody could write unless it is fresh, no stranger's address space changes, and no word but by a store. |
| KernelRuns.Run | TPs/Sched/kern/syscall.c:110-426 | For every sequence of calls, up to the first that breaks the law: after each call counts equal references, free pages are unreferenced and the list has no duplicate, and the pages lost are exactly the first free pages at the calls that lose one. A run stops early only after a breaking call, and the law does not hold then. |
| KernelRuns.LostAdds | TPs/Sched/kern/syscall.c:46-58 | The pages lost add up over a run, and none is found again. |
| KernelCalls.RightsKept | TPs/Sched/kern/syscall.c:61-73 | If a page is writable at some address after a call, it was writable at some address before, or it was the first page of the free list. |
| KernelCalls.CallIsolated | TPs/Sched/kern/env.c:79-106 | A call changes no address space and no environment but the caller's, its children's, and that of a receiver it sends to. |
| KernelCalls.SentSafe | TPs/Sched/kern/syscall.c:378-393 | A message keeps the words of every page that stays mapped. |
| KernelRuns.RightsOverRun | TPs/Sched/kern/syscall.c:61-73 | Over runs: a page that is writable at the end was writable at the start, or was handed out fresh in between. |
| KernelRuns.IsolatedOverRun | TPs/Sched/kern/env.c:79-106 | Over runs: an address space changes only by calls of its environment, of its parent, or of a sender to it. |
| KernelRuns.ReadOnlyStays | TPs/Sched/kern/syscall.c:61-73 | Over runs: a page that nobody can write keeps its words as long as it stays mapped somewhere. |
| KernelRuns.MapBreaks | TPs/Sched/kern/syscall.c:264-291 | Decides from the tables and counts before a map call whether it will break the law. |
| KernelRuns.SendBreaks | TPs/Sched/kern/syscall.c:356-402 | The same for a message. |
| KernelRuns.OkAccounts | TPs/Sched/kern/pmap.c:346-388 | The invariant is the counting law: user entries plus directory entries plus env_pgdirs. |
| KernelErrors.NamesExact | TPs/Sched/kern/env.c:79-106 | envid2env finds an environment if and only if the id names it: 0 the caller, otherwise the id of a live environment which, where permission is asked for, is the caller or its child. |
| KernelErrors.AllocErrors | TPs/Sched/kern/syscall.c:220-246 | Each error of sys_page_alloc if and only if its reason is there, in terms of address, id, perm bits and free pages, and no other. |
| KernelErrors.MapErrors | TPs/Sched/kern/syscall.c:250-291 | The same for sys_page_map, in terms of the flat map; inappropriate perm bits, which the comment lists, are no error. |
| KernelErrors.SendErrors | TPs/Sched/kern/syscall.c:338-386 | The same for sys_ipc_try_send, up to the transfer. |
| PermBits.EntryWordSplit | TPs/Sched/kern/pmap.c:489-505 | The word page2pa(pp) OR perm OR PTE_P names the page whose number has the high bits of perm or-ed in; its flags are the low twelve with PTE_P. |
| PermBits.SamePageIff | TPs/Sched/kern/syscall.c:264-291 | It names the intended page if and only if those bits are set in its number. |
| PermBits.StrayBit | TPs/Sched/kern/syscall.c:264-291 | A perm with one bit too many maps the next page. |
| PermBits.SyscallBitsIff | TPs/Sched/inc/mmu.h:56-75 | The test for PTE_SYSCALL lets exactly the bits of PTE_AVAIL, PTE_P, PTE_W and PTE_U pass. |
| PermBits.WithUPIsOr | TPs/Sched/kern/syscall.c:246-246 | perm with PTE_U and PTE_P or-ed in. |
| SelfMap.UvptReachesEntry | TPs/Sched/inc/memlayout.h:150-165 | Translating UVPT+4*pn reaches the very entry pgdir_walk returns for pn. |
| SelfMap.UvpdReachesDirectory | TPs/Sched/lib/entry.S:11-14 | Translating the uvpd address reaches the directory entry itself, and uvpt faults where the table is missing. |
| SelfMap.FlatIsEffective | TPs/Sched/inc/mmu.h:57-60 | What user code may load and store below UTOP, by the flags of both levels, is exactly what the flat map says, at the address it gives. |
| SelfMap.UvptReadOnly | TPs/Sched/inc/memlayout.h:150-165 | Through the self-map user code can load the entries of every table that is there, and store to none. |
| KernelVm.EnvIdsExact | TPs/Sched/kern/env.c:72-106 | Live ids are positive, encode their slot and are distinct; envid2env accepts a nonzero id exactly when a live environment carries it and, if permission is asked for, this is the caller or its child. |
| EnvId.NextIdOk | TPs/Sched/kern/env.c:219-223 | The next id of a slot is positive and encodes the slot, also after the 32-bit wrap. |
| EnvId.IdReissued | TPs/Sched/kern/env.c:219-223 | A slot hands out the same id again exactly every 2^19 - 1 allocations. |
| CowRuns.StepKeeps | TPs/Sched/lib/fork.c:14-96 | Every step of any environment, but for duppage's call on a page it wrongly takes for read-only, keeps the sharing invariant and matches a step of the eager machine. |
| CowRuns.CowCopiesInEffect | TPs/Sched/lib/fork.c:206-251 | After every interleaved run without a call of duppage on a page it wrongly takes for read-only (`StaleIff`), each live environment has the pages and reads the words it would have if each duppage had copied its page, at its return if the page was writable at the first call and at that call if not; between calls a page mapped twice is writable nowhere. |
| CowReturn.CowRefinesEager | TPs/Sched/lib/fork.c:206-251 | In every such run, if moreover no parent stores to a page between duppage's two calls on it when the page was not writable at the first, each live environment reads what it would if every duppage had copied at the moment it returned. |
| CowReturn.ReturnIff | TPs/Sched/lib/fork.c:80-87 | When duppage returns, copying then would give the child the same page if and only if the parent's page is what it was at the first call. |
| CowReturn.UntimelyIff | TPs/Sched/lib/fork.c:80-87 | A store between the two calls leaves the child's page alone, and makes the two differ if and only if it changes the parent's. |
| CowReturn.StaleIff | TPs/Sched/lib/fork.c:68-92 | duppage's one call for a page it read as read-only keeps the invariant if and only if the page is still not writable in the parent. |
| CowReturn.StaleLeaks | TPs/Sched/lib/fork.c:68-92 | Otherwise every later store of the parent's to the page is a store to the child's. |
| CowFork.StaleReachable | TPs/Sched/lib/fork.c:61-96 | A run from a legal start that gets there. |
| CowFork.UntimelyReachable | TPs/Sched/lib/fork.c:61-96 | A run from a legal start in which that store happens and the child ends up with a different page. |
| CowFork.HandlerCompletes | TPs/Sched/lib/fork.c:14-48 | From the trap, pgfault runs through and leaves the page writable, private and with the same words, whatever kind of page it was. |
| CowFork.Fork | TPs/Sched/lib/fork.c:206-251 | Uninterrupted, the child has the parent's pages with the parent's words and rights, a fresh and writable exception stack, and an upcall exactly if the parent has one; nobody else's memory or rights change. |
| CowPerms.RightsCopied | TPs/Sched/lib/fork.c:61-96 | After every interleaved run without a stale call each live environment may write, at once or after a copy, exactly the pages it could if fork copied the rights; and every child started by a fork that has a handler can be given its page faults, and is not destroyed for one, until it replaces its exception stack or gives it up. |
| CowPerms.RightsKept | TPs/Sched/lib/fork.c:14-96 | Every step keeps the rights of all environments equal to those of the eager machine. |
| CowPerms.StackKept | TPs/Sched/lib/fork.c:240-243 | No step but its own allocation, unmapping or exit takes a writable exception stack from an environment. |
| CowPerms.ServedKept | TPs/Sched/lib/fork.c:240-246 | Upcall and exception stack of such a child survive every step of anybody. |
| CowSteps.StoreOrTrap | TPs/Sched/kern/trap.c:345-377 | A store to a mapped page goes through if the page is writable; otherwise the handler gets it if there is an upcall and the exception stack can be written, and if not the environment is destroyed. |
| CowSteps.NextEnabled | TPs/Sched/lib/fork.c:14-251 | No live environment is ever stuck: its next step of pgfault or fork can be made, given a free page where one is needed, and outside both every call. |
| CowFork.DupPage | TPs/Sched/lib/fork.c:61-96 | One turn of the loop clones exactly one page, or none if there is none or it is the exception stack. |
| CowKernel.MapSame | TPs/Sched/kern/syscall.c:61-73 | The mapping call duppage makes changes one entry of the kernel's flat map as the machine's step does, and no words of any mapped page. |
| CowKernel.DupPage | TPs/Sched/lib/fork.c:61-96 | On the kernel's page tables, duppage reads the entry, chooses between two calls and one, and ends in the state of the machine's steps; it fails exactly when the child needs a table and there is no page, and has then changed nothing. |
| CowKernel.CopyPage | TPs/Sched/lib/fork.c:41-42 | memmove through the page tables copies the whole page to PFTEMP's page and changes nothing else. |
| CowKernel.PgFault | TPs/Sched/lib/fork.c:14-48 | The four steps on the kernel end where the machine's handler ends, with the first free page as the private copy; they fail exactly when there is no page for the copy or for PFTEMP's table, and every mapping and its words are then as before. |
| CowSystem.Step | TPs/Sched/lib/fork.c:14-96 | Every step of the machine is made by the kernel exactly when it has the page, the slot and the room for it; page tables, memory and environments then follow the machine, and otherwise stay. |
| CowSystem.Run | TPs/Sched/lib/fork.c:206-251 | For every interleaved run without such a call of duppage, as far as the kernel can follow: what each live environment reads through the kernel's page tables is what the eager machine holds; PTE_W or PTE_COW is set exactly where the eager machine has the right to write; and the exception stack of every started child is mapped with PTE_W. |
| CowSystem.FirstEnv | TPs/Sched/kern/env.c:205-267 | A kernel without mappings and its first environment are a state to start from. |
| CowSteps.SharedIsReadOnly | TPs/Sched/lib/fork.c:61-96 | Outside pgfault and duppage, a page with a second mapping is writable in neither. |
| PgfaultGuard.GuardNeverFires | TPs/Sched/lib/fork.c:27-29 | The guard of pgfault is zero for every error code and entry. |
| Smp.StepInv | TPs/Sched/kern/spinlock.c:60-124 | Whichever CPU takes the next lock access, trap, yield, run, halt, destroy or exofork step, lock and status invariants hold; the calls `PoliteExact` names are excepted. |
| Smp.SmpSafe | TPs/Sched/kern/env.c:461-531 | In every run on any number of CPUs in which set_status, wake-ups and destroy are not aimed at another CPU's environment or a DYING one (`PoliteExact`): one lock holder, `holding` exact, no panic, no environment current twice, RUNNING or DYING only while current. |
| Smp.LockExcl | TPs/Sched/kern/spinlock.c:60-81 | Each access of spin_lock keeps ownership exact and does not panic. |
| Smp.UnlockExcl | TPs/Sched/kern/spinlock.c:84-124 | Each access of spin_unlock keeps ownership exact and does not panic; the owner field is cleared before the lock. |
| Smp.EntryInv | TPs/Sched/kern/trap.c:256-285 | Trap entry frees a zombie and otherwise finds a live current environment. |
| Smp.NoPickInv | TPs/Sched/kern/sched.c:92-155 | With nothing RUNNABLE, going on with the current environment or halting keeps all invariants. |
| Smp.EnvRunInv | TPs/Sched/kern/env.c:495-531 | Switching to a RUNNABLE environment gives it to this CPU alone. |
| Smp.DestroyInv | TPs/Sched/kern/env.c:461-478 | Destroying an environment that is not DYING keeps all invariants. |
| Smp.PoliteExact | TPs/Sched/kern/syscall.c:166-186 | set_status, wake-up and destroy keep the invariants if and only if they are not aimed at another CPU's current environment, or at a DYING one. |
| SmpReach.SecondCpu | TPs/Sched/kern/syscall.c:166-186 | From every state with such a set_status: the caller returns, traps again and yields, and the scheduler gives the environment a second CPU. |
| SmpReach.SecondCpuReachable | TPs/Sched/kern/syscall.c:166-186 | A run from the boot of two CPUs that gets there, one system call a trap. |
| SmpReach.SlotReusedWhileRunning | TPs/Sched/kern/env.c:461-478 | From every state with a second destroy of a running environment: the caller's next call may hand out its slot. |
| SmpReach.SlotReusedReachable | TPs/Sched/kern/env.c:461-478 | A run from the boot of two CPUs that gets there, one system call a trap. |
| SmpStatus.PickEffect | TPs/Sched/kern/env.c:495-531 | Switching makes the new environment RUNNING and current, the one that loses the CPU RUNNABLE if it was RUNNING, and changes nobody else. |
| SmpStatus.ChangeHasCause | TPs/Sched/kern/env.c:461-531 | Every change of a status has its cause; NOT_RUNNABLE comes only from sys_exofork, from the environment's own blocking and from set_status. |
| SmpStatus.NeverLost | TPs/Sched/kern/env.c:495-531 | In every run an environment that is RUNNABLE or RUNNING stays so as long as it does not block itself and nobody blocks or destroys it. |
| SmpStatus.StaysBlocked | TPs/Sched/kern/syscall.c:166-186 | And one that is NOT_RUNNABLE stays so until it is woken, set RUNNABLE or destroyed. |
| SmpStatus.CallEffect | TPs/Sched/kern/syscall.c:110-186 | The status each call is for comes about; a system call that returns goes on with the environment that made it. |
| SmpStatus.IdleEffect | TPs/Sched/kern/sched.c:92-155 | With nothing RUNNABLE the CPU goes on with its own RUNNING environment, enters the monitor if and only if nothing is RUNNING or DYING anywhere, and halts otherwise. |
| SmpStatus.CpuGoes | TPs/Sched/kern/trap.c:256-330 | No CPU is ever stuck but in the monitor. |
| Sched.RoundRobinScan | TPs/Sched/kern/sched.c:37-45 | From every start the loop ends on the first RUNNABLE slot in the order of the scan, circular from inside the array; from NENV the cell after it, 1 to NENV-1, and 0 last; NULL if there is none. |
| Sched.ScanEndsIff | TPs/Sched/kern/sched.c:37-45 | The loop ends if and only if it starts inside the array or there is something to find. |
| Sched.BoundedWaiting | TPs/Sched/kern/sched.c:37-45 | In every run of yields an environment that stays RUNNABLE until it is picked is picked within as many yields as it is slots ahead, so within NENV-1, whatever else changes and whatever follows; slot 0 only if none of these yields has slot NENV-1 current and another slot RUNNABLE. |
| Sched.WaitingPossible | TPs/Sched/kern/sched.c:37-45 | Such runs exist for every slot, every other current slot and every continuation. |
| Sched.PicksZeroIff | TPs/Sched/kern/sched.c:37-45 | A yield picks slot 0 if and only if no slot above the current one is RUNNABLE, or no other at all if that is NENV-1. |
| Sched.ZeroServedIff | TPs/Sched/kern/sched.c:37-45 | With a fixed set of environments that always want to run, slot 0 runs within NENV-1 yields if and only if slot NENV-1 is not in the set together with one in between; otherwise it never runs. |
| Sched.OthersServed | TPs/Sched/kern/sched.c:37-45 | Every other slot of such a set runs within NENV-1 yields. |
| Sched.StarvingRun | TPs/Sched/kern/sched.c:37-45 | A run of any length in which slot 0 wants to run and never does. |
| Sched.PriorityScan | TPs/Sched/kern/sched.c:69-82 | From every start the scan takes the first RUNNABLE slot, in its order, whose priority is below MIN_PRIORITY. |
| Sched.Scheduler.Boost | TPs/Sched/kern/sched.c:60-67 | On every tenth switch exactly the RUNNABLE environments go back to 0. |
| Sched.Scheduler.Yield | TPs/Sched/kern/sched.c:60-99 | Choice, priorities and counters after one yield. |
| Sched.Scheduler.SetPriority | TPs/Sched/kern/syscall.c:441-454 | Refused exactly when a caller would improve its own priority or the id names nobody; otherwise sets the target's alone. |
| Sched.SameAsRoundRobinIff | TPs/Sched/kern/sched.c:69-82 | Both scans choose the same slot if and only if the first RUNNABLE slot is below MIN_PRIORITY. |
| Sched.BestIff | TPs/Sched/kern/sched.c:69-82 | Against the cyclic search for the best priority that sched.md describes: the scan takes a slot of the best priority, and then the same one, if and only if all RUNNABLE slots it comes to before are at MIN_PRIORITY or worse. |
| Sched.BelowBestIff | TPs/Sched/kern/sched.c:69-82 | With priorities below MIN_PRIORITY, if and only if the slot round robin would choose is one of the best. |
| Sched.WorseTaken | TPs/Sched/kern/sched.c:69-82 | An input where a better RUNNABLE slot is passed over. |
| Sched.PriorityIsRoundRobin | TPs/Sched/kern/sched.c:60-88 | In every run whose priorities are set below MIN_PRIORITY each yield chooses as round robin, finds a slot exactly when one is RUNNABLE, takes a best one exactly when round robin would, and always right after a boost. |
| Sched.BoostedEveryTen | TPs/Sched/kern/sched.c:60-67 | While ten switches happen every RUNNABLE environment is put back to 0 at least once, or to 1 if it is the one that loses the CPU. |
| Sched.PriorityCounts | TPs/Sched/kern/sched.c:84-88 | Between two boosts a priority gets worse by exactly the number of times its environment loses the CPU, down to MIN_PRIORITY - 1. |
| Sched.SwitchesCounted | TPs/Sched/kern/sched.c:90-93 | The counter the boosts go by counts exactly the yields that switch. |
| Sched.StartsBest | TPs/Sched/sched.md:16-18 | Every environment starts with priority 0, and set_priority sets what it is given, for nobody else. |
| Upcall.PageFaultHandler | TPs/Sched/kern/trap.c:346-377 | The steps of the kernel write one frame, below a blank word in the recursive case, and panic exactly on overflow; the frame holds the faulting address, the error code and the trap-time state. |
| Upcall.FrameHolds | TPs/Sched/inc/trap.h:77-87 | The frame holds utf_fault_va and utf_err at its bottom and the whole trap-time state at the offsets the assembly reads. |
| Upcall.PanicIff | TPs/Sched/kern/trap.c:346-377 | It panics if and only if the fault came on the exception stack with less than 56 bytes left below the stack pointer; otherwise the frame lies on it, and directly below the blank word. |
| Upcall.Unwind | TPs/Sched/lib/pfentry.S:67-91 | Instruction by instruction, the assembly computes the registers and memory of the frame's unwinding. |
| Upcall.UnwindExact | TPs/Sched/lib/pfentry.S:67-91 | Unwinding restores general registers, eflags, eip and esp; only the word below the trap-time esp and the frame's last word change. |
| Upcall.ClearIff | TPs/Sched/kern/trap.c:363-369 | The pushed return address misses the frame if and only if esp is not UXSTACKTOP to UXSTACKTOP+2. |
| Upcall.UnwindIff | TPs/Sched/lib/pfentry.S:67-91 | For every trap-time esp, unwinding restores the whole state if and only if esp is not UXSTACKTOP to UXSTACKTOP+2, or the overwritten bytes of eip happen to be the same. |
| UpcallNest.FaultRestores | TPs/Sched/lib/pfentry.S:34-91 | At any nesting depth a fault is followed by the very state it happened in, the reserved word holds the return address, and nothing from the trap-time esp up changes. |
| UpcallNest.HandlerKeeps | TPs/Sched/kern/trap.c:346-377 | However often a handler faults, its own frame and all frames above stay intact. |
| UpcallNest.HandlerFinds | TPs/Sched/lib/pfentry.S:34-66 | At its first instruction, at any depth, the handler finds its return address and an argument that points to the faulting address, the error code and the trap-time state. |
| UpcallNest.FaultTold | TPs/Sched/lib/fork.c:14-20 | Whatever the handler does below its frame, however often it faults, the frame goes on telling the same fault. |
| Ipc.StepInv | TPs/Sched/kern/syscall.c:356-426 | Every step keeps: receiving means blocked, and all sends are received but for the one in the fields. |
| Ipc.NothingLost | TPs/Sched/lib/ipc.c:22-60 | In every run with valid receive addresses and no outside wake-up of a receiver, with or without pages, the messages ipc_recv has returned are a prefix of those ipc_send has returned for, short of at most one, and no undelivered value can be overwritten. |
| Ipc.SendReturnsIff | TPs/Sched/lib/ipc.c:47-60 | ipc_send returns if and only if its message has got into the fields of a receiver; it goes on trying while the target is not receiving, and any other error ends the sender. |
| Ipc.Ledger | TPs/Sched/lib/ipc.c:22-60 | The two logs are what the callers see: the messages calls of ipc_send have returned for, and what calls of ipc_recv have returned. |
| Ipc.PermIff | TPs/Sched/kern/syscall.c:362-396 | env_ipc_perm is what the comment promises if and only if no page is offered, or the receiver did not ask for address 0, or the field was 0 before. |
| Ipc.GoodCallIff | TPs/Sched/kern/syscall.c:413-426 | A call keeps the invariant if and only if it is not a refused receive and not a set_status that wakes a receiver. |
| Ipc.WokenReadsStale | TPs/Sched/kern/syscall.c:166-186 | A receiver so woken returns a message that was not sent. |
| Ipc.RefusedRecvLoses | TPs/Sched/kern/syscall.c:413-426 | After a refused call a message is lost. |
| SieveRuns.SieveCorrect | TPs/Fork/primes.c:12-115 | For every n, pipe capacity and schedule: the run is finite, stuck only when all have ended, nobody is killed by a write, no pipe overflows, whoever has ended has outlived all processes it started, and when main ends the output is the primes up to n. |
| Sieve.StepKeepsInv | TPs/Fork/primes.c:12-81 | Every system call of any process keeps the descriptor table and the stream contents. |
| Sieve.ReaderAlive | TPs/Fork/primes.c:12-27 | A process that may still write has a reader. |
| Sieve.EofKnown | TPs/Fork/primes.c:32-38 | A pipe that reads as ended really is. |
| SieveRuns.OneWriter | TPs/Fork/primes.c:29-70 | Once its reader has started, a pipe's only write-end holder is the process upstream, until it has nothing more to send. |
| SieveRuns.NoDeadlock | TPs/Fork/primes.c:29-81 | No process can go on if and only if all have ended. |
| SieveRuns.WaitedStep | TPs/Fork/primes.c:65-70 | A process ends only after the child it has waited for. |
| SieveRuns.RunBounded | TPs/Fork/primes.c:12-81 | Every step lowers a measure of the whole chain. |
| SieveRuns.DoneMeansPrimes | TPs/Fork/primes.c:29-70 | When all processes have ended the output is the primes up to n, in order and once each. |
| SieveRuns.OutIsHeads | TPs/Fork/primes.c:40-40 | At every moment the printed numbers are the first numbers of the first stages, in order. |
| SieveMath.HeadsArePrimes | TPs/Fork/primes.c:12-27 | The first numbers of a chain that ends are exactly the primes up to n. |
| Partition.PartitionList | TPs/Sched/kern/pmap.c:704-717 | In place, the acyclic list becomes its low pages followed by its high pages, each in their old order; counts and other pages stay. |
| Partition.PartAll | TPs/Sched/kern/pmap.c:704-717 | The two groups together are the pages of the list, each once. |
| Partition.HighIff | TPs/Sched/kern/pmap.c:704-717 | A page counts as high exactly if its address is not below pdx_limit times four megabytes. |
| StabSearch.StabBinsearch | TPs/Sched/kern/kdebug.c:59-106 | Ends on every input, with the result of the search function. |
| StabSearch.TurnDecreases | TPs/Sched/kern/kdebug.c:68-94 | Every turn lowers a measure, also the exact match that leaves the range as it is. |
| StabSearch.SearchSound | TPs/Sched/kern/kdebug.c:59-106 | In every sorted region with an entry not above addr, left is an entry at or after the last of these, right is just before the next one or the end, and every value from addr to left's occurs. |
| StabSearch.SearchExact | TPs/Sched/kern/kdebug.c:59-106 | If addr and addr+1 do not both occur, left is the last entry not above addr. |
| StabSearch.AdjacentValues | TPs/Sched/kern/kdebug.c:87-93 | With both values present the neighbour may be returned. |
| StabSearch.NotContained | TPs/Sched/kern/kdebug.c:96-105 | With no entry at or below addr, left > right if and only if there is no entry of the type. |
| StabSearch.NothingBetween | TPs/Sched/kern/kdebug.c:96-105 | On every input, sorted or not, there is no further entry of the type in the region returned. |
| PrintParse.Printnum | TPs/Sched/lib/printfmt.c:36-55 | Prints padding up to the width and then the digits. |
| PrintParse.DigitsValue | TPs/Sched/lib/printfmt.c:36-55 | The digits printed are digits of the base and their value is the number. |
| PrintParse.Strtol | TPs/Sched/lib/string.c:246-291 | The loops compute the parse function, with 32-bit wrap-around. |
| PrintParse.RoundTrip | TPs/Sched/lib/string.c:246-291 | For every number, base 2 to 16, width and padding, strtol reads the output to its end and returns the number as a 32-bit long, the number itself if and only if it is below 2^31; the length is the larger of width and digits. |
| PrintParse.NumeralParsed | TPs/Sched/lib/string.c:246-291 | For every string and base 0 or 2 to 36: after blanks and tabs, a sign or none and a prefix that fits the base or none, the value of the digits that follow, with the sign, as a 32-bit long, and the position behind them. |
| PrintParse.CaseOfDigits | TPs/Sched/lib/string.c:272-281 | Small and capital letters are the same digits. |

## Left out

- KernelRuns.Run: ends with the first call that breaks the law; what later calls do to a broken machine is not modelled.
- KernelVm.Kernel.MemInit: takes kern_pgdir with an empty user half; boot_map_region, the kernel half, TP1_PSE and load_icode are not part of this model.
- KernelVm.Kernel.PgdirWalk: user addresses only; addresses from UTOP up are passed by boot_map_region alone.
- KernelVm.Kernel.PageLookup: user addresses only, as in all its callers here.
- KernelVm.Kernel.PageRemove: user addresses only, as in all its callers here.
- KernelVm.Kernel.PageInsert: what a page table looks like after a breaking call is not stated, only that the invariant is gone.
- KernelIpc.SysIpcTrySend: the uninitialised pointer leads to some readable word, a parameter; a fault of the kernel at it is not modelled.
- CowKernel.MapSame: the count of the shared page is below 2^16 - 1; `SysPageMap` says what happens otherwise.
- CowKernel.DupPage: the same.
- CowSystem.Step: the call of duppage that `StaleIff` singles out is not carried out on the kernel, and env_pgfault_upcall is not a field of the kernel class; it is part of the machine.
- KernelVm.Kernel.SysExofork: the trap frame the child gets, with eax 0, is not modelled.
- KernelVm.Kernel.SysEnvDestroy: the case of an environment running on another CPU is in `Smp`.
- CowFork.Fork: failing calls (the source panics) and the PTE_PCD and PTE_PWT bits are not modelled; on the kernel, failing calls are in `CowKernel` and `CowSystem`.
- CowRuns.CowCopiesInEffect: page sharing by sys_page_map between environments outside fork, writes to unmapped pages and destroying an environment that is forking are not steps of the machine.
- CowReturn.CowRefinesEager: the same.
- Smp.SmpSafe: the scheduler's choice is any RUNNABLE environment; the order of the scan is in `Sched`. Exceptions raised by the kernel itself are not modelled.
- Sched.BoundedWaiting: in runs of either scheduler the cell after envs[] does not read as RUNNABLE; the scans themselves take it as a parameter.
- Sched.BoostedEveryTen: number_of_switches is unbounded; the source's signed counter overflows after 2^31 switches.
- CowPerms.RightsCopied: a right counts from the page table alone; that the first store also needs a page for the copy is in `CowKernel.PgFault`.
- PrintParse.NumeralParsed: bases that strtol is not made for, 1 and above 36, are left out.
- UpcallNest.FaultRestores: a handler is any sequence of byte stores, register changes and faults that stays below its frame on the exception stack; C code is not interpreted.
- Ipc.NothingLost: a target is named by its slot, and whether the transfer of a page succeeds is left open; `KernelIpc` decides it.
- SieveRuns.SieveCorrect: counts calls of printf; the copying of unflushed stdio buffers by fork, failing system calls and the overflow of `p++` at n = INT_MAX are not modelled.
- StabSearch.SearchExact: with addr and addr+1 both present the entry found depends on the order of the probes; `SearchSound` and `AdjacentValues` say what is left. addr is not wrapped at 2^32.
- TLB invalidation, lcr3 and device code: hardware.
- fork_v0, dup_or_share and sfork: superseded or unimplemented.
- user_mem_check: not modelled.
- The rest of vprintfmt, the monitor, the statistics printout, TPs/Fork/xargs.c, TPs/Shell and TPs/FileSystem: would only add easy members or plumbing.
