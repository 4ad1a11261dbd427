# A verified model of rucux

This project models the parts of the rucux kernel, its libc and its services whose correctness is hard to
see from the code, and proves what they promise. Each module follows one component.

| modules | component |
|---|---|
| `Radix`, `PageTables` | page tables as a radix tree in memory, for any format of entries |
| `Tlb` | CPUs that may cache any translation at any moment, and the discipline of stores and flushes |
| `Aarch64`, `Aarch64Vmm` | the AArch64 mapping operations, with break-before-make and block splitting |
| `Amd64`, `Amd64Vmm`, `Shootdown` | the AMD64 mapping operations and the NMI shootdown protocol |
| `Permissions`, `Aarch64Access`, `Amd64Access` | page flags through any sequence of operations and the user walk, on each architecture |
| `Teardown`, `AddressSpaces` | discarding an address space |
| `Supervisor` | the init service: dependencies, restarts, stops, reaping |
| `Threads` | mutex, condition variable and read-write lock on futexes, for any number of threads |
| `KernelLog`, `Joins` | the kernel log ring, its readers and the kmsg device |
| `TraceRing` | the per-CPU trace rings and the snapshot |
| `TraceProducer`, `TraceExport`, `Packing` | a producer's file, the export of all producers, and the script that reads it |
| `Ports` | the port resolver |
| `Strtol`, `Printf`, `Numerals` | reading and printing numbers |
| `Memory`, `Terminal`, `Console` | block copies, the terminal and the framebuffer console |
| `Options`, `Sequences` | shared helpers |

## How the parts fit together

**Page tables.** `Radix` gives a memory of words its meaning: a walk follows indices from a root through
tables to a leaf. `Unshared` says that every table hangs in one place only; it is the invariant under which
a store changes nothing but what lies under its slot. The flat view of an address space (`View`) maps page
numbers to a frame and attributes; the operations are specified as updates of that view, for all address
spaces at once. The class `PageTables.Tables` is the state: memory, free pages, and a ghost log of the
stores and flushes made since the mapping lock was taken, with the tables at that time and the root of the CPU
that took it.

**Caches.** `Tlb` is a machine in which any CPU may fill its TLB from the tables, or evict an entry, between
any two steps. A critical section is a list of stores and flushes; the discipline on such a list
(`Disciplined`) is what the mapping operations are proved to follow, since their `Valid` includes it for the
log. For every run of the machine it gives coherence whenever the lock is free and, with the strict form of
AArch64, that two cached translations of an address never differ. `Shootdown` refines this machine by
mailboxes, interrupts and acknowledgements. Each mapping operation ensures that its log leads from the tables it
found to those it left, and that the machine can carry the log out from every reachable state and ends with every
cache in agreement: the TLB machine on AArch64 (`Aarch64Vmm.Broadcast`), the shootdown protocol on AMD64
(`Amd64Vmm.Interrupted`).

**Permissions.** `Aarch64Access` and `Amd64Access` perform any sequence of maps, large maps, protects and unmaps on
the tables themselves and then walk them as user code does.

**State machines.** `Supervisor`, `Threads`, `Terminal` and the reader of `KernelLog` are functions from a
state and an event to a state. Invariants are proved for every step and lifted to all runs. Where the code
changes state in place (`Supervisor.Init`, `KernelLog.Log`, `TraceRing.Buffer`, `TraceProducer.Producer`,
`Ports.Resolver`, `Printf.Output`, `Console.Screen`, `Tables`), a class has its fields and methods, and each
method is proved to take the step of the state machine or to compute the function it stands for.

Answers of the environment (free memory, spawned process ids, whether a kill succeeds, clocks, file contents)
are parameters. Integers are unbounded except where a width is written out.

## Claims that do not hold

Some natural claims fail for this code. Each has a lemma with the exact condition.

- Mapping a page under a 2 MiB page on AMD64 changes no translation at all (`Amd64Vmm.Map`).
- AMD64 `get_phys` answers for an entry that has the size bit but is not present (`Amd64Vmm.GetPhys`).
- Teardown takes a large page for a table and frees the page it maps (`Teardown.LargeIsFreed`).
- A service that is to be restarted after success only is restarted after a failure too
  (`Supervisor.RestartScheduled`).
- A stop that was asked for is undone by one thing only, a registration by the process being stopped
  (`Supervisor.StopKept`, with a case in `Supervisor.LateRegisterUndoesStop`).
- One process may be registered under two names (`Supervisor.RegisterNames`).
- A log read that starts beyond the end does not account for its records (`KernelLog.ReadConserves`).
- The producer's dropped counter counts laps of the ring (`TraceProducer.DroppedCountsLaps`).
- `strtoll` wraps modulo 2^64 before it clamps (`Strtol.WhenExact`), and `strtoull` makes 1 of a number out of range
  with a minus sign (`Strtol.UnsignedExact`); `Strtol.OutOfRange` has a string for both. A base prefix with no digit
  behind it reads as nothing (`Strtol.EndExact`).
- Deleting characters past the end of a row clears cells to the left of the cursor, or nothing
  (`Terminal.DeleteExact`); inserting and deleting lines ignores the cursor's row (`Terminal.LinesExact`).

## Model

| member | source | states |
|---|---|---|
| `Radix.LeafStore` | src/arch/aarch64/vmm.cpp:274-360 | in unshared tables, storing a leaf or nothing over an entry changes exactly the walks that pass through that entry, in exactly the address spaces that see it |
| `Radix.LinkTable` | src/arch/aarch64/vmm.cpp:144-154 | hanging an all-zero table into an empty entry keeps the tables unshared and changes no translation |
| `Radix.RootCopyWalk` | src/arch/aarch64/vmm.cpp:235-241 | through a copied root the shared part is translated as before and nothing else is mapped |
| `Tlb.CoherentWhenUnlocked` | src/arch/aarch64/vmm.cpp:117-142 | in every run of disciplined critical sections, with fills and evictions anywhere, no CPU holds an outdated translation when the lock is free |
| `Tlb.UnmappedIsUnreachable` | src/arch/aarch64/vmm.cpp:325-343 | when the lock is free, an address that the tables do not map is in no TLB of a CPU on that root |
| `Tlb.NeverMixed` | src/arch/aarch64/vmm.cpp:129-142 | break before make: at every point of every run two cached translations of one address of one root are the same |
| `Tlb.PathCovers` | src/arch/aarch64/vmm.cpp:117-127 | flushing the page at the end of a path reaches every translation read through the entry there, unless a table hangs in it |
| `Tlb.CarriesOut` | src/arch/aarch64/vmm.cpp:129-142 | from any state with the lock free a disciplined critical section has a run through to its end, with the tables it says |
| `Tlb.SectionInterleaves` | src/arch/aarch64/vmm.cpp:117-142 | in every reachable state with the lock free a disciplined list of stores and flushes may begin as a critical section, and can be carried out to the tables it says with every cache in agreement |
| `Tlb.CoherentAfter` | src/arch/aarch64/vmm.cpp:129-142 | such a run, from any reachable state, ends with every cache in agreement with the new tables |
| `Shootdown.Refines` | src/arch/amd64/vmm.cpp:103-155 | every run of the post, interrupt, service and wait protocol is a run of the TLB machine |
| `Shootdown.StepKeeps` | src/include/kernel/memory/tlb.hpp:10-56 | what every protocol step keeps: mailbox sequence numbers, who still owes a flush, and the software table of roots |
| `Shootdown.CoherentWhenUnlocked` | src/arch/amd64/vmm.cpp:124-155 | in every run from boot, whenever the mapping lock is free no CPU caches a translation its own tables do not give |
| `Shootdown.WaitMakesProgress` | src/arch/amd64/vmm.cpp:140-155 | while an initiator waits, every CPU that has not acknowledged has a service step that needs no lock and brings its acknowledgement nearer, and if none is outstanding the initiator can go on |
| `Shootdown.ServiceIsStable` | src/arch/amd64/vmm.cpp:103-107 | no step of any other CPU undoes progress towards the awaited acknowledgement |
| `Shootdown.SectionShootsDown` | src/arch/amd64/vmm.cpp:124-155 | in every reachable state with the lock free, a CPU on the root may take it for this critical section, and the protocol can carry it out to the tables it says with every cache in agreement |
| `Shootdown.Completes` | src/arch/amd64/vmm.cpp:124-155 | no deadlock: from every state that keeps the invariant there is a run that ends the critical section with all its stores made and all its flushes acknowledged |
| `Shootdown.MovCr3Simulates` | src/arch/amd64/vmm.cpp:343-352 | switching the root, in software and then in hardware, drops every cached translation before the new root counts |
| `PageTables.Tables.AllocTable` | src/arch/aarch64/vmm.cpp:104-109 | takes the next free page and zeroes all of it, or answers 0 with nothing changed when there is none |
| `PageTables.Tables.Adopt` | src/arch/aarch64/vmm.cpp:235-241 | a page with the kernel's shared entries becomes a further root, and every other address space stays as it was |
| `PageTables.SectionBroadcasts` | src/arch/aarch64/vmm.cpp:117-142 | what an operation did since it found the tables can be interleaved, as it was logged, with all that the other CPUs do |
| `PageTables.SectionInterrupts` | src/arch/amd64/vmm.cpp:124-155 | the same through the shootdown protocol, for a log that flushes single pages for its own root or for all |
| `Aarch64.PathsArePages` | src/arch/aarch64/vmm.cpp:274-305 | the three indices of an address identify its page number and nothing more |
| `Aarch64.SplitWordKeeps` | src/arch/aarch64/vmm.cpp:291-294 | each entry written when a block is split is a page with the frame and the attributes the block gave it |
| `Aarch64Vmm.ReplaceDescriptor` | src/arch/aarch64/vmm.cpp:132-142 | stores the new descriptor, unless it is there already, through break, flush, make and flush, and the log stays disciplined |
| `Aarch64Vmm.NextTable` | src/arch/aarch64/vmm.cpp:144-154 | finds or makes the table behind an entry; 0 exactly if a block is there, or nothing is and none can be made; no translation changes |
| `Aarch64Vmm.SplitBlock` | src/arch/aarch64/vmm.cpp:287-297 | a 2 MiB block becomes a table with all 512 pages mapped as before, in every address space; without memory nothing changes |
| `Aarch64Vmm.Map` | src/arch/aarch64/vmm.cpp:274-305 | exactly the page asked for is mapped to the frame with the encoded flags; a bad range, misalignment or lack of memory leaves every translation as it was; what it stored and flushed can be interleaved with all that the other CPUs do and leaves their caches right |
| `Aarch64Vmm.Map2mb` | src/arch/aarch64/vmm.cpp:307-323 | exactly the 512 pages of the block are mapped, or nothing changes when the range, the alignment, memory or a table in place forbids it; likewise for the caches |
| `Aarch64Vmm.Unmap` | src/arch/aarch64/vmm.cpp:325-343 | exactly the page is unmapped, or the whole block that covers it; likewise for the caches |
| `Aarch64Vmm.Protect` | src/arch/aarch64/vmm.cpp:345-360 | succeeds exactly on a mapped 4 KiB page, and then changes exactly its permissions and keeps its frame; likewise for the caches |
| `Aarch64Vmm.GetPhys` | src/arch/aarch64/vmm.cpp:377-394 | the address that the flat view gives, for pages and blocks, else 0 |
| `Aarch64Vmm.GetUserPhys` | src/arch/aarch64/vmm.cpp:396-413 | the same address exactly if the view grants user code the access, else 0 |
| `Aarch64Vmm.CreateAddressSpace` | src/arch/aarch64/vmm.cpp:235-241 | the new root translates exactly as the kernel root; 0 exactly if memory is exhausted; nobody else is affected |
| `Amd64.PathsArePages` | src/arch/amd64/vmm.cpp:237-261 | the four indices of an address identify its page number and nothing more |
| `Amd64Vmm.SetEntry` | src/arch/amd64/vmm.cpp:124-155 | a store followed by the shootdown of the CPUs concerned, after which the log is disciplined again |
| `Amd64Vmm.FindTable` | src/arch/amd64/vmm.cpp:160-165 | the table behind an entry, 0 behind nothing, and the mapped frame behind a large page |
| `Amd64Vmm.NextTable` | src/arch/amd64/vmm.cpp:160-174 | the same, but a missing table is made if memory allows; no translation changes |
| `Amd64Vmm.LastTable` | src/arch/amd64/vmm.cpp:247-257 | the last-level table for an address, with the missing levels made; 0 exactly if they need more pages than there are |
| `Amd64Vmm.Map` | src/arch/amd64/vmm.cpp:237-261 | exactly the page asked for is mapped; range, alignment, memory or a large page over it leave every translation as it was; its log starts at the tables it found, and the shootdown protocol can carry it out from every reachable state and leaves every cache right |
| `Amd64Vmm.Map2mb` | src/arch/amd64/vmm.cpp:263-287 | exactly the 512 pages are mapped, or nothing changes where a table or lack of memory is in the way; likewise for the shootdown |
| `Amd64Vmm.Unmap` | src/arch/amd64/vmm.cpp:289-314 | exactly the page is unmapped, or the whole 2 MiB page that covers it; likewise for the shootdown |
| `Amd64Vmm.Protect` | src/arch/amd64/vmm.cpp:316-341 | succeeds exactly on a 4 KiB page, and then gives exactly that page the new flags and keeps its frame; likewise for the shootdown |
| `Amd64Vmm.GetPhys` | src/arch/amd64/vmm.cpp:360-388 | the address that the flat view gives, else 0, except behind an entry that has only the size bit, for which the wrong answer is given exactly |
| `Amd64Vmm.GetUserPhys` | src/arch/amd64/vmm.cpp:390-404 | the address of the view exactly if every level grants user code the access, else 0 |
| `Amd64Vmm.CreateAddressSpace` | src/arch/amd64/vmm.cpp:193-199 | the new root has the kernel's first entry and maps nothing else; 0 exactly if memory is exhausted |
| `Aarch64Access.Faithful` | src/arch/aarch64/vmm.cpp:84-102 | the descriptor of a page after new flags is that of the flags, and the user check grants exactly what they grant |
| `Aarch64Access.RoundTrip` | src/arch/aarch64/vmm.cpp:274-413 | after any sequence of maps, block maps, protects and unmaps on the tables, with failures and splits, the user walk of an address finds what the kernel walk finds exactly if the flags last given to its page grant the access, and nothing once it is unmapped |
| `Amd64Access.Faithful` | src/arch/amd64/vmm.cpp:237-341 | the same of the AMD64 entry bits, for pages and large pages |
| `Amd64Access.RoundTrip` | src/arch/amd64/vmm.cpp:237-404 | the same round trip on AMD64, where flags without the present bit make the page disappear |
| `Teardown.DiscardTable` | src/arch/aarch64/vmm.cpp:245-259 | the pages freed for a table, in order, by the recursion over its entries |
| `Teardown.CallsAreDue` | src/arch/aarch64/vmm.cpp:245-259 | those frees are exactly one for each table of the tree and one for each leaf whose address is owned |
| `Teardown.CallsDistinct` | src/arch/amd64/vmm.cpp:203-217 | no place of the tree is freed twice |
| `Teardown.FollowHangs` | src/arch/amd64/vmm.cpp:203-217 | each table the recursion reaches is the private table that hangs at those indices |
| `Teardown.LargeIsFreed` | src/arch/aarch64/vmm.cpp:252-256 | a large page in the tree is freed as if it were a table, which it is not |
| `AddressSpaces.Discard` | src/arch/aarch64/vmm.cpp:261-272 | a root that is 0 or active is left alone; any other gives back each private table and each owned frame exactly once and nothing else, and leaves the other address spaces intact |
| `AddressSpaces.FreedOne` | src/arch/aarch64/vmm.cpp:245-272 | what is freed was in use by this root alone: never a shared table, never a borrowed frame, never a page already free |
| `AddressSpaces.DiscardableIf` | src/arch/amd64/vmm.cpp:219-235 | well-formed tables without large leaves in the private range can be discarded |
| `AddressSpaces.DiscardArm` | src/arch/aarch64/vmm.cpp:243-272 | a frame is freed exactly if a user page that the caller owns is mapped to it, once, and a table exactly if the private part of the tree leads to it; a root that is 0 or active is left alone |
| `AddressSpaces.DiscardAmd` | src/arch/amd64/vmm.cpp:201-235 | the same on AMD64, if nothing is mapped above the user range |
| `AddressSpaces.ArmDue` | src/arch/aarch64/vmm.cpp:245-259 | the frames that the recursion owes are those of the owned user pages, each at its own address |
| `AddressSpaces.AmdDue` | src/arch/amd64/vmm.cpp:203-217 | the same on AMD64 |
| `AddressSpaces.ArmVisits` | src/arch/aarch64/vmm.cpp:261-270 | the AArch64 loops visit every entry outside the shared part |
| `AddressSpaces.AmdVisits` | src/arch/amd64/vmm.cpp:219-233 | the AMD64 loops do if nothing is mapped in the upper half |
| `AddressSpaces.ArmAddress` | src/arch/aarch64/vmm.cpp:251-269 | the address handed to the ownership question is the user address that the walk maps through those entries |
| `AddressSpaces.AmdAddress` | src/arch/amd64/vmm.cpp:209-232 | the same on AMD64 |
| `Supervisor.Init.FindService` | services/init/main.cpp:79-84 | the first service of that name, if there is one |
| `Supervisor.Init.FindProcess` | services/init/main.cpp:86-91 | the first service whose process has that id |
| `Supervisor.Init.DependenciesReady` | services/init/main.cpp:217-232 | true exactly if each dependency is known, running and has a process |
| `Supervisor.Init.SpawnService` | services/init/main.cpp:234-252 | the entry after a spawn that succeeded or failed |
| `Supervisor.Init.RequestStart` | services/init/main.cpp:254-267 | started, left waiting for a dependency, or not startable, and how the registry then stands |
| `Supervisor.Init.KickPendingServices` | services/init/main.cpp:269-282 | one pass over the pending services in order |
| `Supervisor.Init.ScheduleRestart` | services/init/main.cpp:196-215 | budget, counters, generation and the worker left behind |
| `Supervisor.Init.StartAutostartServices` | services/init/main.cpp:309-328 | the registry after the first pass at boot |
| `Supervisor.Init.ReapChild` | services/init/main.cpp:330-373 | the step of the machine for the end of a process |
| `Supervisor.Init.HandleRegister` | services/init/main.cpp:375-411 | the step for a registration, and each reply goes out exactly under its condition |
| `Supervisor.Init.HandleStart` | services/init/main.cpp:423-467 | the step for a start message, and each reply goes out exactly under its condition |
| `Supervisor.Init.HandleStop` | services/init/main.cpp:469-522 | the step for a stop message, and each reply goes out exactly under its condition |
| `Supervisor.Init.RestartWorker` | services/init/main.cpp:157-194 | the step of a delayed restart thread that reaches the lock |
| `Supervisor.KickKeeps` | services/init/main.cpp:269-282 | one kick pass is a fixpoint: afterwards every waiting service has a dependency that is not up |
| `Supervisor.StepKeeps` | services/init/main.cpp:330-522 | every message, exit and worker keeps the invariant: a process id exactly in the states that have one, no restart pending beside a process or a start request, no start lost, budgets within limits |
| `Supervisor.AlwaysSound` | services/init/main.cpp:284-328 | from boot on the invariant holds whenever the lock is free |
| `Supervisor.OneWorkerFires` | services/init/main.cpp:157-215 | of all outstanding restart workers of a service at most one can start it |
| `Supervisor.DeadStays` | services/init/main.cpp:157-194 | a worker with an outdated generation stays so at every step |
| `Supervisor.DeadForEver` | services/init/main.cpp:157-194 | and does nothing, at whatever later time it comes to the lock |
| `Supervisor.StopKills` | services/init/main.cpp:469-522 | a stop that takes effect outdates every worker of the service |
| `Supervisor.StartKills` | services/init/main.cpp:423-467 | so does a manual start |
| `Supervisor.RegisterKills` | services/init/main.cpp:375-411 | so does a registration |
| `Supervisor.RestartsBounded` | services/init/main.cpp:196-215 | over any run without a reset of the budget, restarts equal the budget spent and stay within a non-zero limit |
| `Supervisor.RestartScheduled` | services/init/main.cpp:346-363 | exactly when the end of a process schedules a restart |
| `Supervisor.SuccessOnlyIsRestartedOnFailure` | services/init/main.cpp:350-363 | so restarting on success alone also restarts on failure |
| `Supervisor.StopKept` | services/init/main.cpp:330-522 | at every step of every reachable registry, a service whose stop was asked for is stopping or stopped afterwards exactly if the step is not a registration by that process |
| `Supervisor.LateRegisterUndoesStop` | services/init/main.cpp:394-403 | such a registration leaves the service running with the stop forgotten |
| `Supervisor.OneTidTwoServices` | services/init/main.cpp:375-411 | one process can end up under two names |
| `Supervisor.RegisterNames` | services/init/main.cpp:375-411 | a registration keeps process ids unique exactly if it is refused or no other service has the sender's |
| `Threads.MutexKept` | libc/src/pthread.cpp:82-96 | every step of every thread keeps the words and the holders in agreement |
| `Threads.MutualExclusion` | libc/src/pthread.cpp:82-96 | in every run of any number of threads a mutex has at most one holder |
| `Threads.WakeKept` | src/kernel/sync/futex.cpp:25-104 | every step keeps a free mutex with sleepers attended to |
| `Threads.NoWakeLost` | libc/src/pthread.cpp:82-96 | in every run, if the word is 0 and a thread sleeps on it, another is about to wake a sleeper or to try the mutex |
| `Threads.HandedOver` | libc/src/pthread.cpp:82-96 | a run in which a mutex is free while a thread sleeps on it, and the sleeper then gets it |
| `Threads.CondKept` | libc/src/pthread.cpp:109-127 | every step keeps the captured numbers of sleepers no older than the last completed broadcast |
| `Threads.BroadcastKeepsCond` | libc/src/pthread.cpp:123-127 | after the wake of a broadcast nobody sleeps on the condition |
| `Threads.CannotFallAsleep` | libc/src/pthread.cpp:109-115 | a waiter that captured an older number cannot fall asleep afterwards |
| `Threads.BroadcastReachesAll` | libc/src/pthread.cpp:109-127 | in every run a sleeper captured its number no earlier than the last completed broadcast |
| `Threads.LocksKept` | libc/src/pthread.cpp:146-178 | every step keeps reader counts, the writer flag and what threads have read in agreement |
| `Threads.WriterIsAlone` | libc/src/pthread.cpp:158-178 | in every run a writer holds a read-write lock alone, with no reader counted |
| `Threads.ReadersCounted` | libc/src/pthread.cpp:146-178 | in every run the reader count is the number of read holders |
| `KernelLog.LineFits` | src/kernel/log.cpp:151-178 | a formatted record is at most 343 characters, so the 384-byte line buffer never cuts one off |
| `KernelLog.FormatRecord` | src/kernel/log.cpp:151-178 | the fields appended one by one give the whole line, cut at the capacity |
| `KernelLog.AppendNumber` | src/kernel/log.cpp:134-149 | the decimal numeral of the value is appended |
| `KernelLog.Log.Append` | src/kernel/log.cpp:80-94 | one more record in the history, in the place of the oldest one in the ring |
| `KernelLog.Log.LineAt` | src/kernel/log.cpp:205-208 | a visible record is still the one with that number, whatever was overwritten |
| `KernelLog.Log.CopyRecords` | src/kernel/log.cpp:180-225 | the longest run of whole lines from the start that fits, the number after it, and how many records were lost before |
| `KernelLog.ReadConserves` | src/kernel/log.cpp:180-225 | a read accounts for every number it moves past, exactly if it starts no later than the end |
| `KernelLog.ReaderConservation` | src/kernel/log.cpp:180-225 | over any interleaving of appends and reads a following reader has delivered plus dropped every number since its start, delivered them in increasing order, each as the line of that record |
| `KernelLog.Log.Read` | src/kernel/log.cpp:227-261 | exactly the asked slice of all visible lines joined together |
| `Joins.SlicesJoin` | src/kernel/log.cpp:227-261 | two slices one after the other are one slice, and a short slice means the end was reached |
| `Joins.ChunksJoin` | src/kernel/log.cpp:227-261 | reads of any number and any sizes, each from where the last one ended, give one slice, and all of the text exactly if the sizes add up to it |
| `Joins.ReachesIsMaximal` | src/kernel/log.cpp:204-219 | the lines taken fit, and the next one would not |
| `KernelLog.Log.CaptureChar` | src/kernel/log.cpp:321-341 | each character gives exactly the records and the unfinished line it should: a newline or a full buffer makes one record of the line, NULs and carriage returns nothing; and the messages of the console's records, with the unfinished line, are always what was captured so far |
| `KernelLog.Log.FlushLine` | src/kernel/log.cpp:106-114 | an unfinished line becomes one kernel record with exactly that text, and an empty one none |
| `TraceRing.Buffer.Claim` | src/kernel/trace.cpp:124-126 | a record has its number before its slot is written, and the snapshot's view stays right |
| `TraceRing.Buffer.StoreField` | src/kernel/trace.cpp:128-137 | a writer stopped between any two stores leaves all other published records intact |
| `TraceRing.Buffer.Commit` | src/kernel/trace.cpp:138-139 | the record is published by the last store |
| `TraceRing.Buffer.Record` | src/kernel/trace.cpp:113-141 | one record more, published |
| `TraceRing.CopyCpu` | src/kernel/trace.cpp:214-222 | one CPU's published records among the last 256, in order, as far as there is room |
| `TraceRing.Snapshot` | src/kernel/trace.cpp:202-236 | CPU by CPU exactly the published records, cut only by the size of the buffer, with every writer stopped anywhere |
| `TraceRing.FillStats` | src/kernel/trace.cpp:184-200 | written equals overwritten plus available, summed over the CPUs |
| `Packing.UnpackPack` | uapi/kernel/trace_producer.h:18-40 | little-endian structures read back as the values written, whatever follows |
| `TraceProducer.Producer.constructor` | libc/src/trace_producer.cpp:75-124 | registration leaves an empty ring with its header in the file |
| `TraceProducer.NextPlace` | libc/src/trace_producer.cpp:141-169 | the writer's offset arithmetic gives the place of the next record, wrapping after 101 |
| `TraceProducer.EmitKeeps` | libc/src/trace_producer.cpp:163-175 | writing a record and then the header keeps the last 101 records in their places |
| `TraceProducer.Producer.Emit` | libc/src/trace_producer.cpp:126-181 | one record more, with the next sequence number, in the file |
| `TraceProducer.DroppedCountsLaps` | libc/src/trace_producer.cpp:146-150 | the dropped counter is the number of lost records exactly for at most 102 records |
| `TraceProducer.UnrolledIsLast` | services/traced/main.cpp:377-421 | after any number of records the exporter's reads give the last ones that fit, oldest first |
| `TraceProducer.LoadIsLast` | services/traced/main.cpp:360-424 | from the bytes of a producer's file exactly those records are loaded |
| `TraceProducer.FileIsRecorded` | libc/src/trace_producer.cpp:126-181 | the file of every producer with fewer than 2^32 records is one that loads, and its records fit their fields |
| `TraceProducer.HeaderRoundTrip` | services/traced/main.cpp:370-375 | the header the producer wrote is accepted and read back |
| `TraceExport.WriteExport` | services/traced/main.cpp:325-451 | the file is the header, the kernel section and a section per producer with records, with matching count and size, and what was in the file behind that |
| `TraceExport.ReadExport` | scripts/trace_snapshot_to_chrome.py:198-267 | the offset loop gives the sections one after the other, or fails where one is cut off |
| `TraceExport.SnapshotRoundTrip` | scripts/trace_snapshot_to_chrome.py:150-190 | a kernel snapshot reads back as it was |
| `TraceExport.SectionsRoundTrip` | scripts/trace_snapshot_to_chrome.py:207-259 | sections read back one by one, whatever follows |
| `TraceExport.ExportRoundTrip` | scripts/trace_snapshot_to_chrome.py:198-267 | an export reads back as its sections even with stale bytes behind it |
| `TraceExport.ProducerRoundTrip` | services/traced/main.cpp:360-445 | what the script reads of a producer is its last records, at most 101, in the order they were emitted |
| `TraceExport.FormatIsWide` | uapi/kernel/traced_export.h:15-33 | the fields of the file, section, producer and record headers hold every value that is written into them |
| `TraceExport.EverythingIsRead` | services/traced/main.cpp:325-451 | for files as producers leave them, what is parsed of the export, whatever bytes follow it, is the snapshot and then each producer's last records, and the header holds their number and the size |
| `TraceExport.ExportAndRead` | scripts/trace_snapshot_to_chrome.py:198-267 | from the producers to the reader: for a table of producers, and whatever the export file held before, the script gets the kernel's snapshot and then, for each producer with records, its last ones, at most 101, in order; section count and total size agree with the bytes |
| `TraceExport.NameRoundTrip` | services/traced/main.cpp:434-434 | a name that fits its field reads back |
| `Ports.Resolver.Visit` | tools/resolve_ports.py:54-68 | keeps the list ordered and free of duplicates and adds the port, or shows an unknown port or a cycle that the request leads to |
| `Ports.Resolve` | tools/resolve_ports.py:49-73 | ends on every finite graph; succeeds exactly if all that is reachable is known and acyclic, and then lists exactly that, each port once and after its dependencies |
| `Ports.OrderedResolves` | tools/resolve_ports.py:49-73 | such a list rules out unknown ports and cycles and holds all that is needed |
| `Ports.ExplainsFailure` | tools/resolve_ports.py:55-60 | a reported error rules out every solution |
| `Strtol.StrToULL` | libc/src/strtol.cpp:45-74 | the value of the digits, saturated exactly at 2^64 - 1 and then negated modulo 2^64 if asked, and where reading ends |
| `Strtol.OverflowTest` | libc/src/strtol.cpp:64-68 | the division test says exactly when one more digit overflows |
| `Strtol.StrToLL` | libc/src/strtol.cpp:76-107 | the value of the digits modulo 2^64, clamped to the signed range |
| `Strtol.WhenExact` | libc/src/strtol.cpp:91-106 | that is the clamped value exactly if the number fits 64 bits or its low bits clamp alike |
| `Strtol.UnsignedExact` | libc/src/strtol.cpp:64-73 | the unsigned result is the one section 7.22.1.4 of ISO C11 asks for exactly unless a number out of range has a minus sign, and then it is 1 |
| `Strtol.OutOfRange` | libc/src/strtol.cpp:45-107 | of "-10000000000000000" in base 16, `strtoll` makes 0 where LLONG_MIN is asked for, and `strtoull` 1 where ULLONG_MAX is |
| `Strtol.EndExact` | libc/src/strtol.cpp:15-29 | the number agrees with section 7.22.1.4 of ISO C11 always, and the end of reading exactly if no base prefix stands alone |
| `Strtol.LoneZero` | libc/src/strtol.cpp:15-29 | "0" with base 0 is not consumed |
| `Numerals.DigitsBackwards` | libc/src/vsprintf.cpp:35-47 | the division loop finds the numeral, last digit first |
| `Numerals.ValueOfNumeral` | libc/src/vsprintf.cpp:35-47 | a numeral in any base stands for its number |
| `Printf.PrintsShape` | libc/src/vsprintf.cpp:52-82 | a signed number prints as blanks, a sign, digits of that value and blanks, for all flags, widths and precisions |
| `Printf.PrintParse` | libc/src/vsprintf.cpp:241-268 | reading a printed number in base 10 gives it back, for every value above LLONG_MIN and every specification |
| `Printf.Output.Put` | libc/src/vsprintf.cpp:19-22 | a character joins the text, and the buffer holds what fits of it |
| `Printf.Output.PutNumber` | libc/src/vsprintf.cpp:52-82 | prefix, fill, zeros and digits in the order each of the three layouts has |
| `Printf.Output.Convert` | libc/src/vsprintf.cpp:240-363 | each conversion adds the text its specification and argument ask for |
| `Printf.Output.Format` | libc/src/vsprintf.cpp:159-375 | the whole format: the buffer holds the prefix of the unlimited output that fits, then NUL, and behind that what it held before |
| `Printf.Vsnprintf` | libc/src/vsprintf.cpp:382-390 | for every size the prefix and the NUL, nothing written behind the NUL or for size 0, and the full length returned (section 7.21.6.5 of ISO C11) |
| `Memory.Memcpy` | lib/string.cpp:8-32 | the word-wise forward copy yields the old source bytes, also when it overlaps downwards |
| `Memory.Memmove` | lib/string.cpp:62-77 | the destination holds the old source bytes and nothing else changes, for every overlap |
| `Memory.MovesRecords` | src/arch/amd64/console.cpp:100-120 | moving the bytes of whole records is moving the records |
| `Terminal.Put` | src/arch/amd64/console.cpp:315-376 | after every character the cursor is on the grid, the parameters are at most eight and the grid is whole |
| `Terminal.DeleteExact` | src/arch/amd64/console.cpp:285-295 | deleting characters is a shift to the left for all rows exactly if they all lie within the row |
| `Terminal.LinesExact` | src/arch/amd64/console.cpp:238-247 | inserting and deleting lines act at the cursor for all screens exactly if it is on the top row |
| `Terminal.InsertThenDelete` | src/arch/amd64/console.cpp:285-306 | deleting what was inserted restores the row, but for what was pushed off its end |
| `Terminal.TextShows` | src/arch/amd64/console.cpp:361-375 | after printable text of any length the screen shows its end, and only whole rows are lost off the top |
| `Console.OneCell` | src/arch/amd64/console.cpp:53-63 | redrawing one cell changes its 64 pixels and no others |
| `Console.Screen.constructor` | src/arch/amd64/console.cpp:406-425 | an empty screen, drawn as such |
| `Console.Screen.DrawCharAt` | src/arch/amd64/console.cpp:53-63 | the cell's pixels become its glyph in its colours, and every pixel is still that of the cell drawn over it |
| `Console.Screen.SetCell` | src/arch/amd64/console.cpp:65-91 | one shadow cell and its pixels change together |
| `Console.Screen.ScrollUp` | src/arch/amd64/console.cpp:94-114 | rows move up by one, the last is blank, and the pixels follow |
| `Console.Screen.ScrollDown` | src/arch/amd64/console.cpp:117-130 | rows move down by one, the first is blank, and the pixels follow |
| `Console.Screen.ScrollUpBy` | src/arch/amd64/console.cpp:270-274 | any number of scrolls is one shift by at most all rows |
| `Console.Screen.DeleteChars` | src/arch/amd64/console.cpp:285-295 | the in-place loops give the shifted row, also when the count exceeds it |
| `Console.Screen.InsertChars` | src/arch/amd64/console.cpp:296-306 | the backward loop gives the shifted row with blanks at the cursor |
| `Console.Screen.EraseCells` | src/arch/amd64/console.cpp:206-237 | row and cell loops blank exactly one stretch of the screen |
| `Console.Screen.SelectGraphics` | src/arch/amd64/console.cpp:147-178 | the codes are applied in order |
| `Console.Screen.FinishCsi` | src/arch/amd64/console.cpp:180-311 | the step of the terminal for a command, and the parser is reset |
| `Console.Screen.PutChar` | src/arch/amd64/console.cpp:315-376 | the terminal takes its step and every pixel still shows the shadow cells |
| `Console.Screen.Write` | src/arch/amd64/console.cpp:315-376 | so it does for every stream of characters |

## Left out

- Hardware registers, inline assembly, interrupt controllers, boot sequences and the building of the first page tables; only TLB fills, evictions and flushes are modelled.
- Accessed and dirty bits that hardware sets in entries.
- The scheduler, VFS, IPC, mmap, network, FAT32 and driver code.
- Services other than init and the export of traced; of init the status and lookup replies, the packing of names into messages and the texts that are printed.
- I/O failures of the trace producer and of the export, which abandon the operation.
- Floating-point conversions (a parameter of `Printf`), `%n`, thread-specific data and timed waits.
- CLEAR of the kernel log and reset of the trace rings.
- Generation, sequence and mailbox counters are naturals, without their wrap-around at 2^32 or 2^64.
- Amd64Vmm.Map: kernel-only identity maps are modelled in the range that all roots share and outside large pages, because elsewhere they would write into one root only or into a mapped frame that need not be free memory.
- Amd64Vmm.Map2mb: the same for large identity maps, outside 1 GiB pages.
- Amd64Vmm.GetPhys: addresses inside 1 GiB pages, which the code never makes, are excluded.
- Aarch64Vmm.CreateAddressSpace: stated for a kernel root without private mappings, which is how boot leaves it.
- AddressSpaces.Discard: stated for private trees without large leaves; what happens to one is `Teardown.LargeIsFreed`.
- AddressSpaces.DiscardArm: frames that the caller owns are pages of their own, mapped in one place; a table that no entry leads to any more is not freed.
- AddressSpaces.DiscardAmd: the same, and nothing is mapped above the user range, where the code does not look.
- Amd64Access.RoundTrip: for user addresses; the operations are not kernel identity maps, and large pages are not put over the memory that page tables are made of.
- Aarch64Access.RoundTrip: a mapping that the page has at first is as some flags encode it.
- TraceRing.Snapshot: each CPU's writer stands still, at any point inside a record, while the snapshot is taken; against a running writer a copied record may be torn.
- TraceExport.ExportAndRead: names are byte strings shorter than their field, without the UTF-8 decoding of the script; a producer has fewer than 2^32 records, and the snapshot is at most the 2 MiB of its buffer.
- Printf.Vsnprintf: the unlimited `vsprintf` is not modelled; widths and precisions are unbounded integers.
- Strtol.StrToLL: the base is 0 or 2 to 36, as ISO C asks of callers.
- Console.Screen.constructor: framebuffers smaller than one cell, or with more than 32768 cells and so without shadow cells, are not modelled; pixels are colours, whatever their depth.
- Terminal.Put: a parameter that overflows 32 bits wraps, where C++ leaves it undefined.
