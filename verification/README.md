# Verified model of Grafted's core algorithms

Grafted loads Mach-O programs on Linux. This project models the parts of it that are real
algorithms or state machines, and proves what they promise:

- relocation by chained fixups, a walk that reads each link from the memory it then overwrites
  (`Memory`, `MachO`, `Fixups`, `FixupImage`, `FixupTables`, `FixupLaws`, `RelocationMeaning`), and the
  mapping of segments (`Mapper`);
- CFRunLoop as a re-entrant machine of small steps with an explicit stack of runs (`RunLoop`,
  `RunLoopHistory`, `RunLoopSignals`, `RunLoopObservers`, `RunLoopOutcomes`, `RunLoopTheorems`,
  `RunLoopTimers`, `RunLoopProgress`, and the object in `RunLoopObject`);
- the syscall trap protocol of any number of threads and the machine code it emits, executed on a
  small x86-64 interpreter (`X86`, `TrapProtocol`, `Trampoline`, `SelectorPage`), and the initial
  process stack (`ProcessStack`);
- the Mach port namespace (`MachPorts`, `MachPortLaws`, `MachPortSpace`);
- CF reference counts with an exact ledger (`CFRefs`, `CFObjects`);
- dependency loading, Objective-C dispatch, code patching and Swift string repacking (`Linker`,
  `ObjCDispatch`, `Patching`, `SwiftString`).

Code that updates state in place is a method, on a class where the source has an object. Each such
method is tied to a function on values, and the laws are proved about those functions and about all
runs of them. Memory is a map from addresses to bytes; all word accesses are little-endian.

The main results:

- **Relocation.** `FixupImage.ApplyFixups` ends, puts into each slot of every chain the value decoded
  from the word that was there originally, and changes no other byte (`Relocated`). It relies on
  `WellFormed`, which `FixupLaws.PagedImageWellFormed` derives from what the format requires: links of
  0 or at least 2, chains in their page, disjoint segments. `Fixups.LayoutWalk` is the inverse: a list
  of rebases and binds laid out as a chain is accepted by the in-place walk, which leaves exactly their
  values, in order. `RelocationMeaning.RebaseLeads` follows a relocated pointer to the mapped byte it
  denotes, and `BindValue` finds the import's address. `FixupLaws.SlideIndependent` compares the image
  at two slides.
- **Run loop.** `RunLoopTheorems.ReachableInvariant` holds in every reachable state, whatever callbacks
  do; from it follow `CompletedRun` and `RunRestoresStack`. Over whole executions, against the registries
  of the states in which a run copied them: `PerformedWasRegistered`, `PendingServed`,
  `FiredWasRegistered`, `RunLoopTimers.TimersServed` with `DueTimerFired`, and `ObserversToldOnce`;
  `ReturnExplained` accounts for the return codes, and `RunLoopProgress.RunCanEnd` ends any run. The
  client's operations on the run loop object, its steps and the return of a callback keep the invariant.
- **Traps.** `TrapProtocol.TrapTransparent`, for every interleaving, calls into libc included, with the
  result of the one emulated syscall of the trap; `TrapCanEnd`, `SelectorsIndependent`,
  and `StraySignalBlocks` for a SIGSYS that is no dispatch.
  `Trampoline.TrampolineTransparent` executes the emitted bytes. `SelectorPage.SelectorsDistinct`.
- **Stack.** `ProcessStack.BuildStack` with `StackRoundTrip` and `MainArguments`.
- **Ports.** `MachPortLaws.RunFaithful`, `RunSound`, `ReachableTypes`, `AllocatedDistinct`, the ledger
  `RightsOnTheBooks`, and `SendReceive` from one end of a run to the other.
- **CF.** `CFRefs.RunBalanced`, `HeldIsLive`, `LeaksOnly`; what containers hold in `StoredUnderKey`,
  `RemovedKey`, `AppendedLast` and `CreatedContents`.
- **The rest.** `Linker.DependencyLoader.LoadDependencies` with `DependenciesSettled` and
  `LoadedReachable`; `ObjCDispatch.RunDispatches` with `LookupRefines`; `Patching.CyclesRestore` and `RestoreExact`;
  `SwiftString.SmallStringPreserved`, `CanonicalPadding`, `Idempotent`; `Mapper.MapBinary` with
  `EntryByte`.

Where the code does less than it promises, the model follows the code and states the exact condition:

- `PortSpace::insert_right` wraps a full 32-bit send count and can leave a name without any right:
  `KeepPortsOk` holds if and only if that branch is not taken, and `CounterWrapReached` is a run that
  takes it.
- `PortSpace::allocate` advances its counter before it checks it, so after the first KERN_NO_SPACE it
  hands out the dead name and then the null name: `KeepNamesOk` (if and only if) and
  `AllocationPastTheEnd`.
- `mod_refs` computes in signed 32 bits: exact if and only if the sum stays below 2^31
  (`AdjustedExact`); beyond, it can drop a live port (`AdjustmentDropsPort`). `mach_msg` bounds its copy if and only if `rcv_size >= 24` (`CopyBounded`).
- `grafted_lookup_method` misses a registered method when a second pointer carries a name of 256 bytes
  or more: `LookupExact` (if and only if), with `LongNameMissed` as the concrete case.
- The comment at crates/grafted-loader/src/executor.rs:976 promises `main(argc, argv, envp, apple)`;
  the code passes envp in the fourth register as well (`FourthArgumentIsNotApple`).

## Model

| member | source | states |
|---|---|---|
| Fixups.EncodeDecode | crates/grafted-loader/src/chained_fixups.rs:111-139 | every rebase and every bind survives packing into its 64-bit word, together with the distance to the next slot |
| Fixups.RelocateNext | crates/grafted-loader/src/chained_fixups.rs:107-156 | a slot that no earlier slot overlaps still holds its original word when the walk gets there, and rewriting it extends the relocated prefix by one |
| Fixups.PatchSlot | crates/grafted-loader/src/chained_fixups.rs:107-156 | one turn of the loop relocates exactly the next slot and returns the original link, although the word is overwritten |
| Fixups.WalkChain | crates/grafted-loader/src/chained_fixups.rs:106-161 | the in-place walk ends and relocates exactly the slots that the original links describe |
| Fixups.LayoutChain | crates/grafted-loader/src/chained_fixups.rs:106-161 | the links of a laid-out chain lead through its slots in order and the words there encode the list |
| Fixups.FixupsAtSlots | crates/grafted-loader/src/chained_fixups.rs:106-139 | the fixups a chain encodes are those of the words in the slots that the walk visits |
| Fixups.LayoutWalk | crates/grafted-loader/src/chained_fixups.rs:106-161 | any list of fixups laid out as a chain is one WalkChain accepts, and what the walk leaves is exactly their values, in order and in place, with every other byte as before the layout |
| FixupImage.ResolveImports | crates/grafted-loader/src/chained_fixups.rs:55-73 | entry i of the table is the address of the i-th imported name in the library its ordinal denotes |
| FixupImage.FixPage | crates/grafted-loader/src/chained_fixups.rs:97-161 | a page adds exactly the slots of its chain to the relocated ones, none when the format is unsupported |
| FixupImage.FixSegment | crates/grafted-loader/src/chained_fixups.rs:80-162 | the page loop relocates all chains of the segment and nothing else |
| FixupImage.FixSegments | crates/grafted-loader/src/chained_fixups.rs:80-163 | the segment loop relocates all chains of the image, in order |
| FixupImage.ApplyFixups | crates/grafted-loader/src/chained_fixups.rs:32-165 | every chain slot in every segment and page holds the value decoded from its original word, every other byte is unchanged; without fixup data nothing changes |
| FixupLaws.InPageChain | crates/grafted-loader/src/chained_fixups.rs:106-161 | a chain with links of 0 or at least 2 that stays in its page has pairwise disjoint slots inside that page |
| FixupLaws.DisjointPagesWellFormed | crates/grafted-loader/src/chained_fixups.rs:80-163 | legal chains in disjoint pages never overlap across pages |
| FixupLaws.PagesOfImage | crates/grafted-loader/src/chained_fixups.rs:80-104 | the pages named by the start tables of disjoint segments are disjoint and lie in their segments |
| FixupLaws.PagedImageWellFormed | crates/grafted-loader/src/chained_fixups.rs:80-163 | every image with disjoint segments and legal chains that stay in their pages meets what ApplyFixups relies on |
| FixupLaws.ValueMoves | crates/grafted-loader/src/chained_fixups.rs:118-139 | moving the load address moves a value by exactly that much if it is a non-null rebase, and not at all otherwise |
| FixupLaws.SlotsInImage | crates/grafted-loader/src/chained_fixups.rs:97-104 | all slots of such an image lie in its segments |
| FixupLaws.SlideIndependent | crates/grafted-loader/src/chained_fixups.rs:78-141 | images relocated at two slides agree byte for byte in their segments, except that each non-null rebase slot differs by exactly the slide difference; other memory may differ freely |
| RelocationMeaning.RebaseLeads | crates/grafted-loader/src/chained_fixups.rs:111-138 | a relocated pointer, in either format, is the address at which the segment byte it denotes was mapped, with the high bits of format 1 in its top byte |
| RelocationMeaning.NullStaysNull | crates/grafted-loader/src/chained_fixups.rs:117-138 | a rebase to nothing stays null |
| RelocationMeaning.BindValue | crates/grafted-loader/src/chained_fixups.rs:114-134 | a bound slot holds what its import resolves to, by library and name, plus the signed addend in format 6; a missing or null import gives null |
| FixupTables.HeaderReads | crates/grafted-loader/src/chained_fixups.rs:6-15 | a header laid out field by field is read back: starts, imports, symbols and import count |
| FixupTables.SegmentStartsRead | crates/grafted-loader/src/chained_fixups.rs:22-30 | the starts of a segment laid out field by field are read back: page size, format and all page starts |
| FixupTables.ImportReads | crates/grafted-loader/src/chained_fixups.rs:55-69 | a packed import gives its name offset and its library, the image itself for reserved ordinals |
| FixupTables.ChainsExact | crates/grafted-loader/src/chained_fixups.rs:80-104 | the chains walked are exactly those of pages with a start, each at its page's slid address plus the start offset |
| RunLoopTheorems.AddRegisters | crates/grafted-frameworks/src/cf/runloop.rs:395-418 | adding registers the item in every target mode, without duplicates, and disturbs no other mode, kind or item |
| RunLoopTheorems.RemoveUnregisters | crates/grafted-frameworks/src/cf/runloop.rs:421-439 | removing unregisters the item from every target mode and disturbs nothing else |
| RunLoopProgress.AddTakesEffect | crates/grafted-frameworks/src/cf/runloop.rs:395-418 | adding registers a non-null item in the mode named, or in all common modes, and nowhere else |
| RunLoopProgress.RemoveTakesEffect | crates/grafted-frameworks/src/cf/runloop.rs:421-439 | removing unregisters it there and nowhere else |
| RunLoopProgress.AddedLast | crates/grafted-frameworks/src/cf/runloop.rs:395-418 | a new item is registered last and an old one keeps its place |
| RunLoopProgress.RemovedInPlace | crates/grafted-frameworks/src/cf/runloop.rs:421-439 | removal keeps the order of the others |
| RunLoopProgress.OperationsTakeEffect | crates/grafted-frameworks/src/cf/runloop.rs:335-370 | a signal, a stop, a date and a common mode are there once the call returns |
| RunLoopHistory.KeepStack | crates/grafted-frameworks/src/cf/runloop.rs:222-332 | every step keeps the mode stack equal to the list of modes of the active runs |
| RunLoopHistory.TopHistory | crates/grafted-frameworks/src/cf/runloop.rs:241-331 | every step of the topmost run continues its history of announced activities in order |
| RunLoopHistory.KeepHistories | crates/grafted-frameworks/src/cf/runloop.rs:241-331 | every step, nested runs included, keeps the histories of all active and of all completed runs |
| RunLoopSignals.StepAccounts | crates/grafted-frameworks/src/cf/runloop.rs:258-261 | no step changes a source's or the loop's pending flag without logging exactly that change |
| RunLoopSignals.KeepConserved | crates/grafted-frameworks/src/cf/runloop.rs:260-261 | every step keeps, for each source, signal edges equal to dispatches plus the pending flag, and likewise for stop requests |
| RunLoopSignals.PassStable | crates/grafted-frameworks/src/cf/runloop.rs:249-274 | whatever nested runs and callbacks do, a pass still serves or has seen dispatched what was pending at its snapshot |
| RunLoopSignals.PassServed | crates/grafted-frameworks/src/cf/runloop.rs:258-274 | when a source pass ends normally every source pending at its snapshot has been dispatched since |
| RunLoopTheorems.KeepInvariant | crates/grafted-frameworks/src/cf/runloop.rs:222-332 | every client action and every step of a run keeps all invariants together |
| RunLoopTheorems.ReachableInvariant | crates/grafted-frameworks/src/cf/runloop.rs:222-332 | in every reachable state the mode stack mirrors the active runs, runs are nested, histories are in order, signals are conserved, passes are served and registries have no duplicates |
| RunLoopTheorems.RunRestoresStack | crates/grafted-frameworks/src/cf/runloop.rs:238-331 | from the entry of a run to its return the surrounding runs and the mode stack are restored, at any nesting depth |
| RunLoopTheorems.CompletedRun | crates/grafted-frameworks/src/cf/runloop.rs:241-331 | a run that is over announced ENTRY first and EXIT exactly once, last, and all activities in between unless it handled a source |
| RunLoopTheorems.PendingServed | crates/grafted-frameworks/src/cf/runloop.rs:249-274 | in any execution, every source registered in a completed run's own mode and pending when the run copied its sources was dispatched since, unless the run returned HANDLED_SOURCE |
| RunLoopTheorems.ReachableJustified | crates/grafted-frameworks/src/cf/runloop.rs:249-274 | every dispatch in the log of a reachable state is of a source in its run's recorded snapshot |
| RunLoopTheorems.SnapshotFaithful | crates/grafted-frameworks/src/cf/runloop.rs:250-257 | the step that records a snapshot records what is registered in the run's own mode, and what of it is pending, in the state before it |
| RunLoopTheorems.PerformedWasRegistered | crates/grafted-frameworks/src/cf/runloop.rs:249-263 | in any execution, a source is performed by a run only if it was registered in that run's own mode in the earlier state in which the run copied its sources |
| RunLoopObservers.KeepObserversTold | crates/grafted-frameworks/src/cf/runloop.rs:207-219 | every step, nested runs included, keeps for each active run: told so far plus still to tell is everyone who asked for the activity |
| RunLoopTheorems.FiringFaithful | crates/grafted-frameworks/src/cf/runloop.rs:208-210 | any announcement goes to the observers registered in the run's own mode at that moment |
| RunLoopTheorems.ObserversToldOnce | crates/grafted-frameworks/src/cf/runloop.rs:207-219 | in any execution, between two announcements of a run exactly the observers registered at the first, with a callback and asking for it, are told, in order and once each |
| RunLoopOutcomes.KeepOutcomes | crates/grafted-frameworks/src/cf/runloop.rs:249-331 | every step, nested runs included, keeps each active run's result accounted for by the items it handled and the stops it took, and its timers among those it copied |
| RunLoopTheorems.ReturnExplained | crates/grafted-frameworks/src/cf/runloop.rs:265-331 | in any execution, a run returns STOPPED if and only if it took a stop request itself, and HANDLED_SOURCE only after handling exactly one source or timer |
| RunLoopTheorems.DueWhenFired | crates/grafted-frameworks/src/cf/runloop.rs:286-291 | a timer is fired only when due by the clock the run has read |
| RunLoopTheorems.TimersFaithful | crates/grafted-frameworks/src/cf/runloop.rs:277-284 | the copy of the timers is what is registered in the run's own mode when it reads the clock |
| RunLoopTheorems.FiredWasRegistered | crates/grafted-frameworks/src/cf/runloop.rs:277-291 | in any execution, a run fires a timer only if it was registered in the run's own mode when the run read the clock, and is due by that clock when it fires |
| RunLoopTimers.FiredIffDue | crates/grafted-frameworks/src/cf/runloop.rs:286-291 | the step that looks at a timer fires it if and only if its date is at or before the run's clock |
| RunLoopTimers.TimersServed | crates/grafted-frameworks/src/cf/runloop.rs:277-305 | in any execution, a run that gets past its timers has looked at exactly those registered in its own mode when it read the clock, once each and in order |
| RunLoopTimers.DueTimerFired | crates/grafted-frameworks/src/cf/runloop.rs:286-291 | each of those timers was fired if and only if it was due by the run's clock in the state in which the run looked at it |
| RunLoopTimers.PastTimers | crates/grafted-frameworks/src/cf/runloop.rs:286-331 | a run that returned anything but HANDLED_SOURCE got past its timers |
| RunLoopTimers.FiringFinished | crates/grafted-frameworks/src/cf/runloop.rs:293-297 | the step after a firing dates the fired timer one interval after the run's clock, or never, and no other timer |
| RunLoopProgress.CallbackRuns | crates/grafted-frameworks/src/cf/runloop.rs:211-291 | a dispatch, firing or notice gives control to that item's callback, if it has one, and a run gives control to nothing else |
| RunLoopProgress.MaskAsks | crates/grafted-frameworks/src/cf/runloop.rs:52-57 | an observer is told about an activity if and only if its mask has that activity's bit |
| RunLoopProgress.TickProgresses | crates/grafted-frameworks/src/cf/runloop.rs:241-332 | every step of a run brings it closer to its return or is its return |
| RunLoopProgress.RunCanEnd | crates/grafted-frameworks/src/cf/runloop.rs:241-332 | from any state with an active run, letting callbacks return ends the topmost run |
| RunLoopProgress.RunStarts | crates/grafted-frameworks/src/cf/runloop.rs:228-241 | unless a stop is pending a call starts a run in its mode, with the caller's wish, and announces ENTRY |
| RunLoopObject.CFRunLoop.AddItem | crates/grafted-frameworks/src/cf/runloop.rs:395-418 | the loop over the common modes has the effect of one addition to all of them |
| RunLoopObject.CFRunLoop.RemoveItem | crates/grafted-frameworks/src/cf/runloop.rs:421-439 | the loop over the common modes has the effect of one removal from all of them |
| RunLoopObject.CFRunLoop.ContainsItem | crates/grafted-frameworks/src/cf/runloop.rs:373-392 | true if and only if a non-null source is registered in the mode, or in some common mode |
| RunLoopObject.CFRunLoop.AddCommonMode | crates/grafted-frameworks/src/cf/runloop.rs:592-601 | the machine's step: the mode becomes common and exists |
| RunLoopObject.CFRunLoop.Stop | crates/grafted-frameworks/src/cf/runloop.rs:335-338 | the machine's step: one stop request is pending |
| RunLoopObject.CFRunLoop.SourceSignal | crates/grafted-frameworks/src/cf/runloop.rs:366-370 | the machine's step: a non-null source is pending |
| RunLoopObject.CFRunLoop.RunInMode | crates/grafted-frameworks/src/cf/runloop.rs:222-241 | entry is refused exactly when a stop is pending, which it consumes, and then no run is on the stack |
| RunLoopObject.CFRunLoop.FireObservers | crates/grafted-frameworks/src/cf/runloop.rs:207-219 | the observers told are those registered in the run's mode at this moment |
| RunLoopObject.CFRunLoop.VisitSource | crates/grafted-frameworks/src/cf/runloop.rs:258-263 | the object takes the machine's step: the flag is cleared before the callback, so a new signal is not lost |
| RunLoopObject.CFRunLoop.VisitTimer | crates/grafted-frameworks/src/cf/runloop.rs:286-291 | the object takes the machine's step, of which FiredIffDue says that a due timer is fired and no other |
| RunLoopObject.CFRunLoop.AfterCallback | crates/grafted-frameworks/src/cf/runloop.rs:265-304 | the object takes the machine's step: the timer is re-armed, and the run leaves after one source if asked to |
| RunLoopObject.CFRunLoop.AfterWait | crates/grafted-frameworks/src/cf/runloop.rs:315-328 | the object takes the machine's step: a pending stop is consumed and decides the result |
| RunLoopObject.CFRunLoop.LeaveRun | crates/grafted-frameworks/src/cf/runloop.rs:326-331 | the object takes the machine's step: the run and its mode are popped |
| RunLoopObject.CFRunLoop.Step | crates/grafted-frameworks/src/cf/runloop.rs:241-332 | each step of the object is a step of the machine and keeps the invariant of reachable states |
| RunLoopObject.CFRunLoop.CallbackReturn | crates/grafted-frameworks/src/cf/runloop.rs:215-216 | a returning callback resumes its own run, below any runs it started, and keeps the invariant |
| TrapProtocol.EmitTrapCode | crates/grafted-loader/src/executor.rs:146-158 | the buffer filled index by index is the 15-byte trampoline |
| TrapProtocol.TrampolineStep | crates/grafted-loader/src/executor.rs:149-158 | the emitted bytes decode to three instructions that load r11, set the thread's own selector to BLOCK and return to the trapped code |
| TrapProtocol.OwnWritesOnly | crates/grafted-loader/src/executor.rs:310-359 | the handler outside the emulated syscall, and the trampoline, write only the thread's selector and the 8 bytes below its stack pointer |
| TrapProtocol.KeepGoodWorld | crates/grafted-loader/src/executor.rs:310-359 | every step of every thread, calls into libc that open the own selector included, keeps each thread where its trap requires it and all threads apart |
| TrapProtocol.SelectorsIndependent | crates/grafted-loader/src/executor.rs:310-359 | no step of a thread changes another thread's selector or state; for Darwin code and for the emulated syscall this is what the model assumes of them |
| TrapProtocol.TrapRemembers | crates/grafted-loader/src/executor.rs:310-359 | during a trap nobody changes the state it started from |
| TrapProtocol.TrapEnds | crates/grafted-loader/src/executor.rs:146-178 | the only step that ends a trap is the last trampoline instruction |
| TrapProtocol.ResultOfSyscall | crates/grafted-loader/src/executor.rs:343-345 | the result a thread carries through a trap is that of the emulated syscall of this trap, of which there is exactly one |
| TrapProtocol.TrapTransparent | crates/grafted-loader/src/executor.rs:310-359 | in every interleaving a trap ends with rax holding what the one emulated syscall of this trap returned, rip and rcx behind the syscall instruction, the selector's address in r11, every other register as at the trap, and the own selector at BLOCK |
| TrapProtocol.TrapAdvances | crates/grafted-loader/src/executor.rs:310-359 | each own step of a thread in a trap brings it one step closer to the end, and no other thread's step sets it back |
| TrapProtocol.TrapEnabled | crates/grafted-loader/src/executor.rs:310-359 | a thread in a trap whose stack word is mapped is never stuck |
| TrapProtocol.TrapCanEnd | crates/grafted-loader/src/executor.rs:310-359 | from every state in which a thread can trap there is a run of eight moves of its own that ends the trap |
| TrapProtocol.StraySignalBlocks | crates/grafted-loader/src/executor.rs:324-327 | in every interleaving a SIGSYS that is no dispatch leaves the thread where it was, with its selector at BLOCK whatever it was before |
| Trampoline.EmitCode | crates/grafted-dyld/src/shims.rs:235-264 | the running index fills the buffer with exactly the trampoline code |
| Trampoline.Pool.Gen | crates/grafted-dyld/src/shims.rs:212-267 | a trampoline is handed out exactly while there is room; all earlier ones stay intact and no byte outside the new one changes |
| Trampoline.PoolDisjoint | crates/grafted-dyld/src/shims.rs:212-267 | every trampoline lies in the pool and overlaps no other |
| Trampoline.CallHelper | crates/grafted-dyld/src/shims.rs:235-251 | from any register state the code calls the helper with rax and the six integer argument registers saved on the stack |
| Trampoline.PopAndJump | crates/grafted-dyld/src/shims.rs:251-264 | after the helper, the code restores rax, the integer argument registers and the stack pointer and reaches the target |
| Trampoline.TrampolineTransparent | crates/grafted-dyld/src/shims.rs:204-268 | with any ABI-conforming helper, also one that maps memory, the target is reached with rax, the integer argument registers, stack pointer and callee-saved registers as on entry, the selector at ALLOW, and a 16-byte aligned stack at the inner call |
| SelectorPage.KeepGood | crates/grafted-loader/src/executor.rs:46-80 | every atomic step of every thread keeps one common page and distinct tickets |
| SelectorPage.RunGood | crates/grafted-loader/src/executor.rs:46-80 | the invariant holds after any interleaving |
| SelectorPage.SelectorsDistinct | crates/grafted-loader/src/executor.rs:46-80 | threads that completed allocation hold bytes of one common page at different offsets below 4096 |
| SelectorPage.TicketsCollide | crates/grafted-loader/src/executor.rs:71-80 | offsets repeat only after 2^64 tickets, and then they do |
| SelectorPage.RunTurnsNoneAway | crates/grafted-loader/src/executor.rs:71-80 | no thread is turned away before 4096 others have been served |
| SelectorPage.AllocationProgresses | crates/grafted-loader/src/executor.rs:46-80 | each step of a thread brings it closer to its selector and moves no other thread |
| ProcessStack.PushString | crates/grafted-loader/src/executor.rs:887-897 | the string and its NUL stand at the returned pointer and nothing else is written |
| ProcessStack.PushStrings | crates/grafted-loader/src/executor.rs:899-901 | all strings stand at their pointers, none overwriting another, all within the given range |
| ProcessStack.PushVector | crates/grafted-loader/src/executor.rs:912-930 | the pointers stand in order, NULL-terminated, although they are pushed last first |
| ProcessStack.PushBlock | crates/grafted-loader/src/executor.rs:912-932 | argc and the three vectors stand one after the other and nothing above them changes |
| ProcessStack.BuildStack | crates/grafted-loader/src/executor.rs:870-935 | argc, the three vectors and all strings stand on the stack, and every byte written lies within it |
| ProcessStack.AppleNamesPath | crates/grafted-loader/src/executor.rs:880-886 | the one apple string is executable_path= and the program's path |
| ProcessStack.StackRoundTrip | crates/grafted-loader/src/executor.rs:870-935 | a program reading from the returned, 16-byte aligned pointer gets argc and exactly argv, envp and apple |
| ProcessStack.EnterMain | crates/grafted-loader/src/executor.rs:1000-1017 | the exit stub's address is on top, argc is read back from memory and the argument registers point into the block |
| ProcessStack.MainArguments | crates/grafted-loader/src/executor.rs:989-1017 | the registers lead to argc, argv and envp, on a stack aligned as after a call |
| ProcessStack.FourthArgumentIsNotApple | crates/grafted-loader/src/executor.rs:1000-1017 | the fourth register leads to envp, which is the apple vector if and only if the two lists are equal |
| MachPortLaws.KeepPortsOk | crates/grafted-dyld/src/mach_ipc.rs:137-241 | an operation leaves every live port with a right if and only if it is not the one that wraps a full send count |
| MachPortLaws.CounterWrapReached | crates/grafted-dyld/src/mach_ipc.rs:184-201 | some run reaches a full send count, and one more insertion leaves a name without any right that the type call reports as invalid |
| MachPortLaws.TypeFindsNames | crates/grafted-dyld/src/mach_ipc.rs:257-305 | the type call reports an invalid name exactly for absent names |
| MachPortLaws.AdjustedExact | crates/grafted-dyld/src/mach_ipc.rs:218-225 | the signed arithmetic of mod_refs is exact if and only if the sum is below 2^31 |
| MachPortLaws.AdjustmentDropsPort | crates/grafted-dyld/src/mach_ipc.rs:218-236 | a run of two successful calls in which raising the count of a port with one send right drops the port |
| MachPortLaws.KeepNamesOk | crates/grafted-dyld/src/mach_ipc.rs:137-190 | names stay non-null and below the counter if and only if nobody inserts a foreign name or allocates after KERN_NO_SPACE |
| MachPortLaws.AllocatedNameFresh | crates/grafted-dyld/src/mach_ipc.rs:137-158 | an allocated name is new, and neither null, dead nor special |
| MachPortLaws.AllocationPastTheEnd | crates/grafted-dyld/src/mach_ipc.rs:137-158 | after KERN_NO_SPACE the next allocations hand out the dead name and the null name |
| MachPortLaws.AllocatedDistinct | crates/grafted-dyld/src/mach_ipc.rs:137-158 | two allocations of one run never return the same name |
| MachPortLaws.KeepQueues | crates/grafted-dyld/src/mach_ipc.rs:243-255 | every operation keeps: sent to a port incarnation equals received from it followed by its queue |
| MachPortLaws.RunFaithful | crates/grafted-dyld/src/mach_ipc.rs:243-393 | over any run the queues are first in, first out and lose nothing |
| MachPortLaws.RunSound | crates/grafted-dyld/src/mach_ipc.rs:120-269 | in every state of a run without the three breaking branches each live port holds a right, names are proper, dead ports have empty queues |
| MachPortLaws.ReachableTypes | crates/grafted-dyld/src/mach_ipc.rs:257-305 | in all those states the type call fails exactly for absent names |
| MachPortLaws.RightsOnTheBooks | crates/grafted-dyld/src/mach_ipc.rs:137-241 | over any run with exact counters a name is live exactly while the books of its callers show a right under it, and the port holds exactly those rights |
| MachPortLaws.TypeReports | crates/grafted-dyld/src/mach_ipc.rs:257-269 | the type call reports receive, send and dead-name rights each by its own bit |
| MachPortLaws.ReturnCodes | crates/grafted-dyld/src/mach_ipc.rs:137-241 | which calls succeed, and the codes of those that do not |
| MachPortLaws.ReceiverSees | crates/grafted-dyld/src/mach_ipc.rs:359-380 | the receiver gets the sender's header with the size rewritten and the first min(body, rcv_size - 24) bytes; the rest of its buffer is untouched |
| MachPortLaws.CopyBounded | crates/grafted-dyld/src/mach_ipc.rs:365-366 | the copy fits what the receiver offered, for all messages, if and only if it offered room for a header |
| MachPortLaws.BufferSuffices | crates/grafted-dyld/src/mach_ipc.rs:359-380 | a receiver that offers at least a header's room, and has what it offers, is never overrun |
| MachPortLaws.SendReceive | crates/grafted-dyld/src/mach_ipc.rs:308-393 | in any run, a message sent to an idle port is what the next receive on it delivers, whatever happens to other ports in between, with header and body as sent when the receiver has room |
| MachPortLaws.OthersUntouched | crates/grafted-dyld/src/mach_ipc.rs:137-255 | an operation changes only the ports it names |
| MachPortLaws.FailedSend | crates/grafted-dyld/src/mach_ipc.rs:343-346 | a failed send changes no queue and receives nothing |
| MachPortLaws.EmptyReceive | crates/grafted-dyld/src/mach_ipc.rs:382-389 | a receive on an empty or absent port times out and changes nothing |
| MachPortLaws.CombinedCall | crates/grafted-dyld/src/mach_ipc.rs:319-359 | a combined call sends to the remote port and takes its reply from the local one |
| MachPortLaws.OptionBits | crates/grafted-dyld/src/mach_ipc.rs:319-351 | bit 0 of the option asks for a send, bit 1 for a receive |
| MachPortSpace.PortSpace.AllocatePort | crates/grafted-dyld/src/mach_ipc.rs:137-158 | the object changes as the specified space does; a handed-out name is new, and neither null, dead nor special |
| MachPortSpace.PortSpace.DeallocatePort | crates/grafted-dyld/src/mach_ipc.rs:160-173 | one send right is given up, as the ledger has it, and the name disappears with its last right |
| MachPortSpace.PortSpace.InsertPortRight | crates/grafted-dyld/src/mach_ipc.rs:175-212 | a missing name is created, a present one gains the right, a wrong type is refused; a valid space stays valid unless the counter wraps or the name is foreign |
| MachPortSpace.PortSpace.ModifyRefs | crates/grafted-dyld/src/mach_ipc.rs:214-241 | counts are adjusted and clamped, and the name disappears with its last right; a valid space stays valid |
| MachPortSpace.PortSpace.Send | crates/grafted-dyld/src/mach_ipc.rs:243-251 | the message is queued last, or refused for an absent or dead port |
| MachPortSpace.PortSpace.Receive | crates/grafted-dyld/src/mach_ipc.rs:253-255 | the first queued message is taken |
| MachPortSpace.PortSpace.Message | crates/grafted-dyld/src/mach_ipc.rs:308-393 | the call on the caller's buffer refines the specified send-then-receive and keeps a valid space valid |
| CFRefs.RetainBalance | crates/grafted-frameworks/src/cf/types.rs:57-59 | a retain puts exactly one more reference in circulation and leaves all other accounts alone |
| CFRefs.ReleaseBalance | crates/grafted-frameworks/src/cf/types.rs:62-112 | a release takes exactly one reference out; a freed container's references are accounted as leaked |
| CFRefs.RewriteBalance | crates/grafted-frameworks/src/cf/dictionary.rs:86-116 | replacing a container's contents moves references between the container and the operation, exactly |
| CFRefs.AllocateBalance | crates/grafted-frameworks/src/cf/dictionary.rs:19-43 | a new container takes over the references collected for it, and the client owns it |
| CFRefs.FillBalance | crates/grafted-frameworks/src/cf/dictionary.rs:25-38 | the creation loop collects exactly the references the new dictionary holds, duplicates of a key being leaked |
| CFRefs.KeepBalanced | crates/grafted-frameworks/src/cf/dictionary.rs:19-116 | after every disciplined operation each live object's count is owned references plus occurrences plus leaked ones |
| CFRefs.RunBalanced | crates/grafted-frameworks/src/cf/types.rs:57-114 | the identity holds over every run of disciplined clients |
| CFRefs.HeldIsLive | crates/grafted-frameworks/src/cf/types.rs:87-114 | no object held by a live container is ever freed |
| CFRefs.LeaksOnly | crates/grafted-frameworks/src/cf/dictionary.rs:19-43 | a creation leaks if and only if a repeated key overwrites a non-null value, and then the retains the dictionary does not hold; any other operation leaks exactly what the object it frees held, and nothing if it frees none |
| CFRefs.FillOverwrites | crates/grafted-frameworks/src/cf/dictionary.rs:25-38 | the creation loop leaks if and only if some pair overwrites a non-null value of the same key |
| CFRefs.FillLeaks | crates/grafted-frameworks/src/cf/dictionary.rs:25-38 | leaked plus held references after the loop equal the leaked ones before plus the values read |
| CFRefs.StoredUnderKey | crates/grafted-frameworks/src/cf/dictionary.rs:86-102 | after a store the key has the value and every other key what it had |
| CFRefs.RemovedKey | crates/grafted-frameworks/src/cf/dictionary.rs:105-116 | after a removal the key is gone and every other key has what it had |
| CFRefs.AppendedLast | crates/grafted-frameworks/src/cf/array.rs:62-66 | the value is appended last and the earlier ones keep their places |
| CFRefs.CreatedContents | crates/grafted-frameworks/src/cf/dictionary.rs:19-43 | a new dictionary has for each key the last value given, a new array the values in order, and either is empty when an array is missing |
| CFRefs.OthersHoldTheSame | crates/grafted-frameworks/src/cf/dictionary.rs:19-116 | no operation changes what any other container holds |
| CFObjects.CFHeap.IncRef | crates/grafted-frameworks/src/cf/types.rs:57-59 | one object's count grows, with the counter's wrap-around |
| CFObjects.CFHeap.DecRef | crates/grafted-frameworks/src/cf/types.rs:62-64 | true exactly when the last reference is given up |
| CFObjects.CFHeap.Drop | crates/grafted-frameworks/src/cf/types.rs:90-112 | the object is freed with its last reference and its children keep their counts |
| CFObjects.CFHeap.CFRetain | crates/grafted-frameworks/src/cf/types.rs:77-83 | keeps the accounting identity; null is returned unchanged |
| CFObjects.CFHeap.CFRelease | crates/grafted-frameworks/src/cf/types.rs:87-114 | keeps the accounting identity; null is ignored |
| CFObjects.CFHeap.CFDictionaryCreate | crates/grafted-frameworks/src/cf/dictionary.rs:19-43 | keeps the accounting identity; the loop builds the specified dictionary and the specified leaks |
| CFObjects.CFHeap.CFDictionarySetValue | crates/grafted-frameworks/src/cf/dictionary.rs:86-102 | keeps the accounting identity, also when the old and the new value are one object |
| CFObjects.CFHeap.CFDictionaryRemoveValue | crates/grafted-frameworks/src/cf/dictionary.rs:105-116 | keeps the accounting identity; the removed value is released once |
| CFObjects.CFHeap.CFArrayCreate | crates/grafted-frameworks/src/cf/array.rs:16-34 | keeps the accounting identity; the array holds the values in order, each retained |
| CFObjects.CFHeap.CFArrayAppendValue | crates/grafted-frameworks/src/cf/array.rs:62-66 | keeps the accounting identity |
| Linker.DependencyLoader.LoadDependencies | crates/grafted-dyld/src/linker.rs:113-165 | the worklist ends on cyclic graphs; each name is mapped at most once; every name settled as missing, unreadable or loaded is so because of what resolver, parser and mapper answered to a request that the binary or a library loaded before makes, and a loaded one stands in the table with its slide; on Ok every name asked for is settled or in the registry; a map error has a request that cannot be mapped as its cause; earlier libraries stay |
| Linker.LoadWork | crates/grafted-dyld/src/linker.rs:145-161 | loading one library keeps every name asked for either settled, in the registry or on the list |
| Linker.LoadExplained | crates/grafted-dyld/src/linker.rs:145-161 | loading one library keeps every outcome explained and gives every new work item its origin |
| Linker.LoadedReachable | crates/grafted-dyld/src/linker.rs:113-165 | every loaded library is reached from the main binary through loaded libraries |
| Linker.DependenciesSettled | crates/grafted-dyld/src/linker.rs:113-165 | on Ok, for each dependency of the binary and of each loaded library, the registry supplies it, or some request for it found no file, found an unreadable file, or found the library now loaded |
| ObjCDispatch.InternInjective | crates/grafted-objc/src/runtime.rs:55-71 | two texts never share an interned selector |
| ObjCDispatch.LookupRefines | crates/grafted-objc/src/runtime.rs:96-181 | lookup is dispatch by name, whichever resolvable pointer carries the name |
| ObjCDispatch.LongNamesGetDefault | crates/grafted-objc/src/runtime.rs:119-181 | any other pointer gets the built-in default for its name |
| ObjCDispatch.LookupExact | crates/grafted-objc/src/runtime.rs:96-181 | lookup agrees with dispatch by name if and only if the pointer is resolvable or no class of the receiver answers the name |
| ObjCDispatch.MethodFound | crates/grafted-objc/src/runtime.rs:96-181 | a message reaches the receiver's own method, else that of the class its isa points to, else the default; an isa outside user space supplies nothing |
| ObjCDispatch.BuiltInDefaults | crates/grafted-objc/src/runtime.rs:145-180 | which names get which built-in default |
| ObjCDispatch.NullReceiverFindsNothing | crates/grafted-objc/src/runtime.rs:96-103 | a message to null reaches nothing |
| ObjCDispatch.LongNameMissed | crates/grafted-objc/src/runtime.rs:119-142 | a concrete registered method with a long name that a second pointer misses |
| ObjCDispatch.KeepImplements | crates/grafted-objc/src/runtime.rs:15-23 | registering through interned pointers keeps the pointer index equal to the table by name |
| ObjCDispatch.RunImplements | crates/grafted-objc/src/runtime.rs:15-71 | over every run the index is the table, interned pointers never change and the first registration of a class and name wins forever |
| ObjCDispatch.RunDispatches | crates/grafted-objc/src/runtime.rs:15-181 | after any run of registrations and newly mapped selector strings, from the empty runtime, a message through any resolvable pointer reaches what was registered first for the receiver, else for the class its user-space isa points to, else the default |
| ObjCDispatch.ObjCRuntime.SelRegisterName | crates/grafted-objc/src/runtime.rs:55-71 | the returned pointer is the interned one for the text; null gives null |
| ObjCDispatch.ObjCRuntime.ClassAddMethod | crates/grafted-objc/src/runtime.rs:15-23 | true exactly when the pair was not registered before, and a registered one is kept |
| ObjCDispatch.ObjCRuntime.FindIn | crates/grafted-objc/src/runtime.rs:110-116 | the entry of the first non-null class that has one, or none if no class has |
| ObjCDispatch.ObjCRuntime.LookupMethod | crates/grafted-objc/src/runtime.rs:96-181 | the two loops over the classes give the specified answer |
| Patching.SaveOriginals | crates/grafted-frameworks/src/registry.rs:1655-1664 | every function found has its site and every site is that of a function found, remembering the bytes memory holds |
| Patching.PatchFunctionAt | crates/grafted-frameworks/src/registry.rs:1064-1080 | exactly the 12 bytes of the jump are written, or none for a null or locked function |
| Patching.ApplyLifecyclePatches | crates/grafted-frameworks/src/registry.rs:1763-1775 | the sites are patched in order, skipping those that cannot be |
| Patching.RestoreLifecyclePatches | crates/grafted-frameworks/src/registry.rs:1778-1789 | the saved bytes of all sites are written back in order |
| Patching.RestoreGivesBack | crates/grafted-frameworks/src/registry.rs:1778-1789 | restoring undoes any change within the saved bytes, however the sites overlap or repeat |
| Patching.CyclesRestore | crates/grafted-frameworks/src/registry.rs:1763-1789 | any number of apply and restore cycles, with any patches skipped, returns memory to its original bytes |
| Patching.RestoreExact | crates/grafted-frameworks/src/registry.rs:1763-1789 | for sites of any size, restoring undoes the patches if and only if each byte that was patched but not saved is the byte the patch left; sites of at least twelve bytes leave none |
| Patching.PatchedJumps | crates/grafted-frameworks/src/registry.rs:1072-1077 | executing a patched function reaches the replacement with only rax changed |
| Patching.PatchStands | crates/grafted-frameworks/src/registry.rs:1763-1775 | a patched site holds its jump unless a later site overlaps it |
| SwiftString.ToLinuxString | crates/grafted-frameworks/src/swift_string_abi.rs:33-77 | the shifting and or-ing loops produce the canonical encoding of the string's bytes |
| SwiftString.PackBytes | crates/grafted-frameworks/src/swift_string_abi.rs:64-73 | or-ing shifted bytes packs them little-endian, padded with zeros |
| SwiftString.TagByte | crates/grafted-frameworks/src/swift_string_abi.rs:74 | the tag and count become the top byte without touching the payload |
| SwiftString.DecodeSwift | shims/SwiftUI.swift:115-124 | the independent decoder reads the same bytes as the Rust layout, for every tagged string |
| SwiftString.EncodeContent | crates/grafted-frameworks/src/swift_string_abi.rs:22-77 | what is encoded is read back, with its length and its tag |
| SwiftString.SmallStringPreserved | crates/grafted-frameworks/src/swift_string_abi.rs:33-77 | translating a small string keeps its bytes |
| SwiftString.CanonicalPadding | crates/grafted-frameworks/src/swift_string_abi.rs:33-77 | two small strings have equal contents if and only if their translations are equal words |
| SwiftString.Idempotent | crates/grafted-frameworks/src/swift_string_abi.rs:33-77 | translating twice is translating once |
| SwiftString.BridgedString | crates/grafted-frameworks/src/swift_string_abi.rs:45-60 | a string with bit 62 set that is not tagged small becomes its first 15 bytes, all of it if and only if it is that short |
| SwiftString.TagBits | crates/grafted-frameworks/src/swift_string_abi.rs:22-31 | the small tag is the top four bits 1110, the bridged mark is bit 62 |
| SwiftString.OthersPassedOn | crates/grafted-frameworks/src/swift_string_abi.rs:57-61 | any other string is passed on as it is |
| Mapper.MapSegment | crates/grafted-loader/src/mapper.rs:26-87 | succeeds if and only if the kernel grants mapping and protection; then each byte of the segment, wherever it was placed, is its file byte or zero; memory outside its pages is unchanged in any case |
| Mapper.MapBinary | crates/grafted-loader/src/mapper.rs:90-137 | each error is returned exactly for its cause: no segments, a region or segment the kernel refuses, no __TEXT; otherwise all segments stand at their slid addresses, an executable with a fixed __TEXT at slide 0 and a dylib at the region reserved for it, and the entry is the one the load command denotes |
| Mapper.OthersKept | crates/grafted-loader/src/mapper.rs:118-123 | mapping one more segment leaves the earlier ones as they are |
| Mapper.SegmentsInRegion | crates/grafted-loader/src/mapper.rs:97-113 | every segment of a slid dylib lies in the region reserved for it |
| Mapper.TotalSizeTight | crates/grafted-loader/src/mapper.rs:97-105 | what is reserved is no more than the highest segment needs |
| Mapper.EntryByte | crates/grafted-loader/src/mapper.rs:127-130 | for LC_MAIN the byte at the entry address is the file byte at the entry offset |
| Mapper.EntryAddress | crates/grafted-loader/src/mapper.rs:131-133 | for LC_UNIXTHREAD the byte at the entry address is the segment byte at the unslid entry point |

## Left out

General choices:

- Machine arithmetic wraps around as in a release build; the overflow panics of a debug build are not
  modelled.
- Memory is sequentially consistent; weak memory orderings, mutexes and real thread scheduling are not
  modelled, and threads interleave at atomic steps.
- Logging, `mprotect` (beyond whether it succeeds) and environment variables are not modelled.

Relocation and mapping:

- Symbol resolution is a pure function of library and name; names are bytes, without the UTF-8 check.
- A fixup header that points outside its data panics in the source; the model requires it to be in
  range. Additions that would leave the 64-bit address space are excluded by well-formedness.
- MapSegment: says nothing of the segment's contents when mprotect fails, because the loader gives up
  then.
- MapBinary: assumes that no two segments share a page, that no segment has more file bytes than memory
  and that none lands at address zero, as the format requires; the translation of protections is a
  finite table. Whether the kernel grants a mapping depends on its address and size only.

Run loop:

- The modes of a call are given as strings; the decoding of mode names from CFString pointers is not
  modelled. The fields of source and timer objects are kept in the run loop object as a set and a map.
- The native call stack is the explicit stack of frames; `log` and run numbers exist only to state the
  properties. The clock is an input; the wait on X11 events, and its duration, is not modelled.
- The observers' `repeats` and `order` fields are stored but unused by the source. A timer is re-armed
  only after its callback, so it can fire again in a nested run; nothing is claimed against that.

Executor and emitted code:

- The effect of an emulated syscall is a result and a new memory, possibly with other mappings, that
  leaves selectors, trampolines and other threads' saved words alone. Code outside the handler is
  assumed to do the same, except that it may set its own thread's selector, as every call into libc does.
  Threads are neither started nor ended.
- TrapTransparent: does not model a thread without a selector pointer, nor real signal delivery and
  the syscall made by sigreturn itself. That the selector is at BLOCK whenever Darwin code runs is not
  claimed: libc trampolines leave it at ALLOW on purpose.
- TrampolineTransparent: the helper is any code that obeys section 3.2.1 of the System V AMD64 ABI; the
  interpreter covers the emitted instructions only, without flags and page permissions. The vector
  registers are not modelled: the emitted code does not save xmm0 to xmm7, which carry floating-point
  arguments and which the ABI lets a helper overwrite.
- BuildStack: the host environment is a parameter; the substitution of single variables, the device
  file and the gs set-up are not modelled.
- EnterMain: requires room for one more word, which the source does not check.
- SelectorsDistinct: assumes at most 2^64 allocations, exactly the bound TicketsCollide gives, and
  that mmap succeeds.
- The SIGSEGV handler, the instruction decoder it uses and the patching of NOPs are heuristics without
  a clean specification.

Mach ports:

- Message: requires that what is copied into the caller's buffer fits it, which BufferSuffices derives
  for sizes of at least 24; CopyBounded shows what happens below that. Timeouts and notify ports are
  unused by the source.
- RunSound: excludes the three operations that KeepPortsOk and KeepNamesOk show to break it.

CF objects:

- Allocation may pick any free address. Keys are compared by pointer and not retained, as in the
  source; CFEqual, CFHash, strings, data and numbers are left out.
- KeepBalanced: is about disciplined clients, which pass live objects, give back only what they own and
  never hold 2^32 references to one object.

Linking, dispatch, patching, strings:

- LoadDependencies: the resolver, the parser and the mapper are functions, and the names the graph can
  mention form a finite set. Binding, symbol lookup and initializers are left out.
- Selector texts are ASCII strings; the lossy UTF-8 conversion, class names and the Swift metadata
  stubs are left out.
- SaveOriginals: models the loop over the known functions; the legacy patches at fixed addresses of one
  program are left out.
- DecodeSwift: the decoder's branches for other layouts are left out.
- The X11, AppKit and SwiftUI code, the kernel module, `dlopen` and `dlsym`, the symbol and syscall
  tables, file parsing, NSNotificationCenter and CG geometry are not modelled: they are foreign calls,
  constants or easier than the parts above.
