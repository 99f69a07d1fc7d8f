# Verified model of the DCE runtime

DCE runs many virtual POSIX processes inside one address space, on a scheduler that never
takes the processor away from a running thread. This project models the parts of the
runtime that carry protocols over that arrangement, and proves what they keep over whole
runs. `dafny verify dfyconfig.toml` checks everything.

* **Global variables** (`LoaderStore`, `CoojaLoader`, `LoaderRuns`). All processes share one
  copy of each library; the loader swaps the data sections in and out lazily, on switches,
  loads, forks and unloads, and counts references on two levels. `LoaderStore` is the store
  as plain values, `CoojaRuntime` the loader's operations on it, with an explicit heap, so
  that a use after free would be a failed proof. `LoaderRuns.Reads` is what a process finds
  in a library's variables; `Perform` shows that every operation changes what anybody reads
  exactly as if each process had its own memory, the run lemmas follow from that alone, and
  `Session` records a loader at work and ties the two together.
  A module and its buffer are allocated and freed together and share one pointer. The counts
  are tied to the references that clients hold, to the dependency edges, and to a surplus
  that is zero until a fork: `Clone` copies a count and then counts the dependency edges of
  the copy again, so a child's counts are exact just when its parent's were and no library
  of the parent depends on another (`ForkExactWhen`).
* **Dependencies** (`StringOrder`, `Chains`, `DepthWalk`, `ElfLdd`, `ElfDependencies`,
  `ElfCache`, `LoadOrder`). The worklist closure over needed files, the memoised bounded depth
  that doubles as a test for circles, the order by depth, the filter, the store of edited files
  with its replacement table, and their composition with the loader: `LoadFile` and
  `LoadMain` are steps of a recorded session, in which no look-up can miss and which nobody
  else can tell. `DepthWalk.Walk` is the depth computation without its memory, and the outcome
  of the one with memory is that of the one without. A `Files` value stands for the file
  system: which paths exist, and for each readable file its needed names and its search path.
  `SmallDirectories` and `HostOnlyNeed` are inputs.
* **Processes and threads** (`ProcessTable`, `Threads`). Pids, fork, exit, stop,
  re-parenting, zombies and waitpid; thread ids, handles, create, exit, join and detach.
* **Synchronisation** (`WaitingList`, `PthreadMutex`, `Semaphore`). First-in-first-out lists
  of suspended threads, with barging, re-queueing and wake-ups for other reasons.
* **Paths, buffers, descriptors** (`CanonicalPath`, `ShortestPaths`, `SearchPaths`,
  `FifoBuffer`, `Descriptors`, `FileRuns`). The canonical form is a fold over components that keeps what a
  path means; a list of components amounts to so many steps up and then down along names, and
  that decides both how short a path can be and whether it leaves a directory. Every operation
  on the descriptor tables records its steps, and `FileRuns` says what becomes of a file over
  whole runs of such steps.

Between two calls that give up the processor nothing else runs, so every method is one
atomic step. A call that blocks is split: the first step ends when the thread suspends
itself, and a `Resume` step, allowed once the thread has been woken for whatever reason,
goes on from there. `Options` holds the one option type.

Properties that look plausible and are false of the code are stated with an input or a run
that breaks them and with the exact condition under which they hold:

* *Posting to a semaphore lets a waiting thread run.* `Semaphore.PromptnessLost` and
  `PromptAllAlong` say which steps strand a waiter, `BinaryIsPrompt` what is left of them
  when the count stays at one; `TwoPostsStrandAWaiter` and `ExpiryStrandsAWaiter` are runs.
* *Canonical paths are shortest.* `ShortestPaths.ShortestWhen` gives the condition, on the
  result and on the branches the input takes; `NotShortest` has an input for each case.
* *Nothing below a virtual root is found outside it.* `SearchPaths.SeekStaysBelow` gives the
  condition; `BaseIsLeft` and `BaseIsLeftByName` leave the base.
* *A detached thread's record is freed.* `Threads.LeakedIffAbandoned` says when it never is;
  `LeakReached` is a run.
* *A process that gives back what it was handed keeps nothing.* `LoaderRuns.Perform` says
  which loads leave a module without a reference, `ForkExactWhen` which forks leave one
  reference too many, and `Session.NothingStays` that there is no third way; `LoadForNobody`,
  `ForkForNobody` and `HostOnlyNeed.FromTheBeginning` are runs, and `LoadOrder.OrderIsRooted`
  is a condition on the file system that rules the first way out.
* *A process can be created while a pid is free.* The last clauses of `AllocatePid`, and the
  run `ProcessTable.RefuseWithOneFree`.
* *A process ends with its last thread.* `Threads.LastExit` says when it does not, and
  `HungIffExitsLast` that this is the only way to hang; `HangReached` is a run.
* *A file is closed once, and not before its last entry goes.* `FileRuns.TidyAllAlong` says which
  steps break the rule, over every run, and `ClosedOnceWhen` which files end up closed once;
  `Descriptors.CloseTwice`, `CloseNever` and `CloseEarly` are runs.
* *Whatever is looked up while depths are computed was scanned.* `ElfLdd.MissingWhen` says when
  not: the walk comes to an unusable file before it comes to a circle (`DepthWalk.Meets`).
  `SmallDirectories.FollowsMissing` and `StopsAtCircle` are inputs on either side.

`FileTables.Dup2` accepts negative targets and the target 1024, as the code does.

Points where the model follows the code rather than what the code assumes: unlock calls
`front ()` on a list that may be empty (modelled as a test first); `ElfLdd` follows a null
pointer when it looks up a file that was not scanned (the outcome `Missing`, after which there
is no list; `MissingWhen` says exactly when); a relative entry of a search path is passed over
when no working directory is given.

## Model

| member | source | states |
|---|---|---|
| CoojaLoader.CoojaRuntime.Start | model/cooja-loader-factory.cc:380-383 | a new process has no modules; nothing else changes |
| CoojaLoader.CoojaRuntime.constructor | model/cooja-loader-factory.cc:102-107 | the empty store is consistent |
| CoojaLoader.CoojaRuntime.Learn | model/elf-cache.cc:322-371 | when more files have been edited, everything the loader relies on still holds |
| CoojaLoader.CoojaRuntime.NotifyStartExecute | model/cooja-loader-factory.cc:110-133 | after a switch all modules of the process are live, and through every module of every process the same values are read as before |
| CoojaLoader.CoojaRuntime.Activate | model/cooja-loader-factory.cc:114-131 | one module of the loop: the live section is saved for whoever is current and filled from this module |
| LoaderStore.SwitchKeepsViews | model/cooja-loader-factory.cc:110-133 | any sequence of save/restore steps is unobservable and keeps the counts |
| LoaderStore.SwitchMakesLive | model/cooja-loader-factory.cc:110-133 | each module of the list ends up current, since libraries on a list are distinct |
| CoojaLoader.CoojaRuntime.Write | model/dce-manager.cc:365-378 | a write to a live section changes the view of the current process for that library and no other view |
| CoojaLoader.CoojaRuntime.UnrefSharedModule | model/cooja-loader-factory.cc:292-320 | in the middle of an unload too, the count of each shared module is its users plus incoming dependencies plus what is still owed; records with a count of zero are gone; only libraries below are touched, so the recursion ends |
| CoojaLoader.CoojaRuntime.UnrefDependencies | model/cooja-loader-factory.cc:306-311 | gives up, one by one, the references a shared module held, touching only libraries below it |
| CoojaLoader.CoojaRuntime.ReleaseModule | model/cooja-loader-factory.cc:326-336 | freeing a module clears its claim on the live section and leaves all other modules, their views and their liveness alone |
| CoojaLoader.CoojaRuntime.UnloadModule | model/cooja-loader-factory.cc:340-371 | one reference less: the module and then its dependencies go when their last reference goes, only modules of this process for libraries up to this one; counts stay exact up to what is owed |
| CoojaLoader.CoojaRuntime.FreeDetached | model/cooja-loader-factory.cc:351-366 | the rest of an unload, after the module left its list |
| CoojaLoader.CoojaRuntime.UnloadDependencies | model/cooja-loader-factory.cc:353-358 | gives up the references a detached module holds, one by one |
| CoojaLoader.CoojaRuntime.Unload | model/cooja-loader-factory.cc:340-371 | a client gives back a reference; nothing reachable is freed; no module is newly left without a reference, and one that had none, or has a surplus, stays; unknown handles change nothing |
| CoojaLoader.CoojaRuntime.SearchModule | model/cooja-loader-factory.cc:180-192 | finds a module for the library on the list, or there is none |
| CoojaLoader.CoojaRuntime.CreateSharedModule | model/cooja-loader-factory.cc:222-253 | a library comes in with one reference to each dependency, the others unchanged but for counts |
| CoojaLoader.CoojaRuntime.LinkDependencies | model/cooja-loader-factory.cc:277-284 | each dependency is the process's own module of that library and is counted once more |
| CoojaLoader.CoojaRuntime.LinkOne | model/cooja-loader-factory.cc:277-284 | one dependency: the process's own module of that library, counted once more |
| CoojaLoader.CoojaRuntime.CreateModule | model/cooja-loader-factory.cc:254-287 | a new module is live and reads as the pristine copy; every other view is kept, the previous owner's values having been saved |
| CoojaLoader.CoojaRuntime.TakeSection | model/cooja-loader-factory.cc:257-276 | the live section passes to the new module: the previous owner's values are saved, the pristine ones put in |
| CoojaLoader.CoojaRuntime.LinkAndList | model/cooja-loader-factory.cc:277-287 | the new module has its dependencies, each counted, and is last on its list |
| CoojaLoader.CoojaRuntime.BringIn | model/cooja-loader-factory.cc:222-253 | afterwards the library is in the address space, and the others are unchanged but for counts |
| CoojaLoader.CoojaRuntime.LoadOne | model/cooja-loader-factory.cc:219-288 | one entry of the list: nothing if the process has the library, else a pristine live module |
| CoojaLoader.CoojaRuntime.LoadModule | model/cooja-loader-factory.cc:213-290 | afterwards the process has every library of the list; new modules are pristine and live, old ones read as before and stay live; no surplus arises |
| CoojaLoader.CoojaRuntime.Load | model/cooja-loader-factory.cc:170-177 | the same, and the client holds one more reference to the last library |
| CoojaLoader.CoojaRuntime.UnloadAll | model/cooja-loader-factory.cc:322-338 | no module of the process is left; other processes keep all their modules, unchanged and read as before |
| CoojaLoader.CoojaRuntime.CloneOne | model/cooja-loader-factory.cc:143-164 | the copy has the same library, the live values, and the child's own modules as dependencies; modules of other processes are untouched |
| CoojaLoader.CoojaRuntime.CopyModule | model/cooja-loader-factory.cc:145-153 | the new record has the original's count and the live values; one more user of the library is counted |
| CoojaLoader.CoojaRuntime.CloneAll | model/cooja-loader-factory.cc:143-164 | the loop: after n steps the first n modules are copied and nothing older has changed |
| CoojaLoader.CoojaRuntime.Clone | model/cooja-loader-factory.cc:140-167 | module by module a copy of the parent; each copy's view is the live data, so the parent's view if it is live; all existing views kept; the surplus of each copy is what its original had beyond the client's references |
| LoaderRuns.Perform | model/dce-manager.cc:365-378 | every operation of a process whose modules are live is a step of the picture "each process has its own memory", and leaves the next runner's modules live; counts stay exact for every process that is not being forked; every module has a reference afterwards if and only if no load brought in a library that neither is the last of its list nor is needed by another of it |
| LoaderRuns.LoadKeepsReferenced | model/cooja-loader-factory.cc:219-288 | that condition for a load and the modules of the process that loads, in both directions |
| LoaderRuns.OthersStayReferenced | model/cooja-loader-factory.cc:219-288 | a load leaves no module of another process without a reference |
| LoaderRuns.UnneededIsUnreferenced | model/cooja-loader-factory.cc:254-287 | a library brought in for nothing has a module with a count of zero |
| LoaderRuns.LoadForNobody | model/cooja-loader-factory.cc:340-371 | a run: the process has given back everything and still has a module, with a count of zero |
| LoaderRuns.GiveBack | model/cooja-loader-factory.cc:340-371 | no unload removes a module with a count of zero or with a surplus |
| LoaderRuns.LoadedIffWanted | model/cooja-loader-factory.cc:292-371 | with each of its modules referenced, a process has exactly the libraries it was handed, those another of its libraries needs, and those with a surplus: one goes exactly when its last reference does |
| LoaderRuns.Session.Do | model/dce-manager.cc:365-378 | the loader at work: whatever sequence of permitted operations is performed, the record of it is a run of that picture that leads to the present store; references handed out and given back are what the operations say; the conditions on references carry over |
| LoaderRuns.Session.Undisturbed | model/dce-manager.cc:365-378 | at any time a process reads now what it read when it last ran |
| LoaderRuns.Isolation | model/dce-manager.cc:365-378 | over any run in which a process does not run, nothing changes what it reads |
| LoaderRuns.WriteThenReadBack | model/dce-manager.cc:365-378 | a process reads back what it wrote, whatever others did in between |
| LoaderRuns.ForkIsolated | model/dce-manager.cc:644-657 | after a fork the child reads what its parent read, and from then on neither sees what the other does |
| LoaderRuns.CopySurplus | model/cooja-loader-factory.cc:149-160 | a copy's surplus is the number of dependency edges into the original, plus the original's surplus |
| LoaderRuns.ForkExactWhen | model/cooja-loader-factory.cc:149-160 | a child's counts are exact if and only if its parent's are and no library of the parent depends on another |
| LoaderRuns.ForkForNobody | model/cooja-loader-factory.cc:140-167 | a run: the child is left inexact, gives back everything, and still has a library |
| LoaderRuns.NothingLeaks | model/cooja-loader-factory.cc:340-371 | a process with exact counts, none of its modules without a reference, has no modules left when it has given back every reference |
| LoaderRuns.Session.NothingStays | model/cooja-loader-factory.cc:340-371 | over every recorded run: a process that was never the child of a fork and whose loads were all rooted has no modules left when it has given back every reference |
| LoaderRuns.LifeOfAPair | model/cooja-loader-factory.cc:110-371 | a run of two libraries, one needing the other, with what parent and child read after every step: initial values after the first load, assigned ones after a second, a copy of one's own after a fork, everything still there after one unload of two, both libraries gone after the last |
| LoaderRuns.NothingShared | model/cooja-loader-factory.cc:292-320 | when no process has a module, no library is left in the address space |
| Chains.LongChainIffCycle | model/elf-ldd.cc:229-258 | a chain with as many steps as there are files exists if and only if a circle can be reached |
| Chains.DependencyIsShallower | model/elf-ldd.cc:446-470 | a dependency's longest chain is strictly shorter |
| Chains.LongestUnique | model/elf-ldd.cc:229-258 | the depth of a file is unique |
| Chains.NoCycleIffLongest | model/elf-ldd.cc:437-441 | a file has a depth if and only if no circle can be reached from it |
| DepthWalk.WalkDecides | model/elf-ldd.cc:229-258 | the walk settles a file if and only if everything it leads to was scanned and runs in no circle; it looks up a file without a record if and only if it comes to one, over the first needs in order that cannot be settled, before it comes to a circle; else there is a circle |
| DepthWalk.OutcomesApart | model/elf-ldd.cc:437-441 | with as many steps allowed as there are scanned files the three outcomes exclude each other |
| DepthWalk.MeetsIsShort | model/elf-ldd.cc:243-255 | a walk that comes to a file without a record goes down less far than there are scanned files, so the bound does not hide it |
| ElfLdd.Resolve | model/elf-ldd.cc:203-215 | the first directory of the search path that has the name, every earlier one not having it; none if and only if no directory has it |
| ElfLdd.SharedLibrary.SearchLibs | model/elf-ldd.cc:192-227 | succeeds if and only if every needed name is in some directory of the search path, and then pairs each with the first place it is found; otherwise nothing changes |
| ElfLdd.FoundMeans | model/elf-ldd.cc:196-219 | resolving a set of names: each is paired with the first place it stands, and all are found if and only if each stands somewhere |
| ElfLdd.SharedLibrary.FindIn | model/elf-ldd.cc:203-215 | the first directory of the search path that has the file, every earlier one not having it |
| ElfLdd.SharedLibrary.CalcDepth | model/elf-ldd.cc:229-258 | whatever the bound, noted depths are longest chains, are noted for all dependencies first and are never changed; on success everything the file leads to was scanned; on failure the walk goes down further than the bound; a record that is not there is looked up only if the walk comes to a file without one |
| ElfLdd.SharedLibrary.ReachOfDependencies | model/elf-ldd.cc:243-255 | the loop of it: one more than the deepest dependency, or the first dependency in order that fails decides |
| ElfLdd.SharedLibrary.NoteDepth | model/elf-ldd.cc:256-257 | noting the longest chain keeps all noted depths right |
| ElfLdd.SharedLibrary.DepthOf | model/elf-ldd.cc:246-254 | one dependency: its depth and how the walk from it ends |
| ElfLdd.DepthFound | model/elf-ldd.cc:244-256 | one more than the deepest dependency is the longest chain |
| ElfLdd.Ldd.ExtractLibraries | model/elf-ldd.cc:281-377 | a record for a readable file with the names it needs, none for others |
| ElfLdd.Ldd.ScanOne | model/elf-ldd.cc:393-411 | a record with all needs resolved if and only if the file is usable |
| ElfLdd.Ldd.Enqueue | model/elf-ldd.cc:415-426 | exactly the needs whose files have not been scanned are added |
| ElfLdd.Ldd.ScanNext | model/elf-ldd.cc:388-428 | one round: a usable file is recorded and its needs wait, another is dropped; the state stays consistent and what is left to do shrinks |
| ElfLdd.Ldd.Scan | model/elf-ldd.cc:381-429 | terminates on every file system, circles included; scanned are exactly the usable files reached through usable files, each with its needs resolved and under a name it was asked by |
| ElfLdd.Ldd.Sort | model/elf-ldd.cc:442-470 | each scanned file once, by depth and then by path |
| StringOrder.BeforeMeans | model/elf-ldd.cc:461-470 | one path comes before another if and only if at the first place where they differ it has the smaller character or has ended |
| ElfLdd.Ldd.Order | model/elf-ldd.cc:437-470 | the outcome is that of the walk without memory; a loading order if the root is settled, else nothing |
| ElfLdd.Ldd.Loop | model/elf-ldd.cc:381-475 | for every file system: nothing is listed exactly if the file is not usable or the walk does not settle it, else all it leads to is, deeper files later |
| ElfLdd.MissingWhen | model/elf-ldd.cc:243-255 | a record that is not there is followed if and only if the walk comes to an unusable file before a circle; never if whatever usable files lead to is usable; without circles, whenever that is not so; and the file is settled if and only if that is so and there is no circle |
| ElfLdd.OneLoadingOrder | model/elf-ldd.cc:461-470 | two loading orders for a file list the same files in the same places |
| SmallDirectories.FollowsMissing | model/elf-ldd.cc:243-255 | files for which the resolver follows a record that is not there |
| SmallDirectories.StopsAtCircle | model/elf-ldd.cc:437-441 | files of which one cannot be used, and the resolver reports a circle before it looks at it |
| ElfLdd.LoadingOrderIsTopological | model/elf-ldd.cc:461-470 | nothing is listed twice and every file comes after all it needs |
| ElfDependencies.GatherDependencies | model/elf-dependencies.cc:23-76 | the loading order and the file itself last; of the order exactly what was asked for under one of the linker's names is gone, the rest in its order; if the walk settles the file, whatever an entry needs comes earlier; no list if it follows a record that is not there |
| ElfDependencies.LinkerGone | model/elf-dependencies.cc:45-76 | an entry is kept if and only if it was not asked for under one of the linker's names, and of two kept entries the earlier one stays the earlier one |
| ElfDependencies.IgnoredNames | model/elf-dependencies.cc:55-61 | the seven names |
| ElfDependencies.ListSuppliesItself | model/elf-dependencies.cc:49-76 | in the filtered list, too, whatever a file needs bears the name of an earlier entry |
| ElfDependencies.NeededBySomebody | model/elf-dependencies.cc:49-76 | every entry but the file itself is needed, by its own name, by a file that was reached |
| ElfDependencies.ListedUnlessLinker | model/elf-dependencies.cc:27-76 | every file that was reached is listed, unless it is the dynamic linker |
| ElfCache.BasenameInDirectory | model/elf-cache.cc:38-46 | a plain name found in a directory has that name as basename |
| ElfCache.OverriddenOneStep | model/elf-cache.cc:22-34 | no replacement is itself replaced |
| ElfCache.ReplacedNames | model/elf-cache.cc:22-34 | the four names that are replaced, each by which file, and no others |
| ElfCache.KeptNext | model/elf-cache.cc:204-213 | of what a file needs all counts, in order, but the linker's two names |
| ElfCache.ElfCache.GetDepId | model/elf-cache.cc:280-301 | the id of the replacement of a name if there is a rule, else of the name; none if it was never added |
| ElfCache.ElfCache.EditBuffer | model/elf-cache.cc:202-215 | succeeds if and only if everything needed but the linker is in store, and then lists the ids in order |
| ElfCache.ElfCache.Search | model/elf-cache.cc:345-352 | the entry with a basename, if and only if there is one |
| ElfCache.ElfCache.SearchReplacement | model/elf-cache.cc:326-343 | the entry of the replacement, if there is a rule for the name |
| ElfCache.ElfCache.AllocateId | model/elf-cache.cc:272-277 | the next number |
| ElfCache.StoreGrows | model/elf-cache.cc:354-370 | a file linked against the store can be appended under the next id |
| ElfCache.ElfCache.Add | model/elf-cache.cc:322-371 | finds the entry of the replacement or of the name, or appends one; fails if and only if a replacement or a needed file was never added; basenames stay distinct, ids ascending, dependencies earlier |
| ElfCache.ReplacedLibrary | model/elf-cache.cc:322-371 | once the replacement of the C library is in store, the name of the C library leads to it: when looked up, when added, and when a program needs it |
| ElfCache.NumberToChar | model/elf-cache.cc:120-136 | there is a digit for every value below 60, and none for 60, which the assertion allows |
| ElfCache.NamesAreUnique | model/elf-cache.cc:138-154 | different ids below the limit are written as different strings without NUL |
| LoadOrder.CatalogRanked | model/elf-cache.cc:272-277 | the dependencies of every stored file have smaller ids |
| LoadOrder.AddAll | model/cooja-loader-factory.cc:219-222 | adding a list that supplies itself trips no assertion |
| LoadOrder.OrderIsLoadable | model/cooja-loader-factory.cc:244-285 | in the order of the list, every look-up of a dependency among shared modules and modules succeeds |
| LoadOrder.OrderIsRooted | model/cooja-loader-factory.cc:219-288 | if replaced files and the linker bring in nothing of their own, every library of the list that is new to the process is the file itself or needed by another one |
| LoadOrder.LoadFile | model/cooja-loader-factory.cc:213-290 | loading a usable file with no circles, whose replaced libraries are in place, succeeds; it is two steps of the recorded session, so everybody else reads what they read before; what is loaded are the ids of the resolver's list, in its order; a library that is new to the runner reads as the data section of the file stored under its name, or of the replacement, and the others as before; every module has a reference afterwards if and only if that is rooted |
| HostOnlyNeed.Gathered | model/elf-dependencies.cc:23-76 | the files of a host whose libm needs a library x: the one list that the resolver makes for a program linked against libm |
| HostOnlyNeed.LoadHostProgram | model/elf-cache.cc:22-34 | whenever a process that has the replacement of libm loads that program, x comes in for nobody: afterwards a module has no reference |
| HostOnlyNeed.FromTheBeginning | model/elf-cache.cc:22-34 | a run from an empty loader on which that happens |
| LoadOrder.EditAndLoad | model/cooja-loader-factory.cc:213-290 | the two steps themselves |
| LoadOrder.LoadMain | model/dce-manager.cc:1192-1266 | with the four replacements loaded first, each standing on those before it, the program needs no condition on replaced libraries; a program new to the process reads as its file has it, and so does all that comes with it; nobody else can tell that it was started |
| LoadOrder.LoadedAsStored | model/cooja-loader-factory.cc:239-276 | a load leaves what was there as it was, and what is new reads as the data section of its stored file |
| LoadOrder.NewByName | model/cooja-loader-factory.cc:239-276 | the same by name: for each entry of the list, the section of the file it stands for in the store |
| ProcessTable.DceManager.AllocatePid | model/dce-manager.cc:475-492 | the least free pid above 1 from the starting point on, or else the least of all below it, zombies' pids not being free; fails if and only if no pid is free but possibly the one before the starting point |
| ProcessTable.RefuseWithOneFree | model/dce-manager.cc:475-492 | a run that ends with a process refused while a pid is free |
| ProcessTable.DceManager.CreateProcess | model/dce-manager.cc:292-362 | a new parentless process under a free pid, the rest unchanged |
| ProcessTable.DceManager.Clone | model/dce-manager.cc:585-657 | the child is in the table, alive, with the parent, and among the parent's children |
| ProcessTable.DceManager.EnterChild | model/dce-manager.cc:604-642 | the new table keeps the invariant |
| ProcessTable.ForkKeepsTableOk | model/dce-manager.cc:604-642 | a fork keeps the invariant of the tree and of all waits |
| ProcessTable.DceManager.WakeupChildWaiters | model/dce-manager.cc:1113-1127 | all threads of the process inside waitpid are woken, nothing else changes |
| ProcessTable.DceManager.ChildFinished | model/dce-manager.cc:1093-1111 | both asserted look-ups succeed; the parent's waiting threads are woken |
| ProcessTable.DceManager.Reparent | model/dce-manager.cc:884-906 | living children get parent 1, zombie children are freed, the set is cleared |
| ProcessTable.DceManager.DeleteProcess | model/dce-manager.cc:772-940 | the whole new table, process by process: what ends leaves a zombie if it has a parent, no process is freed twice, and the invariant of the tree is kept |
| ProcessTable.DceManager.Bury | model/dce-manager.cc:884-938 | the changes to the table, process by process |
| ProcessTable.DceManager.Destroy | model/dce-manager.cc:928-932 | only a process that is still in the table is freed |
| ProcessTable.ExitKeepsTableOk | model/dce-manager.cc:884-938 | that new table satisfies the invariant: parents know their children and are alive, zombies have a parent and no children, unwoken waiting threads have something to wait for and nothing to collect |
| ProcessTable.ExitMeans | model/dce-manager.cc:884-938 | the new table in plain terms: the process is a zombie with its value if its parent is above 1, else gone; its living children belong to 1 and its zombies are gone; its parent's waiting threads are woken; nobody else changes |
| ProcessTable.DceManager.Exit | model/dce-pthread.cc:70-98 | the same with an exit value |
| ProcessTable.DceManager.Stop | model/dce-manager.cc:695-707 | the same from outside, on living processes, zombies and unknown pids |
| ProcessTable.DceManager.Scan | model/dce-wait.cc:40-73 | for a target above zero that child, if it is a zombie; for -1 the least child that is one; otherwise how many children match, which is none exactly if the target is no child, or for -1 if there are no children |
| ProcessTable.DceManager.Collect | model/dce-manager.cc:1130-1139 | a zombie leaves table and children; its incarnation was never collected before |
| ProcessTable.ReapKeepsTableOk | model/dce-wait.cc:59-71 | collecting a zombie keeps the invariant of the tree and of all waits |
| ProcessTable.HistoryOfExit | model/dce-manager.cc:772-940 | over any run, the value remembered for an ended incarnation is the one its process ended with, and never changes |
| ProcessTable.DceManager.Attempt | model/dce-wait.cc:37-106 | one round: collects the least matching zombie, with the value that incarnation ended with and for the first time, else reports, blocks, or fails |
| ProcessTable.DceManager.WaitPid | model/dce-wait.cc:21-106 | invalid arguments are refused without effect; a target above zero is collected if and only if it is a child and a zombie, and is the one collected; with -1 the least zombie among the children is, if there is any; no child if and only if the target is none, or for -1 if there are none; else the thread blocks or reports |
| ProcessTable.DceManager.Resume | model/dce-wait.cc:81-99 | a woken thread gives up on a signal or tries again, with the same decision |
| ProcessTable.DceManager.Wakeup | model/dce-pthread.cc:394-402 | a wake-up for another reason keeps the invariant |
| ProcessTable.AttemptMeans | model/dce-wait.cc:37-106 | the error is returned if and only if no child matches; a child is collected if and only if a matching zombie exists, and is gone for good |
| ProcessTable.WaitDecides | model/dce-wait.cc:37-106 | that decision on the children of the process and on which of them are alive, with the whole table afterwards |
| ProcessTable.BlockedMeans | model/dce-wait.cc:81-99 | a thread that is blocked and was not woken waits for a child that is alive; with -1 there are children and all are alive |
| ProcessTable.CollectBoth | model/dce-wait.cc:37-106 | a run with two children of which the second ends first: waiting for the first blocks though the second could be collected, then each is collected with its own value, and nothing is left |
| Threads.HandlesAreFaithful | model/dce-pthread.cc:22-44 | packing puts the thread id above the process id; packing and unpacking are inverse on 16-bit ids and on 32-bit handles |
| Threads.HandlesDiffer | model/dce-pthread.cc:36-44 | live threads have different handles |
| Threads.ThreadTable.SearchThread | model/dce-manager.cc:949-968 | the first thread of the list with the id |
| Threads.ThreadTable.AllocateTid | model/dce-manager.cc:494-517 | the least id that is not in use |
| Threads.TidAvailable | model/dce-manager.cc:494-517 | there is one whenever fewer than 65535 threads exist |
| Threads.ThreadTable.Create | model/dce-manager.cc:519-549 | a new record under the least free id, never failing below the limit |
| Threads.ThreadTable.DeleteThread | model/dce-manager.cc:743-769 | the record leaves the list and is freed |
| Threads.ThreadTable.Exit | model/dce-pthread.cc:149-180 | value kept and joiner woken, or record freed if detached, or process ended if alone |
| Threads.ThreadTable.Join | model/dce-pthread.cc:181-221 | refused for the caller itself, for an unknown id, for a detached and for an already joined thread, and for no other; otherwise the value of an exited thread, whose record goes, or suspension |
| Threads.ThreadTable.AwaitExit | model/dce-pthread.cc:206-220 | one round of the loop: suspended, or the value taken and the record freed |
| Threads.ThreadTable.Resume | model/dce-pthread.cc:206-220 | the loop of join after a wake-up |
| Threads.ThreadTable.Detach | model/dce-pthread.cc:222-246 | refused, ignored while somebody joins, or done |
| Threads.ThreadTable.Wakeup | model/dce-pthread.cc:394-402 | a joining thread woken for another reason |
| Threads.JoinDecides | model/dce-pthread.cc:181-221 | that decision on the records: when each answer is given, and what changes |
| Threads.ResumeDecides | model/dce-pthread.cc:206-220 | whoever comes back from a join has the value if the thread has exited, whose record then is gone, and else waits on |
| Threads.DetachDecides | model/dce-pthread.cc:222-246 | accepted if and only if the thread is neither detached nor joined; refused if it is detached or unknown, ignored if it is joined |
| Threads.ExitDecides | model/dce-pthread.cc:149-180 | the last thread ends the process; the record of a detached one goes; any other is left with the value, and its joiner may run |
| Threads.CreateDecides | model/dce-manager.cc:519-549 | refused if and only if all ids are in use; else a new record under the least id not in use |
| Threads.JoinAfterExit | model/dce-pthread.cc:149-221 | a run: a thread exits with 7 and is joined, with 7 |
| Threads.JoinBeforeExit | model/dce-pthread.cc:149-221 | a run: the joiner waits, the thread exits with 7, the joiner comes back with 7 |
| Threads.DetachBeforeExit | model/dce-pthread.cc:149-246 | a run: a thread is detached and then exits, and its record is gone |
| Threads.StepKeepsInv | model/dce-pthread.cc:149-246 | every step keeps: waiter and waited-for agree, a thread with a joiner is not detached, the joiner of an exited thread is ready, ids are distinct |
| Threads.RunKeepsInv | model/dce-pthread.cc:149-246 | so over every run |
| Threads.StaysGone | model/dce-pthread.cc:149-246 | a freed record is never used again |
| Threads.JoinLoopKeepsInv | model/dce-pthread.cc:206-220 | both assertions after the loop hold and what is freed has no joiner |
| Threads.JoinedOnce | model/dce-pthread.cc:181-221 | over every run at most one join of a thread succeeds |
| Threads.JoinReturnsExitValue | model/dce-pthread.cc:206-220 | a join that succeeds returns what that thread passed to exit |
| Threads.FreedBy | model/dce-pthread.cc:149-221 | a record is freed only by its own detached thread or by its one joiner, never under somebody waiting |
| Threads.JoinerIsWoken | model/dce-pthread.cc:161-168 | the joiner of an exited thread may run and then succeeds |
| Threads.DetachAfterExitLeaks | model/dce-pthread.cc:222-246 | while the process lives, a record is lost after a step if and only if it was before, or the step detaches a thread that has exited and that nobody joins; joins of a lost one are refused |
| Threads.LeakedIffAbandoned | model/dce-pthread.cc:222-246 | over every run, a record is lost if and only if some step so far was such a detach |
| Threads.LeakedForever | model/dce-pthread.cc:181-246 | from then on the record and its thread id stay in use until the process ends, and every other thread's join of it is refused |
| Threads.LeakReached | model/dce-pthread.cc:149-246 | a run of three steps that loses one |
| Threads.LastExit | model/dce-pthread.cc:149-180 | an exit that leaves no running thread ends the process if and only if no record of an exited thread is left; otherwise nobody can act any more |
| Threads.HungIffExitsLast | model/dce-pthread.cc:149-180 | over every run, a process hangs with records left if and only if its last step was such an exit |
| Threads.HangReached | model/dce-pthread.cc:149-180 | a run of three steps that ends so |
| PthreadMutex.PthreadMutex.Lock | model/dce-pthread-mutex.cc:173-210 | taken, nested, refused, or suspended at the end of the list |
| PthreadMutex.PthreadMutex.TakeOrSuspend | model/dce-pthread-mutex.cc:199-209 | a free mutex is taken, otherwise the thread goes to the end of the list |
| PthreadMutex.PthreadMutex.Resume | model/dce-pthread-mutex.cc:201-210 | a suspended thread leaves the list and takes the mutex or queues again |
| PthreadMutex.PthreadMutex.TryLock | model/dce-pthread-mutex.cc:211-260 | taken or refused, by kind and owner |
| PthreadMutex.PthreadMutex.Unlock | model/dce-pthread-mutex.cc:261-301 | accepted from the owner and from nobody else; the last unlock frees the mutex and wakes the first waiting thread |
| PthreadMutex.PthreadMutex.Wakeup | model/dce-pthread.cc:394-402 | a wake-up for another reason keeps the invariant |
| PthreadMutex.PthreadMutex.Destroyable | model/dce-pthread-mutex.cc:137-156 | destroyed if and only if nobody holds it or waits for it, and then its count is zero |
| PthreadMutex.StepKeepsInv | model/dce-pthread-mutex.cc:173-301 | owner if and only if count, at most one for normal mutexes, no duplicates in the list, owner not in it, and if free its first thread is ready |
| PthreadMutex.LockDecides | model/dce-pthread-mutex.cc:173-210 | a free mutex is taken; its owner goes deeper or is refused, by kind; anybody else is suspended at the end of the list |
| PthreadMutex.TryLockDecides | model/dce-pthread-mutex.cc:211-260 | refused if and only if somebody else holds the mutex, or the caller does and the kind is not recursive; else taken |
| PthreadMutex.UnlockDecides | model/dce-pthread-mutex.cc:261-301 | accepted if and only if the caller is the owner; then the count is one less, the mutex is free if and only if it was one, and then the first of the list is ready |
| PthreadMutex.ResumeDecides | model/dce-pthread-mutex.cc:201-210 | a woken thread leaves its place, takes a free mutex, and else queues at the end |
| PthreadMutex.GivenBack | model/dce-pthread-mutex.cc:271-298 | over every run: a thread that holds the mutex n times can give it back n times, and then and not before it is free |
| PthreadMutex.TakenInTurn | model/dce-pthread-mutex.cc:173-301 | a run: the second thread waits and takes the mutex once the first has given it back |
| WaitingList.RemoveAt | model/dce-pthread-mutex.cc:203 | whoever leaves the list leaves the others in their places |
| PthreadMutex.RunsAreSound | model/dce-pthread-mutex.cc:173-301 | over every run the count is what its owner has taken and not given back, and nobody else has taken anything |
| PthreadMutex.WaitingAreSuspended | model/dce-pthread-mutex.cc:199-209 | the list holds exactly the threads suspended in lock |
| PthreadMutex.OneHolder | model/dce-pthread-mutex.cc:173-301 | mutual exclusion |
| PthreadMutex.HeldUntilGivenBack | model/dce-pthread-mutex.cc:173-301 | until the owner acts, nobody else succeeds in taking it or giving it back |
| PthreadMutex.FreeMutexHasATaker | model/dce-pthread-mutex.cc:277-298 | when a mutex with waiting threads is free, the first can run and take it |
| Semaphore.PosixSemaphore.Post | model/dce-semaphore.cc:108-133 | one more, and the first waiting thread is ready |
| Semaphore.PosixSemaphore.Wait | model/dce-semaphore.cc:134-154 | takes one or is suspended |
| Semaphore.PosixSemaphore.TakeOrSuspend | model/dce-semaphore.cc:147-153 | one is taken, or the thread goes to the end of the list |
| Semaphore.PosixSemaphore.Leave | model/dce-semaphore.cc:148-150 | the thread leaves the list |
| Semaphore.PosixSemaphore.TryWait | model/dce-semaphore.cc:155-174 | takes one or fails |
| Semaphore.PosixSemaphore.TimedWait | model/dce-semaphore.cc:175-203 | takes one, fails if it is late, or is suspended |
| Semaphore.PosixSemaphore.Resume | model/dce-semaphore.cc:147-153 | leaves the list, takes one or queues again |
| Semaphore.PosixSemaphore.Expire | model/dce-semaphore.cc:204-213 | leaves the list and gives up |
| Semaphore.Conservation | model/dce-semaphore.cc:108-217 | initial value plus posts equals count plus acquisitions |
| Semaphore.PostDecides | model/dce-semaphore.cc:108-133 | one more; the thread that has waited longest is made ready, and nobody else |
| Semaphore.WaitsDecide | model/dce-semaphore.cc:134-203 | all three ways of waiting take one if and only if there is one, however late; without one the first queues, the second fails, and the third fails if late and else queues |
| Semaphore.ResumeDecides | model/dce-semaphore.cc:147-153 | a woken thread leaves its place, takes one if there is one, and else queues at the end |
| Semaphore.WaitingAreSuspended | model/dce-semaphore.cc:147-152 | the list holds exactly the suspended threads |
| Semaphore.PromptnessLost | model/dce-semaphore.cc:121-127 | a count beside a sleeping first thread arises if and only if the first thread leaves while something is left and the next was not woken |
| Semaphore.PromptAllAlong | model/dce-semaphore.cc:108-213 | over every run it never arises if and only if no step is of that kind |
| Semaphore.BinaryIsPrompt | model/dce-semaphore.cc:108-213 | with a count of at most one only a timer that expires on a woken thread can be |
| Semaphore.TwoPostsStrandAWaiter | model/dce-semaphore.cc:121-127 | two posts in a row make it happen |
| Semaphore.ExpiryStrandsAWaiter | model/dce-semaphore.cc:204-213 | so does a timer that expires on a thread already woken |
| CanonicalPath.CanonizePath | model/exec-utils.cc:41-188 | the state machine computes the fold over components, printed; pops never meet an empty list |
| CanonicalPath.Read | model/exec-utils.cc:49-158 | one character in one state |
| CanonicalPath.Write | model/exec-utils.cc:162-185 | the components with their slashes |
| CanonicalPath.LevelAllowsPop | model/exec-utils.cc:127-130 | what is popped is a name |
| CanonicalPath.MeaningKept | model/exec-utils.cc:41-188 | from every working directory the result leads where the path leads |
| CanonicalPath.Idempotent | model/exec-utils.cc:41-188 | results are left alone |
| CanonicalPath.NormalForm | model/exec-utils.cc:160-187 | no empty component and no '.', and '..' only where the path has climbed |
| CanonicalPath.ProtectedStaysBelow | model/exec-utils.cc:119-126 | a relative path is turned down if and only if a prefix climbs above the start; an accepted one has no '..' and stays below every directory it is used from |
| ShortestPaths.WalkByRoute | model/exec-utils.cc:49-158 | a list of components leads so many steps up and then down along names |
| ShortestPaths.MeaningIsRoute | model/exec-utils.cc:49-158 | two relative lists lead to the same directory from everywhere if and only if these agree; two absolute ones if and only if the names do |
| ShortestPaths.ShortestWhen | model/exec-utils.cc:119-134 | a relative result is a shortest one if and only if no name stands before a '..' in it, that is, if no '..' of the path goes up over a kept name; an absolute one if and only if it holds no '..', that is, if none goes up past what was kept |
| ShortestPaths.NotShortest | model/exec-utils.cc:127-134 | '../a/..' stays, though '..' means the same, and '/..' stays, though '/' does |
| SearchPaths.Split | model/utils.cc:333-358 | the fields between separators, without the empty ones, in order |
| SearchPaths.PiecesOfJoin | model/utils.cc:333-358 | joined pieces come back |
| SearchPaths.PiecesBehind | model/utils.cc:333-358 | a string is taken apart at each separator, and an empty piece does not count |
| SearchPaths.SearchPath.constructor | model/exec-utils.cc:189-206 | the canonical forms of the accepted directories between colons, in order |
| SearchPaths.AcceptedAt | model/exec-utils.cc:189-206 | the canonical form of an accepted directory stands behind those of the directories before it; one that is turned down leaves no trace |
| SearchPaths.AcceptedFrom | model/exec-utils.cc:189-206 | and every entry comes from such a directory |
| SearchPaths.SearchPath.SeekFile | model/exec-utils.cc:208-264 | the first location along the path that passes the check, or nothing if none does |
| SearchPaths.LocationLeads | model/exec-utils.cc:208-264 | what is found lies where the components behind the base lead from there |
| SearchPaths.PlainLocationLeads | model/exec-utils.cc:208-264 | without a base, what is found lies where the file name leads from the entry |
| SearchPaths.VirtualLocationLeads | model/exec-utils.cc:208-264 | with a base, what is found lies where the file name leads from the entry, and that from the base if it is absolute, else from the working directory below the base; without a working directory, where the file name leads from the base |
| SearchPaths.FoundBelowBase | model/exec-utils.cc:208-264 | an input for the plain case with a base: './f' along the entry '/x' is 'base/x/f' |
| SearchPaths.AcceptedEntries | model/exec-utils.cc:119-126 | with a base, an accepted entry is absolute or holds no '..' |
| SearchPaths.SeekStaysBelow | model/exec-utils.cc:208-264 | for every entry, working directory and file: the way from the base leaves it if and only if some prefix of what is put behind it climbs; its end lies below if and only if the names at the end spell what was left; it lies below every base if and only if no prefix climbs |
| SearchPaths.RelativeStaysBelow | model/exec-utils.cc:208-264 | through a relative entry the base is left only if the working directory or the file name holds a '..' |
| SearchPaths.BaseIsLeft | model/exec-utils.cc:119-126 | the entry '/../x' is accepted with a base and leads out of it |
| SearchPaths.BaseIsLeftByName | model/exec-utils.cc:254-257 | so does the file name '../f' |
| FifoBuffer.FifoBuffer.Write | model/fifo-buffer.cc:48-106 | appends exactly the first bytes that fit, through compaction and growth: byte by byte the contents stay and the bytes given come after them; if memory is refused nothing is written; the recursion ends |
| FifoBuffer.FifoBuffer.Append | model/fifo-buffer.cc:53-58 | the given bytes come after the contents |
| FifoBuffer.FifoBuffer.Compact | model/fifo-buffer.cc:59-68 | moving the bytes to the front keeps the contents |
| FifoBuffer.FifoBuffer.Grow | model/fifo-buffer.cc:91-103 | so does moving them to a larger array |
| FifoBuffer.FifoBuffer.Read | model/fifo-buffer.cc:108-123 | removes and returns the first bytes, byte by byte |
| FifoBuffer.FifoBuffer.GetSize | model/fifo-buffer.cc:124-128 | how much there is to read |
| FifoBuffer.FifoBuffer.GetSpace | model/fifo-buffer.cc:129-133 | what a write will accept |
| FifoBuffer.Replay | model/fifo-buffer.cc:48-123 | every interleaving of writes and reads does what a bounded queue does |
| FifoBuffer.QueueSteps | model/fifo-buffer.cc:48-123 | what that queue does: a write adds what fits at the end, a read takes from the front what there is |
| FifoBuffer.InOrder | model/fifo-buffer.cc:48-123 | delivered and remaining bytes are, in order, the accepted ones |
| Descriptors.FileTables.AllocateFd | model/utils.cc:265-283 | the least free descriptor, or none below the limit |
| Descriptors.FileTables.Share | model/dce-fd.cc:573-577 | one more entry for a file, with both counts up |
| Descriptors.FileTables.Forget | model/dce-fd.cc:214-220 | an entry goes, with both counts down, and the file with its last one |
| Descriptors.FileTables.Open | model/dce-fd.cc:78-136 | a new file with one entry, at the least free descriptor |
| Descriptors.FileTables.Close | model/dce-fd.cc:192-224 | closes the file if and only if this is its only entry, drops the entry if unused; the rule "not closed while in a table, and once afterwards" is broken if and only if that entry is in use; the step is recorded |
| Descriptors.FileTables.Dup | model/dce-fd.cc:555-579 | one more entry for the file of an open descriptor, at the least free one; refused if and only if that is not open, or none is free; every other entry stays |
| Descriptors.FileTables.Dup2 | model/dce-fd.cc:580-615 | the target becomes an entry for the file of an open descriptor; refused if it cannot be closed or is in use; every other entry stays |
| Descriptors.FileUsage.IncUsage | model/file-usage.cc:43-47 | one more user |
| Descriptors.FileUsage.DecUsage | model/file-usage.cc:48-53 | one user less; tells whether it was the last user of a closed entry |
| Descriptors.FileUsage.CanForget | model/file-usage.cc:54-63 | yes if and only if nobody uses the entry; otherwise it is marked as closed |
| Descriptors.FileUsage.NullifyUsage | model/file-usage.cc:80-84 | the users are forgotten |
| Descriptors.FileTables.GetFileInc | model/utils.h:69-82 | one more user of an open entry; closed ones are refused |
| Descriptors.FileTables.DecUsage | model/utils.cc:418-430 | the last user of a closed entry drops it, without closing the file: the rule, if it held, is broken if and only if it was the last entry; the step is recorded |
| Descriptors.CloseTwice | model/dce-fd.cc:192-224 | a run in which a file is closed twice |
| Descriptors.CloseNever | model/dce-fd.cc:192-224 | a run in which a file is gone and was never closed |
| Descriptors.CloseEarly | model/dce-fd.cc:192-224 | a run in which a file was closed once, though while it was in use |
| FileRuns.TidinessLost | model/dce-fd.cc:206-220 | a step breaks the rule if and only if it closes an only entry that is in use, or drops, by its last user, an only entry of a file that was not closed |
| FileRuns.TidyAllAlong | model/dce-fd.cc:192-224 | over every run, the rule holds at every point if and only if no step is of these kinds |
| FileRuns.ClosedHowOften | model/dce-fd.cc:206-213 | over every run, a file was closed once if and only if exactly one close found it with a single entry, and never if and only if none did |
| FileRuns.ClosedOnceWhen | model/dce-fd.cc:206-213 | so for a file that has left all tables and was not stopped, that is when the rule holds of it in the end |
| Descriptors.FileTables.Clone | model/dce-manager.cc:609-622 | the child has an unused entry for the file of each of the parent's, under the same number, and no other; existing entries stay |
| Descriptors.FileTables.ExitProcess | model/dce-manager.cc:789-809 | no entry of the process is left, whoever used it; files are closed once |
| Descriptors.FileTables.CloseAbandoned | model/dce-manager.cc:789-809 | one descriptor: its users are forgotten and it is closed |
| Descriptors.FileTables.StopProcess | model/dce-manager.cc:837-850 | the same without closing files |
| Descriptors.DropKeepsCounted | model/file-usage.cc:36-40 | both counts of every file equal the entries of all processes that point to it, and it is freed with the last one |

## Left out

- ElfLdd.Ldd.Loop: what happens after the code has followed a null pointer (model/elf-ldd.cc:250) is left out; the outcome says that it has.
- CoojaLoader.CoojaRuntime.Load: takes the list of libraries as given; LoadOrder.LoadFile connects it with the resolver and the cache. Adding to the cache and loading alternate in the code and are done one after the other here; they share no state.
- CoojaLoader.CoojaRuntime.LoadModule: the same; the additions to the cache that the code makes in this loop are those of LoadOrder.AddAll.
- CoojaLoader.CoojaRuntime.Write: one assignment stands for any store the running program makes to its variables.
- CoojaLoader.CoojaRuntime.Unload: giving back a reference to a library that the process has but was not handed is an error of the caller, and the count would no longer be anybody's.
- LoaderRuns.Perform: a process reads and writes only libraries it has loaded, and gives back only references it was given.
- ElfLdd.Ldd.ExtractLibraries: parsing the file is a look-up in a table of what files say about themselves.
- ElfDependencies.GatherDependencies: the older way to gather, by running a tool (model/elf-dependencies.cc:31-36), is left out.
- ElfCache.ElfCache.EditBuffer: computes the ids of the dependencies; the writes to the string table and to the data section fields are not modelled.
- ElfCache.ElfCache.Add: file copies, addresses and section data are not modelled.
- ElfCache.WriteString: the four characters are computed, but not written into the string table of the file; the layout of ELF files, the address fields and the file copies are not modelled.
- LoadOrder.AddAll: files of one basename that the list and the store hold need the same names, since the store is keyed by basename.
- LoadOrder.LoadFile: the walk settles the file; among the files that are reached and stored, basenames determine what a file needs, needed names contain no slash, search directories end in one (model/elf-ldd.cc:98-139 sees to that), and the name asked for is not the dynamic linker's; each is a condition on the file system, not on the code.
- LoadOrder.LoadMain: the set-up calls into the freshly loaded C library are left out.
- ProcessTable.DceManager.CreateProcess: a caller's own pid, under which a process is made but not entered in the table, and most fields.
- ProcessTable.DceManager.Exit: destructors of thread keys, unloading of libraries and status files are left out.
- ProcessTable.DceManager.Clone: descriptors are in Descriptors, globals in CoojaLoader; the other copied fields are left out.
- Threads.ThreadTable.DeleteThread: stopping the task and freeing its waiter for children are left out.
- PthreadMutex.PthreadMutex.Destroyable: says when a mutex may be destroyed; taking the record off the list of mutexes is left out.
- Threads.ThreadTable.Exit: destructors of thread keys are left out; the fatal errors for too many threads or processes are results here.
- Semaphore.PosixSemaphore.Expire: any waiting thread may expire, not only those in timedwait.
- Descriptors.FileTables.Open: the host's answer, and that of Close, are parameters; kinds of files and errno values are left out. The tables of the processes are one map keyed by process and descriptor.
- Records: modules, processes and threads are values in maps from the pointers and pids that name them. Aliasing is equality of names, and a freed record is one whose name has left the map; the order of assignments to the fields of one record inside a step is not visible.
- SearchPaths.SeekStaysBelow: the base holds no NUL; the check of a candidate is a parameter, and which search paths a file name leads to (model/exec-utils.cc:263-470) is left out.
- FifoBuffer.FifoBuffer.Write: lengths are unbounded; that `len + m_fill` could exceed the machine's word is not modelled.
- Widths of counters: 32-bit counts of modules, mutexes and semaphores do not wrap here.
- Condition variables: an unlock may give up the processor before the waiter is on the list, and a timed-out waiter stays on it.
- Signal handlers: a wake-up by a signal is modelled, running the handler in between is not.
- Execve, dlopen, dlsym, mmap, polling, sockets, directories, streams, time, random numbers, environment and credentials.
- The scheduler: which ready thread runs next is left open; the list of ready tasks and timers are not modelled.
- The heap allocator and the other loader (one address space per process) behind the same interface.
