# Models of the course systems

The repository is a collection of small systems programs: a process kernel (MTX), an inode
cache with path lookup, a file tree simulator, a shell and a threaded sum. This project states
what five of them do in Dafny and proves what they are for.

* **MTX kernel** (PreLab3). `MtxModel` is the kernel as a state machine: a table of PROCs, the free
  list, the ready queue and the sleep list, and one step for each command of a process.
  `MtxCommands` says what each command does to the whole state.
  `MtxQueues`, `MtxInvariant`, `MtxRuns`, `MtxScheduling` and `MtxExitWait` prove what every
  run keeps, for every table size and every sequence of commands. `MtxTable` and `MtxKernel` are the program itself:
  records with `next`, `child`, `sibling` and `parent` links, changed in place by methods in the
  form of the C functions, each proved to do what the state machine does. `MtxAsWritten` says
  exactly when the links made by the code as it stands are the intended ones, and `MtxFailures` has inputs on which they are not. `MtxSwitch` is the context switch and any sequence of them.
* **Inode cache and paths** (Lab5). `InodeCache` is the reference-counted write-back cache against a plain disk,
  `Directory` the byte format of directory blocks, `DirWalk` lookup and `pwd` on top of both.
  `CacheView` and `TableRoom` say what the size of the table means for them, `MountCommands` and `MountSessions` what a session on a
  tree of directories shows and comes to hold, and `MountLaws` what a path and a command mean there;
  `MountedRoot` is the program, which changes the minode table and the disk in place. `SmallDisk` is a
  small disk and the runs that go wrong on it.
* **File tree simulator** (Lab2). `FileTree`, `FileSave` and `FilePaths` are the tree, its text form and
  its path names, `FileRuns` whole runs of commands, and `FileLaws` what a path and a command line mean; `FileSystem` is the program on child, sibling and parent links.
* **Shell pipelines** (Lab3). `Pipeline` says what the descriptor tables of all processes are that
  `handlePipes` makes; `ShellProcess` is the program, which changes them in place. The meaning of a pipeline is that of section 2.9.2 of the Shell and Utilities
  volume of POSIX.1-2017, and the descriptor that `dup` and `pipe` take is the lowest free one, as in section 2.14 of its System Interfaces volume.
* **Threaded sum** (PreLab4). `ThreadSum` runs the threads in every interleaving, with the critical
  region split into its reads and writes.

`Text` is `strtok` and the joining of words, shared by the shell, the tree and the paths.

Pointers into a table are indices, and `NIL` (-1) is the null pointer. Sizes that are constants in the code
(NPROC, NMINODE, the number of threads, the length of PIPE) are parameters.

## Where the code and its documentation differ

The kernel, `MountedRoot` with `readme == true`, and the directory walk have the behaviour that the ReadMe files ask for. The
code departs from it in these places; each has its own statement of when the code as written is right, and an input on which it is not.

* `kfork` steps over one sibling only (`if` for `while`) and keeps the child and sibling fields
  of an earlier life (PreLab3/Code/t.c:152-158): `MtxAsWritten.ForkLinksRight`, `MtxFailures.ForkLosesAChild`.
* `kexit` leaves the child field of the dying PROC as it is (PreLab3/Code/t.c:192-201):
  `MtxAsWritten.ExitLinksRight`, `MtxFailures.ExitKeepsItsChildren`.
* `kwait` drops the whole child list when the dead child is the first (PreLab3/Code/t.c:260-261):
  `MtxAsWritten.WaitLinksRight`, `MtxFailures.WaitLosesAChild`.
* `kwait` ends its loop after the first sleep and reports "no child" (PreLab3/Code/t.c:248-268):
  `MtxAsWritten.WrittenWaitRightIff`, `MtxFailures.WaitFindsNoChild`.
* `search` reads blocks numbered 0 and has no value for a missing name (Lab5/Code/util.c:92-113; Lab6/Code/Functions.c:151
  has the `return 0`, Lab5/Code/ls_l.c:61 the stop): `DirWalk.SearchWrittenRightIff`, `DirWalk.SearchWrittenFails`, `DirWalk.MissingNameHangs`.
* `getino` keeps a reference on its last inode, `R_Pwd` one on every ancestor, and `ChangeDir` releases the new
  directory where Lab5/ReadMe.md:160-164 asks for the old one. `MountedRoot` states the references after
  both forms; `MountCommands.WrittenCdIsExactIff`, `WrittenLsIsExactIff` and `WrittenPwdIsExactIff` say when the commands as written keep the counts exact, and `SmallDisk.CdLeaks`, `LsLeaks` and `PwdLeaks` are inputs.
* So the minode table fills up. Then `iget` returns a null pointer, which `getino` hands to `search`, `ChangeDir` and `ListFile` read, and for which `ls_dir` skips
  the entry (Lab5/Code/util.c:63-64, Lab5/Code/Commands.c:19-20, Lab5/Code/ls_l.c:71-76): `TableRoom.CommandWalkIff`, `TableRoom.ListsIff`, `MountSessions.DeadIff`, `MountSessions.FullStaysFull`, and the
  runs `SmallDisk.LsRunsOut` and `SmallDisk.LsLeavesOut`. With the releases that ReadMe asks for it never does: `MountSessions.SessionIsPlain`.
* `Quit` puts each slot once (Lab5/Code/Commands.c:104-114): `InodeCache.QuitFlushesIff`, `InodeCache.QuitLosesAChange`.
* `search` takes a record that is not in use for an entry, so a dead record that still has its name hides a later file of that name
  (Lab5/Code/util.c:102-107): `Directory.SearchFindsIff`, `Directory.DeadRecordHidesName`, and for a whole path `DirWalk.PwdIsUndoneIff`, `SmallDisk.DeadRecordHidesPath`.
* `ls_dir` calls `iget` for records that are not in use, and for inode 0 `iget` reads in front of its buffer (Lab5/Code/ls_l.c:71,
  Lab5/Code/util.c:53-57): `TableRoom.ListsIff`, `TableRoom.UnusedRecord`.
* `getino` searches the blocks of a regular file as if they were a directory's (Lab5/Code/util.c:131-141): `MountCommands.PathThroughFileIff`,
  `DirWalk.FilesAreSearched`.
* `cd` without a path does nothing in Lab5/Code/Commands.c:12-14, where ReadMe asks for the root: `MountCommands.CdAloneIsRightIff`. `pwd` in the root
  prints an empty line, where ReadMe asks for "/". The model does what the code does, so `DirWalk.PwdIsUndoneIff` excepts the root.
* `mkdir` without a path makes a directory with an empty name, which save and reload do not keep (Lab2/Lab2.c:64,172): `FileSave.SaveReloadIff`, `FileSave.EmptyNameIsLost`.
* `mkdir` or `creat` of a path of two or more slashes makes a node named "/", and `rmdir` may remove the directory that
  the user stands in (Lab2/Lab2.c:58-79,188-205): `FileRuns.RunKeepsIff`, `FileRuns.SlashNode`, `FileRuns.StartRemoved`.
* `reload` makes start the new root and leaves pathname as it is (Lab2/Lab2.c:80-88,295): `FileRuns.RunKeepsIff`, `FileRuns.LoadInStepIff`,
  `FileRuns.ReloadFromBelow`.
* `locateDir` hands the global dname to `strtok`, which ends it behind its first token (Lab2/Lab2.c:113); a line of a saved file that has no name of its own
  is run there: `FileSave.EmptyLineIsAdd`.
* `hasPipe` copies from a null pointer when "|" is the last word (Lab3/Lab3.c:123-127): the outcomes `Crash` and `Died`, `Pipeline.LineEnds`, `Pipeline.BarAtTheEnd`.
* `getCMD` reads args[0] of a stage without words, a null pointer (Lab3/Lab3.c:159-168,285): the outcome `NoCommand`, `Pipeline.LineEnds`, `Pipeline.EmptyStage`.
* `PIPE` has room for four stages and no check (Lab3/Lab3.c:36,207): `Pipeline.InBoundsIff`, `Pipeline.FiveStages`.
* `handlePipes` miswires the pipeline when the shell has no standard input (Lab3/Lab3.c:213-215): `Pipeline.WiredIff`, `Pipeline.MiswiredWithoutInput`.

That a process blocked in `kwait` has no dead child holds for every process but P1: `kexit` hands P1 dead children
without waking it. `MtxExitWait.P1MissesIff` says exactly when, `MtxFailures.P1MissesAChild` is a run that comes to it, and it is a
property of the assignment's own algorithm (PreLab3/ReadMe.md:27-48).

## Model

| member | source | states |
|---|---|---|
| MtxRuns.EveryReachableState | PreLab3/Code/t.c:89-319 | For every table size and every sequence of commands: each PROC is in exactly the place of its status, queues have no repetition and are sorted by priority, P0 is always READY and P1 never dies, child lists hold exactly the PROCs in use with that parent, once each, under a live parent with matching ppid, and whoever waits in kwait has a reason to |
| MtxRuns.StepKeeps | PreLab3/Code/t.c:94-124 | Each single command keeps all of that, from any state that has it |
| MtxRuns.SchedulerFindsProc | PreLab3/Code/t.c:311-319 | scheduler() never dequeues from an empty ready queue: P0 runs or is ready |
| MtxRuns.CountsSumToTable | PreLab3/Code/t.c:271-294 | The lengths of the three queues, the running PROC and the number of ZOMBIEs sum to the table size: no PROC is lost or duplicated |
| MtxRuns.ForkFailsIffFull | PreLab3/Code/t.c:138-171 | kfork() returns -1 exactly when no PROC is FREE, and then changes nothing; otherwise a PROC that was FREE becomes the caller's youngest child and READY |
| MtxRuns.FamilyIsATree | PreLab3/Code/t.c:138-209 | In every reachable state P1 is P0's child and the parent links of every other PROC in use lead through live parents to P1: no cycle |
| MtxRuns.WakeupIsStableSplit | PreLab3/Code/wait.c:14-31 | wakeup() moves exactly the sleepers on the event, in their old order, behind the ready user PROCs and ahead of P0; the others stay asleep in order |
| MtxCommands.SwitchDoes | PreLab3/Code/t.c:311-319 | tswitch(): the running PROC goes behind the ready user PROCs and ahead of P0, the first in line runs, and nothing else changes |
| MtxCommands.ForkDoes | PreLab3/Code/t.c:138-171 | The fork command: every field of the new PROC, the caller's child list and the three lists behind it; nothing at all when no PROC is free |
| MtxCommands.SleepDoes | PreLab3/Code/wait.c:3-12 | The sleep command, for every event: the caller is SLEEP with the event and last on the sleep list, and the first in line runs |
| MtxCommands.WakeupDoes | PreLab3/Code/wait.c:14-31 | The wakeup command: exactly the PROCs asleep on the event are READY and in line, in the order in which they slept; every other record, the order of the other sleepers and the running PROC are as before |
| MtxCommands.JesusDoes | PreLab3/Code/t.c:57-71 | The jesus command: exactly the ZOMBIEs are READY, in line in table order |
| MtxCommands.ExitDoes | PreLab3/Code/t.c:182-209 | The exit command: each field of each record behind it, the sleepers on the parent's address in line, the other sleepers in order; nothing for P1 |
| MtxCommands.WaitDoes | PreLab3/Code/t.c:244-269 | The wait command: the whole state behind the refusal, the burial of the first dead child, and the sleep on the caller's own address |
| MtxCommands.BootIs | PreLab3/Code/t.c:271-302 | The whole state at the start of main() |
| MtxCommands.ExecAppend | PreLab3/Code/t.c:94-124 | A run is its commands one behind the other |
| MtxQueues.InsertIsStable | PreLab3/Code/queue.c:2-15 | enqueue() puts p behind every PROC of at least its priority and before every lower one; order, sortedness and contents of the rest are kept |
| MtxQueues.PosIs | PreLab3/Code/queue.c:10-13 | The place of enqueue() is the only one with these properties |
| MtxQueues.InsertAllBlock | PreLab3/Code/wait.c:19-28 | PROCs of one priority, enqueued one by one, form a block in their order between the higher and the lower ones |
| MtxQueues.SplitAll | PreLab3/Code/wait.c:19-28 | The loop of wakeup() splits the sleep list without loss or copy |
| MtxScheduling.BoundedWait | PreLab3/Code/t.c:288-319 | Whatever commands come between, a ready user PROC at place i is at place i - n after n <= i scheduler calls |
| MtxScheduling.StepAdvances | PreLab3/Code/t.c:311-319 | One command without a switch leaves a ready user PROC at its place; one with a switch moves it one place forward, or runs it if it was first |
| MtxScheduling.BeforeKeepsPrefix | PreLab3/Code/t.c:148-169 | Forks, wakeups, exits and raised ZOMBIEs never overtake a ready user PROC |
| MtxScheduling.P0OnlyWhenIdle | PreLab3/Code/t.c:288-289 | P0 is picked only when no other PROC is READY |
| MtxExitWait.KwaitOutcomes | PreLab3/ReadMe.md:38-48 | kwait() answers "no child" exactly when no PROC in use has the caller as parent, and blocks exactly when there are such PROCs and none is a ZOMBIE |
| MtxExitWait.BuryExactlyOne | PreLab3/Code/t.c:250-264 | A burial frees one dead child of the caller, takes just it out of the child list and changes no other PROC and no other queue |
| MtxExitWait.NoMissedExit | PreLab3/Code/t.c:182-268 | In every reachable state a PROC blocked in kwait() has a child and, unless it is P1, no dead one |
| MtxExitWait.ChildExitWakes | PreLab3/Code/t.c:202-206 | kexit() makes a parent blocked in kwait() READY and leaves its own code in the ZOMBIE |
| MtxExitWait.P1MissesIff | PreLab3/Code/t.c:182-268 | Over any command, P1 comes to sleep in kwait() beside a dead child exactly when it is blocked there and a PROC exits that is not its child and has a dead child itself |
| MtxExitWait.AdoptionDoesNotWakeP1 | PreLab3/Code/t.c:192-205 | The same exit does so also when P1 had a dead child before |
| MtxFailures.P1MissesAChild | PreLab3/Code/t.c:182-268 | A run of nine commands from boot, for every address of the table, after which P1 sleeps in kwait() beside a dead child |
| MtxExitWait.ExitsAreCollectedOnce | PreLab3/Code/t.c:202-264 | In the log of every run, exits of one PROC alternate with burials (or raisings), each burial naming the code of the last exit; the exits still open are the ZOMBIEs |
| MtxInvariant.ForkKeeps | PreLab3/Code/t.c:138-171 | kfork() keeps the invariant |
| MtxInvariant.BuryKeeps | PreLab3/Code/t.c:182-209 | kexit() keeps it up to its switch: adoption by P1 leaves every child with one live parent |
| MtxInvariant.CollectKeeps | PreLab3/Code/t.c:249-264 | The burial in kwait() keeps it |
| MtxInvariant.BlockKeeps | PreLab3/Code/t.c:265-266 | Sleeping inside kwait() keeps it |
| MtxInvariant.WakeupKeeps | PreLab3/Code/wait.c:14-31 | wakeup() keeps it |
| MtxInvariant.RaiseKeeps | PreLab3/Code/t.c:57-71 | do_jesus() keeps it |
| MtxKernel.Mtx.constructor | PreLab3/Code/t.c:271-302 | init() and the first kfork() build the initial state in the table |
| MtxKernel.Mtx.Command | PreLab3/Code/t.c:94-124 | On the records and links, one command of the running PROC leads exactly to the state of the state machine |
| MtxKernel.Mtx.Enqueue | PreLab3/Code/queue.c:2-15 | The list at the returned head is the old one with p at its stable place; only next links of that list change |
| MtxKernel.Mtx.Dequeue | PreLab3/Code/queue.c:16-22 | The first PROC, or NULL; the list goes on behind it |
| MtxKernel.Mtx.Scheduler | PreLab3/Code/t.c:311-319 | The running PROC joins the ready queue if READY and its first PROC runs |
| MtxKernel.Mtx.Sleep | PreLab3/Code/wait.c:3-12 | The running PROC is queued on the sleep list with its event and another one runs |
| MtxKernel.Mtx.Wakeup | PreLab3/Code/wait.c:14-31 | The loop over the sleep list ends in the split of `WakeupIsStableSplit` |
| MtxKernel.Mtx.Kfork | PreLab3/Code/t.c:138-171 | On the links: the new PROC is the last in the caller's sibling list and in the ready queue; the pid, or -1 with nothing changed |
| MtxKernel.Mtx.Kexit | PreLab3/Code/t.c:182-206 | On the links: the children are chained behind P1's, the PROC is a ZOMBIE with its code, sleepers on its parent's address are READY |
| MtxKernel.Mtx.GiveAway | PreLab3/Code/t.c:196-201 | The loop over the children makes P1 the parent of exactly these |
| MtxKernel.Mtx.FindZombieChild | PreLab3/Code/t.c:237-242 | The first ZOMBIE of a sibling list, or NULL |
| MtxKernel.Mtx.Unlink | PreLab3/Code/t.c:255-261 | Just one child is taken out of the sibling list |
| MtxKernel.Mtx.Collect | PreLab3/Code/t.c:250-263 | The dead child is unlinked and freed; its pid and exit code are the results |
| MtxKernel.Mtx.Kwait | PreLab3/Code/t.c:244-269 | One pass of the loop of kwait() does the burial, the refusal or the sleep that `KwaitOutcomes` describes |
| MtxKernel.Mtx.Jesus | PreLab3/Code/t.c:57-71 | Every ZOMBIE becomes READY and is queued, in table order |
| MtxTable.Spliced | PreLab3/Code/queue.c:5-14 | The two links that enqueue() writes make the chain with p at its place |
| MtxTable.Attached | PreLab3/Code/t.c:187-194 | Linking a list behind the last sibling appends all its members to the child list |
| MtxTable.Forked | PreLab3/Code/t.c:147-158 | After the writes of kfork() every child list in the table is the one of the state machine |
| MtxTable.ExitedLinks | PreLab3/Code/t.c:187-203 | After the writes of kexit() every child list is the one of the state machine |
| MtxTable.CollectedTable | PreLab3/Code/t.c:253-261 | After the unlinking in kwait() every child list is the one of the state machine |
| MtxAsWritten.ForkLinksRight | PreLab3/Code/t.c:152-158 | kfork() as written appends the child exactly when the caller had at most one child and the PROC kept no links |
| MtxFailures.ForkLosesAChild | PreLab3/Code/t.c:153-157 | A run of three commands from boot, its table, and the fork that P1 makes next, after which one of its children is in no list |
| MtxAsWritten.ExitLinksRight | PreLab3/Code/t.c:192-203 | kexit() as written leaves an empty child list exactly when it was empty before |
| MtxFailures.ExitKeepsItsChildren | PreLab3/Code/t.c:192-203 | The table of a reachable state in which an exiting PROC keeps a child that P1 gets too |
| MtxAsWritten.WaitLinksRight | PreLab3/Code/t.c:255-261 | kwait() as written removes just the ZOMBIE exactly when it is not the first of several children |
| MtxFailures.WaitLosesAChild | PreLab3/Code/t.c:255-261 | A run of six commands from boot and its table, in which P1 buries the first of its two children and the other is in no list any more |
| MtxAsWritten.WrittenWaitRightIff | PreLab3/Code/t.c:248-268 | The answer "no child" of kwait() as written is true at the time when it is given exactly when the caller did not sleep for it; behind a sleep the caller always has a child |
| MtxFailures.WaitFindsNoChild | PreLab3/Code/t.c:248-268 | A run of four commands from boot after which kwait() answers "no child" to P1, whose child is dead beside it |
| MtxSwitch.Machine.Save | PreLab3/Code/ts.s:4-13 | Cell by cell, the flags, the registers and the return address are below the old stack pointer; other stacks are untouched |
| MtxSwitch.Machine.Switch | PreLab3/Code/ts.s:3-25 | tswitch() changes nobody's context: registers, flags, return address and stack of every PROC are as before, whatever scheduler() leaves in the registers |
| MtxSwitch.Machine.NewStack | PreLab3/Code/t.c:164-168 | Cell by cell, what kfork() writes, and that it is the context of a PROC about to enter body() with its name; other stacks are untouched |
| MtxSwitch.Machine.TakeTurn | PreLab3/Code/ts.s:3-25 | A turn in which the running PROC makes new PROCs and leaves anything in its registers, stack pointer and own stack changes its own context and those of the new PROCs only |
| MtxSwitch.Machine.Turns | PreLab3/Code/ts.s:3-25 | Any sequence of such turns with their tswitch() calls does to the contexts on the stacks what the turns say |
| MtxSwitch.Machine.SwitchBack | PreLab3/Code/ts.s:3-25 | A PROC resumed after any number of turns of others has exactly the registers, flags, return address and stack with which it called tswitch() |
| MtxSwitch.Machine.FirstResume | PreLab3/Code/t.c:164-168 | A PROC made in some turn first runs, after any number of turns of others, in body() with the name above a return address of 0 and zero registers |
| MtxSwitch.ResumedAsLeft | PreLab3/Code/ts.s:3-25 | A PROC that neither runs nor is made anew keeps its context through any turns and goes on in it |
| InodeCache.CacheIsTransparent | Lab5/Code/util.c:32-90 | After any run of gets, puts of held inodes and changes, every inode is seen as on a plain disk with the same changes; the cache invariant holds |
| InodeCache.FromInit | Lab5/Code/Main.c:25-50 | The same from the empty table of init() |
| InodeCache.WriteChangesOne | Lab5/Code/util.c:79-88 | A write-back changes one inode and leaves the other seven of the block, all other inodes and data blocks alone |
| InodeCache.InodeIsAt | Lab5/Code/util.c:53-59 | Inode 8 b + j + 1 is place j of block b behind inode_start |
| InodeCache.WriteIsAt | Lab5/Code/util.c:79-88 | A write-back of inode 8 b + j + 1 changes exactly this place of exactly this block |
| InodeCache.InodesAreThere | Lab5/Code/util.c:53-54 | The inodes on the disk are exactly these |
| InodeCache.GetDoes | Lab5/Code/util.c:32-65 | iget(): the slot that it gives, what is in it and what of the table changes, on a hit, in a free slot and without one |
| InodeCache.PutDoes | Lab5/Code/util.c:67-90 | iput(): one count less, and a write to the place of the inode exactly when that was the last count of a dirty slot |
| InodeCache.GetIsTransparent | Lab5/Code/util.c:32-65 | iget(), hit, miss or eviction, changes no inode anybody sees and adds one hold |
| InodeCache.PutIsTransparent | Lab5/Code/util.c:67-90 | iput() of a held slot changes no inode anybody sees and drops one hold |
| InodeCache.ModifyIsSeen | Lab5/ReadMe.md:58-66 | A change of a held inode is seen for that inode and no other |
| InodeCache.PointerIsInode | Lab5/Code/Commands.c:68 | Slots are equal exactly when their (dev, ino) are, so `wd == root` compares inodes |
| InodeCache.GetFailsIff | Lab5/Code/util.c:35-64 | iget() fails exactly when the inode is in no slot and all slots are held |
| InodeCache.QuitFlushesIff | Lab5/Code/Commands.c:104-114 | After Quit() as written the disk has an inode's current state exactly if it was held at most once or was already there |
| InodeCache.QuitLosesAChange | Lab5/Code/Commands.c:104-114 | From init(), an inode held twice (as the root is) and changed is not on the disk after Quit() |
| InodeCache.QuitUntilReleased | Lab5/Code/Commands.c:104-114 | Repeated as often as the inode is held, Quit() brings the disk up to date |
| CacheView.GetFailsIffFull | Lab5/Code/util.c:44-64 | With exact counts, iget() fails exactly when the held inodes together with the new one outnumber the slots |
| CacheView.FullIff | Lab5/Code/util.c:44-64 | As many inodes are held as there are slots exactly when no slot is free |
| CacheView.StillAnchored | Lab5/Code/util.c:46 | While their holds last, the slots of root and cwd are not evicted |
| TableRoom.CommandWalkIff | Lab5/Code/util.c:115-143 | With a table of any size, a command comes to where it would without a limit exactly when every inode that it loads is held or has a free slot, and to a null pointer otherwise |
| Directory.FindNameIsLookup | Lab5/Code/util.c:99-110 | On a block filled by records, in use or not, the walk ends, visits exactly the records in order and finds the first with the name |
| Directory.FindInodeIsNameOf | Lab5/Code/Commands.c:90-99 | The same for the walk of GetName() by inode number |
| Directory.FindNameIff | Lab5/Code/util.c:99-110 | On any bytes: the walk is a miss exactly when the records fill the block and none has the name, and finds an inode exactly when it is that of the first record with the name |
| Directory.ReadsBack | Lab5/Code/util.c:99-109 | The fields read at an entry's place are the encoded ones |
| Directory.LowByteFirst | Lab5/Code/util.c:99-109 | Twelve bytes as they are on the disk, read field by field |
| Directory.NameLookup | Lab5/Code/Commands.c:71 | Where records in use have different names, looking up the name that GetName() finds gives the inode back exactly when no dead record before it has the name, and 0 otherwise |
| Directory.SearchFindsIff | Lab5/Code/util.c:102-107 | search() finds a record in use exactly when no dead record before it still carries its name, and answers 0 otherwise |
| Directory.DeadRecordHidesName | Lab5/Code/util.c:102-107 | A full block on which search() answers 0 for a name that is there |
| DirWalk.SearchIsLookup | Lab5/Code/util.c:92-113 | Across the data blocks search() gives the inode of the first entry with the name, or the miss |
| DirWalk.GetNameIsNameOf | Lab5/Code/Commands.c:85-102 | Across the data blocks GetName() gives the name of the first entry with the inode, or NULL |
| DirWalk.SearchWrittenRightIff | Lab5/Code/util.c:92-113 | search() as written agrees with that exactly for names that exist |
| DirWalk.SearchWrittenFails | Lab5/Code/util.c:92-113 | For other names it walks a zero block for ever, or ends without a value when no block number is left |
| DirWalk.MissingNameHangs | Lab5/Code/util.c:92-113 | In a directory of one block with i_blocks 2, search() as written never comes back for any missing name |
| DirWalk.SearchIff | Lab5/Code/util.c:92-113 | For any inode and any bytes on the disk: search() is a miss exactly when no block carries the name, and finds an inode exactly when it is that of the first record with the name |
| DirWalk.ResolveInIsResolve | Lab5/Code/util.c:131-142 | Through cache and bytes, the loop of getino() does the lookups of the directory tree |
| DirWalk.MissIff | Lab5/Code/util.c:131-142 | From any inode, the loop of getino() answers 0 exactly when by the bytes of the blocks a name is lacking or its first record is not in use, at the first inode or at one that the names lead to |
| DirWalk.HitIff | Lab5/Code/util.c:131-142 | From any inode, the loop of getino() comes exactly to where the first records with the names lead, all of them in use |
| DirWalk.PwdIsUndoneIff | Lab5/Code/Commands.c:66-83 | In any well-formed tree, getino() of the path that pwd builds for a directory is that directory, exactly for every directory except the root on whose path no dead record hides a name; otherwise it is 0 |
| DirWalk.PwdIsInjective | Lab5/Code/Commands.c:66-83 | Different directories have different paths |
| SmallDisk.DeadRecordHidesPath | Lab5/Code/Commands.c:66-83 | A tree in which a dead record hides the path of a directory |
| MountCommands.GetinoIsTarget | Lab5/Code/util.c:115-143 | getino() of an absolute or relative path is its meaning in the tree, 0 for a missing name or an empty path |
| MountLaws.RelativePath | Lab5/Code/util.c:121-142 | getino() of names joined by slashes looks them up one behind the other from the cwd |
| MountLaws.AbsolutePath | Lab5/Code/util.c:121-142 | With a slash in front of each, from the root |
| MountLaws.PathWithoutNames | Lab5/Code/util.c:118-142 | Of the paths without a name, "/" is the root and all others are 0 |
| MountLaws.SlashesMakeNoDifference | Lab5/Code/util.c:18-29 | A slash at the end, or a second one beside a slash, makes no difference |
| MountLaws.LsShows | Lab5/Code/Commands.c:33-55 | What ls shows: the cwd or the directory of the path entry by entry, a regular file as one line, nothing for other files and for a path that is not found |
| MountLaws.CdLeads | Lab5/Code/Commands.c:8-30 | Where cd leads: to the directory of the path, or nowhere |
| MountLaws.PwdShows | Lab5/Code/Commands.c:58-83 | What pwd shows: a path that leads back to the cwd from everywhere, unless a dead record hides it, and an empty one in the root |
| MountLaws.WrittenLeaves | Lab5/Code/Commands.c:8-55 | The one reference that ls or cd as written leaves, or none |
| MountLaws.PwdLeaves | Lab5/Code/Commands.c:66-83 | pwd as written leaves one reference on each directory above the cwd, and no other |
| MountLaws.SessionOfOne | Lab5/Code/Main.c:112-138 | A session of one command is that command |
| MountLaws.SessionAppend | Lab5/Code/Main.c:112-138 | A session is its commands one behind the other, up to one that is the end of the program |
| MountCommands.PathThroughFileIff | Lab5/Code/util.c:131-141 | For a path through a regular file getino() answers 0, as it should, exactly when the rest of the path leads nowhere by the bytes: for one name, when the file's blocks carry no record with it, or a first one that is not in use |
| DirWalk.FilesAreSearched | Lab5/Code/util.c:92-113 | A file whose bytes are a record is searched as a directory, and one of zeros hangs search() |
| MountCommands.CdTargetIsCdTo | Lab5/Code/Commands.c:8-30 | The inode at which cd ends is the directory that the path means in the tree, or the old one, exactly unless the bytes of a file lead out of the tree |
| MountCommands.CdAloneIsRightIff | Lab5/Code/Commands.c:12-14 | cd without a path does what `cd /` does exactly in the root |
| MountCommands.WrittenCdIsExactIff | Lab5/Code/Commands.c:17-27 | With the reference that getino() as written leaves, root and cwd are all that is held after cd exactly when cd led nowhere |
| MountCommands.WrittenLsIsExactIff | Lab5/Code/Commands.c:33-55 | The same for ls: exactly for the cwd, for "/" and for a name that does not exist |
| MountCommands.WrittenPwdIsExactIff | Lab5/Code/Commands.c:66-83 | The same for pwd: exactly in the root |
| SmallDisk.CdLeaks | Lab5/Code/Commands.c:8-30 | On a small disk, `cd .` as written leaves a reference behind |
| SmallDisk.LsLeaks | Lab5/Code/Commands.c:33-55 | So does `ls b` of a file |
| SmallDisk.PwdLeaks | Lab5/Code/Commands.c:66-83 | And pwd below the root |
| MountCommands.RoomForPwd | Lab5/Code/Commands.c:66-83 | With root and cwd held, pwd comes to hold exactly as many inodes as cwd has levels, the root's included |
| TableRoom.ListsIff | Lab5/Code/ls_l.c:57-82 | ls_dir() comes to the end of a directory exactly when every record is in use or no slot is free; it shows the records that are held or have a free slot, in order, with the inode that all users see, and all of them exactly when all are in use and fit |
| TableRoom.UnusedRecord | Lab5/Code/ls_l.c:71 | On a block with one record that is not in use search() and GetName() miss, and while a slot is free ls_dir() makes iget() read in front of its buffer |
| MountSessions.DeadIff | Lab5/Code/Main.c:112-138 | A command never ends, or uses a null pointer or memory that is not its own, exactly when its path loads an inode without a slot or goes on for ever or off the disk by the bytes of a file, when pwd needs more slots than there are, or when ls meets an unused record while a slot is free |
| MountSessions.StraightLostIff | Lab5/Code/util.c:115-143 | A path that stays on directories fails exactly when an inode that it loads has no slot |
| MountSessions.SessionIsPlain | Lab5/ReadMe.md:160-164 | With the releases that ReadMe asks for and a slot for each level of the tree, every session, however long, shows what it shows without a limit, ends in the same directory and with root and cwd as the only references |
| MountSessions.WrittenWithRoom | Lab5/Code/Main.c:112-138 | As written a session shows the same as long as the slots suffice for what each command leaves |
| MountSessions.FullStaysFull | Lab5/Code/Main.c:112-138 | As written, once every slot is held no command changes which inodes are held |
| SmallDisk.LsRunsOut | Lab5/Code/Commands.c:33-55 | With two slots, `ls b` fills the table and `ls a` comes to a null pointer; without a limit it lists the directory |
| SmallDisk.LsLeavesOut | Lab5/Code/ls_l.c:71-76 | With two slots, behind `ls b` an `ls` leaves out the directory a |
| MountedRoot.Mount.constructor | Lab5/Code/Main.c:25-66 | After init(), mount_root() and init_proc() root and cwd are the two references on inode 2 |
| MountedRoot.Mount.Iget | Lab5/Code/util.c:32-65 | In place: the cache step, an exact new reference, held slots keep their inode, and failure exactly when there is no room |
| MountedRoot.Mount.Iput | Lab5/Code/util.c:67-90 | In place: the cache step with its write-back; one reference less; nothing for a null pointer |
| MountedRoot.Mount.Search | Lab5/Code/util.c:92-113 | The two loops compute the walk of which `SearchIsLookup` speaks |
| MountedRoot.Mount.GetName | Lab5/Code/Commands.c:85-102 | The two loops compute the walk of which `GetNameIsNameOf` speaks |
| MountedRoot.Mount.GetIno | Lab5/Code/util.c:115-143 | The result for every path, every disk, malformed ones too, and every table, full ones too; all inodes seen as before, cwd and root still good, and exactly one reference left as written if the last inode has a slot, none as ReadMe asks |
| MountedRoot.Mount.ChangeDir | Lab5/Code/Commands.c:8-30 | The new cwd, or the null pointer for which there is no slot; as ReadMe asks its reference replaces the old one, as written the reference left by getino() comes on top |
| MountedRoot.Mount.RPwd | Lab5/Code/Commands.c:66-83 | The path from the root in front of the text given, exactly when the ancestors fit into the slots, a NULL pointer otherwise; references kept on every ancestor as written, on none as ReadMe asks |
| MountedRoot.Mount.Pwd | Lab5/Code/Commands.c:58-63 | The path of the cwd, exactly when it and its ancestors fit into the slots |
| MountedRoot.Mount.ListDir | Lab5/Code/ls_l.c:57-82 | The listing of which `ListsIff` speaks, record by record through the cache, with the entries skipped for which there is no slot; no reference left |
| MountedRoot.Mount.ListFile | Lab5/Code/Commands.c:33-55 | ls of a directory, a file, a missing name or the cwd with a table of any size, and the reference left by getino() as written |
| MountedRoot.Mount.Session | Lab5/Code/Main.c:112-138 | In both forms of the releases, for any table and whatever was held before: any sequence of ls, cd and pwd shows, ends and leaves what the session on the tree says, up to a command that never ends or uses a null pointer or memory that is not its own |
| MountedRoot.Mount.Quit | Lab5/Code/Commands.c:104-114 | The loop is the Quit of `QuitFlushesIff` |
| FileSave.SaveReload | Lab2/Lab2.c:288-327 | Saving a tree with valid names and loading the text rebuilds the same ordered tree: kinds, names, order, nesting |
| FileSave.LineIsAdd | Lab2/Lab2.c:58-79 | Loading one line appends one node in the directory that the line names |
| FileLaws.SavedLines | Lab2/Lab2.c:318-327 | The saved text has one line for each node in preorder: its letter, a blank and its path from the root |
| FileLaws.SavedOrder | Lab2/Lab2.c:318-327 | The text of a tree of three nodes, character by character |
| FileLaws.LineIsCommand | Lab2/Lab2.c:296-303 | A line with a name does what mkdir or creat does in the root |
| FileLaws.LastLineIsCut | Lab2/Lab2.c:296-297 | A last line without an end loses its last character |
| FileLaws.ReloadDoes | Lab2/Lab2.c:288-306 | The reload command of a saved file, in any state: the tree is the saved one, start its root, pathname as before; of no file, nothing |
| FileSave.EmptyLineIsAdd | Lab2/Lab2.c:63-64 | A line without a name, behind such a line, appends a node with the same name in the first directory of its path: what strtok() left of dname |
| FileSave.PathParts | Lab2/Lab2.c:133-145 | dirname and basename take the path of a saved line apart |
| FileSave.ReplayRebuilds | Lab2/Lab2.c:318-327 | The preorder entries of a forest, replayed behind what exists, append that forest: parents come before children |
| FileSave.EditKeepsValid | Lab2/Lab2.c:172-286 | mkdir and creat with valid names, rmdir and rm keep a tree one that can be saved and loaded |
| FileSave.SaveReloadIff | Lab2/Lab2.c:288-327 | Among trees whose names are valid or empty, the reloaded tree is the saved one exactly when no name is empty |
| FileSave.EmptyNameIsLost | Lab2/Lab2.c:64 | A directory with the empty name comes back under the last name used |
| FileTree.ChangeIsEdit | Lab2/Lab2.c:172-286 | A command at a path appends one node there, or deletes exactly one childless node there, and leaves the rest of the ordered tree in place |
| FileTree.MakeOk | Lab2/Lab2.c:172-186 | mkdir and creat keep the tree well formed: one list for each node, owned by its parent, no two siblings of one kind and name, children only in directories |
| FileTree.RemoveOk | Lab2/Lab2.c:188-205 | rmdir and rm keep it too |
| FilePaths.GetPathIsPath | Lab2/Lab2.c:244-255 | pwd prints the names from the root to the cwd |
| FilePaths.PathResolvesIff | Lab2/Lab2.c:110-132 | Resolving that text from the root leads back to the directory exactly when no name on it is empty and ".." is none of them but the first |
| FilePaths.CutIsParent | Lab2/Lab2.c:116-120 | Cutting the path text at the last slash gives the path of the parent |
| FilePaths.RemoveDetaches | Lab2/Lab2.c:188-205 | A node in the tree stays in the tree exactly when it is not the one removed |
| FileRuns.RunKeepsIff | Lab2/Lab2.c:58-79 | A command line (mkdir, rmdir, creat, rm, cd or reload) keeps the tree well formed, names free of "/", start a directory that its own path leads to, and pathname "~" with that path, exactly when it does not make a node named "/", does not remove start and does not reload while start is away from the root |
| FileRuns.RunsKeepIff | Lab2/Lab2.c:42-57 | All states of a run are such exactly when none of its lines does any of the three |
| FileRuns.LoadInStepIff | Lab2/Lab2.c:288-306 | After a reload pathname is "~" with the path of start exactly when start was the root |
| FileRuns.StartIsWherePwdSays | Lab2/Lab2.c:225-255 | After every such run pwd's text leads from the root back to start, and pathname is "~" with it |
| FileRuns.LineIsEdit | Lab2/Lab2.c:58-79 | A mkdir, creat, rmdir or rm with any path, absolute or relative, is the edit of the ordered tree in the directory that the path leads to |
| FileLaws.UpIsParent | Lab2/Lab2.c:115-120 | ".." leads from a node to its parent |
| FileLaws.UpDropsAName | Lab2/Lab2.c:110-132 | Below the root it takes the last name off the path; in the root it is a name like any other |
| FileLaws.PlainStep | Lab2/Lab2.c:99-109 | Any other token leads to the child directory of this name, or nowhere |
| FileLaws.PartsAre | Lab2/Lab2.c:133-145 | The directory and the last name of any path of names, absolute or relative |
| FileLaws.PlaceOfPath | Lab2/Lab2.c:58-79 | A command with such a path is run where the names but the last lead, from the root or from start |
| FileLaws.SlashesMakeNoDifference | Lab2/Lab2.c:133-145 | A slash at the end of a path makes no difference |
| FileLaws.SecondSlash | Lab2/Lab2.c:133-145 | Nor does a second one in front of the last name |
| FileLaws.EditsDo | Lab2/Lab2.c:172-286 | What mkdir, creat, rmdir and rm with such a path do to the ordered tree, each by its own edit |
| FileLaws.EditHereIs | Lab2/Lab2.c:172-286 | The edit in the list of a directory, by the place of the first node of the kind and name |
| FileLaws.EditBelowIs | Lab2/Lab2.c:172-286 | The edit below one child changes that child's list only |
| FileLaws.CdDoes | Lab2/Lab2.c:225-238 | cd moves start to where all names lead, or nowhere |
| FileLaws.CdHome | Lab2/Lab2.c:226-229 | cd without a path, of "/" and of "." goes to the root |
| FileLaws.CdUp | Lab2/Lab2.c:115-120 | `cd ..` cuts pathname at its last slash; in the root it looks for a directory of that name |
| FileLaws.CdDown | Lab2/Lab2.c:225-238 | cd along directories appends their names to pathname |
| FileLaws.RunAppend | Lab2/Lab2.c:42-57 | A run is its command lines one behind the other |
| FileRuns.RunsSaveAndReload | Lab2/Lab2.c:288-327 | After every such run with valid new names, reloads of saved files included, saving and reloading gives the same tree |
| FileRuns.SlashNode | Lab2/Lab2.c:58-79 | mkdir of "//" makes a node named "/" |
| FileRuns.StartRemoved | Lab2/Lab2.c:188-205 | Behind mkdir a and cd a, rmdir of "/a" removes start |
| FileRuns.ReloadFromBelow | Lab2/Lab2.c:288-306 | Behind the same, a reload makes start the root while pathname stays "~/a" |
| FileSystem.FileSystem.Execute | Lab2/Lab2.c:42-79 | On the links, any command line does what the step of `RunKeepsIff` does, and pathname ends in the path of start |
| FileSystem.FileSystem.Reload | Lab2/Lab2.c:288-306 | The loop over the lines of the file builds the tree of the text on new links, with dname and bname as each line leaves them; start is its root and pathname stays |
| FileSystem.FileSystem.RunLines | Lab2/Lab2.c:44-55 | The same for the loop over any command lines |
| FileSystem.FileSystem.Make | Lab2/Lab2.c:172-186 | On the links: the node is behind the last sibling exactly when no sibling has its kind and name |
| FileSystem.FileSystem.Remove | Lab2/Lab2.c:188-205 | On the links: the first child of this kind and name is unlinked, a directory only when empty |
| FileSystem.FileSystem.TraverseDir | Lab2/Lab2.c:99-109 | cwd moves to the child directory of the name, or stays |
| FileSystem.FileSystem.LocateDir | Lab2/Lab2.c:110-132 | cwd goes along the tokens and cwPath stays "~" with the names from the root to it |
| FileSystem.FileSystem.Cd | Lab2/Lab2.c:225-238 | start and pathname move together, or not at all |
| FileSystem.FileSystem.SaveTree | Lab2/Lab2.c:318-327 | The recursion over child and sibling links writes the text of the tree |
| FileSystem.FileSystem.GetPath | Lab2/Lab2.c:244-255 | The recursion over parent links gives the path of `GetPathIsPath` |
| Pipeline.PipelineIsWired | Lab3/Lab3.c:202-233 | For any number of stages: they are the words split at the bars, stage k has pipe k - 1 on descriptor 0, pipe k on descriptor 1, and otherwise the shell's descriptors |
| Pipeline.StagesJoin | Lab3/Lab3.c:118-136 | The stages of a line have no bar in them, and joined by bars they are the line |
| Pipeline.JoinedStages | Lab3/Lab3.c:118-136 | They are the only such stages |
| Pipeline.WiredIff | Lab3/Lab3.c:202-233 | For any line with a word behind its first bar, the processes that reach execve() and their descriptors are the wanted ones exactly when the shell has descriptor 0 open, no stage is empty, and there are no more stages than elements of PIPE |
| Pipeline.WiredIffInputOpen | Lab3/Lab3.c:211-223 | For lines that fit and do not end in a bar: exactly when the shell has descriptor 0 open |
| Pipeline.MiswiredWithoutInput | Lab3/Lab3.c:211-215 | With descriptor 0 closed, a piped to b leaves the writer with no standard output |
| Pipeline.OutcomeIs | Lab3/Lab3.c:202-233 | handlePipes overruns PIPE, dies in hasPipe or hands all stages to linuxExe(), each for exactly the lines with so many stages and with or without a bar at the end |
| Pipeline.LineEnds | Lab3/Lab3.c:159-233 | And behind linuxExe(): a process dies in getCMD() exactly when all are handed over and a stage is empty |
| Pipeline.EmptyStage | Lab3/Lab3.c:159-168 | The line of a, two bars and b, whose second process dies in getCMD() |
| Pipeline.BarAtTheEnd | Lab3/Lab3.c:118-136 | The line of a and b with a bar behind each, on which hasPipe dies |
| Pipeline.FiveStages | Lab3/Lab3.c:36 | Any line of five one-word stages overruns PIPE |
| Pipeline.InBoundsIff | Lab3/Lab3.c:36 | PIPE is not overrun exactly when there are no more stages than elements: up to four |
| Pipeline.EndsHeldOnce | Lab3/Lab3.c:211-223 | Among the stages that handlePipes makes, each end of each pipe is open in one process, on one descriptor |
| Pipeline.OnePipe | Lab3/Lab3.c:212-223 | After dup and close each side has one end in place and nothing else changed |
| Pipeline.OnePipeWithoutInput | Lab3/Lab3.c:213-215 | With descriptor 0 closed the writer's output is not the pipe |
| ShellProcess.HasPipe | Lab3/Lab3.c:118-136 | The words before and behind the first bar; no bar, or a crash for a bar at the end |
| ShellProcess.GetCmd | Lab3/Lab3.c:159-168 | The loop over the PATH directories: /bin with the name, or none, and death for a stage without words |
| ShellProcess.Process.HandlePipes | Lab3/Lab3.c:202-233 | Fork by fork, the processes handed to linuxExe() are the stages of the theorem above, with their descriptor tables |
| ShellProcess.LinuxExe | Lab3/Lab3.c:280-290 | Over all processes of the line: which reach execve(), and whether one dies before |
| ShellProcess.ArrtoStr | Lab3/Lab3.c:313-319 | The loop joins the words with blanks |
| ShellProcess.ArgvInfo | Lab3/Lab3.c:105-116 | The loop gives the tokens of the line |
| ShellProcess.Rejoined | Lab3/Lab3.c:105-116 | argvInfo() gives back the words that ArrtoStr() joined exactly when none is empty or has a blank |
| ThreadSum.JoinedTotal | PreLab4/Code/Part2.c:17-68 | Under every interleaving, for any number of threads and any cells, the joined total is the sum of the matrix as a 32-bit int, hence the sum itself exactly when it fits |
| ThreadSum.EachAddsItsRow | PreLab4/Code/Part2.c:17-27 | Whatever the others do, the thread with number t adds up row t |
| ThreadSum.MoveKeeps | PreLab4/Code/Part2.c:28-35 | Every step keeps total equal to the sum of the rows whose write is done, and unchanged between a thread's read and write |
| ThreadSum.MutualExclusion | PreLab4/Code/Part2.c:28-35 | At most one thread is in the critical region |
| ThreadSum.SomebodyMoves | PreLab4/Code/Part2.c:60-68 | Until all threads are joined somebody can move |
| ThreadSum.EveryRunEnds | PreLab4/Code/Part2.c:60-68 | No run has more steps than there are cells and eight for each thread; the runs with so many are exactly those in which all threads are joined, and those in which nobody can move |
| Text.TokensJoin | Lab3/Lab3.c:107-114 | strtok() takes a text joined from words apart into these words |
| Text.TokensSplit | Lab5/Code/util.c:18-29 | A separator ends a token wherever it stands, so runs of separators and separators at either end make no difference |
| Text.TokensPrefixed | Lab5/Code/util.c:18-29 | tokenize() of an absolute path gives its names |

## Left out

- Prompts, menus, printed text and the reading of command lines; commands are arbitrary inputs.
- Lab1, Lab4, Lab6 and PreLab4 Parts 1 and 3: printing, socket plumbing, a repetition of Lab5, and smaller sums.
- C memory: the 64-, 128- and 256-byte text buffers, `args`, `head` and `tail` arrays of the shell, allocation sizes, freed nodes (they are unlinked), the dead stack buffer that GetName returns, and pointers cast to int (the address of a PROC as an event is a number that differs for each PROC).
- The point at which a process waits inside kwait is a ghost part of the kernel state; the table of the code does not show it.
- `body()` never compares equal to NULL, so its return to do_exit (PreLab3/Code/t.c:122-123) does not happen and is not modelled.
- Stack depth: each PROC's stack has room for what it pushes.
- execve, the splitting of PATH into directories, redirections, built-in commands, failing fork, pipe or dup, and the order in which the processes of a pipeline run.
- Lines of a saved file without two words, and white space other than ' ' between them; save and reload are on the text, not on files.
- What Lab2 does in freed memory after `rmdir` of the directory that start is in; the model keeps the node, out of the tree.
- On the mounted disk the names of records in use have no '/', and no name has a NUL; the device is not descriptor 0, which an empty minode would match.
- MountedRoot.Mount.Session: leaves out a path that comes, through the bytes of a regular file, to a directory that no directory of the tree names; GetIno covers it, and `MountCommands.CdTargetIsCdTo` says that cd leaves the tree exactly then.
- `R_Pwd` returning -1 for a parent without the name: in a well-formed tree it does not happen.
- The second process of Lab5 (P1) and its cwd, one device, ls formatting, times and mode letters, the super block and group descriptor.
- MountedRoot.Mount.Change: any change of a held inode with the dirty flag set stands for the clients of ReadMe; no command of Lab5 makes one.
- ShellProcess.LinuxExe: the PATH has at least one directory; without any, getCMD() does not touch args[0].
- ThreadSum.JoinedTotal: wraps `mysum` and `temp` at 32 bits, where C leaves signed overflow undefined.
