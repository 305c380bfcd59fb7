# Lake compiler and actor runtime: a verified model

Lake is an actor language compiled to native code. This project models the *emitted program* — blocks, buffers,
arrays, lists, bitmaps and the scheduler's state — together with the compiler decisions that produce it, and proves
what the compiler and the runtime promise about it. `dafny verify dfyconfig.toml` checks the whole project.

## Components

**The block compiler** (`Words`, `WordLaws`, `Lake`, `LakeLaws`, `MemoryLaws`, `BlockMachine`, `BlockCompiler`,
`Acceptance`, `CompilerShape`, `CompilerLoops`, `KTable`, `CompilerCorrect`, `SuperBlock`, `ActorRuns`, `Slices`,
`Shadowing`, `Rebinding`). A branch body is a list of expressions: pure ones (64-bit arithmetic, loads), `let`,
runtime calls, sends, spawns, `when`, `self(...)`. `Lake.Eval` is its direct meaning over names, memory and a trace of
actions; the world outside the actor is an arbitrary function of the whole history. `BlockCompiler` compiles with the
source's id arithmetic to numbered blocks over VARIABLES, TEMP_VAL and JUMP_ARGS, and `BlockMachine` runs them one
dispatch at a time, with a death check at the end of each block. What the two sides share, operators, memory, keys and
actions, has laws of its own (`WordLaws`, `MemoryLaws`, `LakeLaws`), and `Acceptance.BodyAccepted` says exactly which
bodies compile. The main results are `ActorRuns.RunCorrect` (any number of `self(...)` iterations) and
`ActorRuns.SlicedRunCorrect` (the same under every way of cutting the run into slices). Source conditions: no arm
re-binds a name that is in scope where its `when` starts (`Shadowing.WrongSlot` is a run that goes wrong without it,
`Rebinding.ReadExact` the exact condition for a read behind an untaken arm, `Rebinding.HarmlessShadowing` when
re-binding does no harm), values stand where values are needed, at most 256 staged words, `self(...)` passes no more
words than VARIABLES holds, and no constant in a dense `when` divides the smallest i64 by -1 (`KTable.TableFaithful`
makes that condition exact, `KTable.SmallestByMinusOne` is a `when` that fails it).

**The loop unroller** (`Unroll`, `UnrollCorrect`, `UnrollLimits`, `UnrollNamesake`). Detection, register code, and
whole visits of the unrolled loop. `UnrollCorrect.UnrolledRunCorrect` holds for every unroll factor and every quantum
at every dispatch, for machines that mix unrolled and plain branches; `UnrollCorrect.SimVisit` says what memory holds
at each yield and at a mid-chunk exit, for loops that never end too. The unroller does not check three things it
relies on, so the points a run reaches in an unrolled loop must meet them: the discriminant there fits the arm keys;
the closing call reached there is `self(...)`, because the detector also takes a call of the machine's own name, which
the plain compilation spawns; and that `self(...)` enters this same branch. `UnrollCorrect.IterationExact` makes them
exact for one iteration; `UnrollLimits` and `UnrollNamesake` have sources whose plain and unrolled machines end with
different traces where they are missing.

**The actor runtime** (`Pids`, `PidTable`, `Queues`, `Scheduler`, `ActorSystem`, `Runtime`, `DispatchBound`,
`Mailbox`). The pid table, the run queue, wait array and parked list, and the mailbox ring are classes over arrays
whose methods are proved against functions on values; `ActorSystem` puts those functions together into one state
machine over spawn, send, receive, yield, wait, die, park and I/O completion, and proves its invariants for every
reachable state; `Runtime` runs the classes' methods together, slice by slice, and proves that each slice on the
arrays is a step of that machine.

**The allocators** (`SlabLayout`, `SlabAllocator`, `SlabRuns`, `SlabHeap`, `SlabRoute`, `BucketAllocator`,
`BucketHeap`, `ArenaSelf`). Slab geometry for every class, bitmaps and doubly linked slab lists, the power-of-two
buckets with their intrusive lists and the huge-mapping route, visible ends moved by `buf_trim` (which can make
allocation and free of a huge block part ways: `BucketAllocator.FreeMappedExact` says exactly when), and the
snapshot/reset/copy of pointer arguments on `self(...)`.

**Perfect hashing and string guards** (`Mphf`, `HashLaws`, `StrDispatch`) and **decimal printing** (`Decimal`). For
printing, the exact result is that the text reads back for every i64 but the minimum.

`FiniteSets` holds counting lemmas.

Where the code and its comments disagree, the model follows the code: the unroller decrements the quantum after a
chunk (its header comment announces a check before it), slab classes from 12 on are served by one-chunk slabs (a
comment says the actor dies), and the wait array's last index never goes below 0 (a comment says -1).

## Model

| member | source | states |
|---|---|---|
| KTable.FoldAgrees | src/compiler/pipeline/expr/when_expr.rs:22-60 | where the compile-time fold gives a constant, evaluation gives that constant in every state if and only if no division in it is of the smallest i64 by -1, and else traps; by induction over the expression |
| KTable.TryBuildKTable | src/compiler/pipeline/expr/when_expr.rs:64-96 | the detector's loop accepts exactly the arms keyed 0..n-1 once each with one constant body, and returns their table |
| KTable.EveryKeyHasAnArm | src/compiler/pipeline/expr/when_expr.rs:64-96 | n distinct keys below n leave no discriminant below n without an arm |
| KTable.TableIsSelection | src/compiler/pipeline/expr/when_expr.rs:101-165 | for every 64-bit discriminant, out of range included, the table read is the selected arm's constant, or no arm is selected |
| KTable.TableFaithful | src/compiler/pipeline/expr/when_expr.rs:64-164 | the table entry is what running the arm gives if and only if no division in the arm's constant is of the smallest i64 by -1; with such a division the arm traps |
| KTable.SmallestByMinusOne | src/compiler/pipeline/expr/when_expr.rs:30-37 | a dense `when` that the detector accepts and whose table answers with a word, although evaluating it traps |
| CompilerShape.ShapeOfExpr | src/compiler/pipeline/expr/mod.rs:243-376 | every registered id of an expression lies in the claimed range and slots only grow, whatever the expression |
| CompilerShape.ShapeOfArms | src/compiler/pipeline/expr/when_expr.rs:261-322 | arm blocks stay inside their range and redirect ids never collide with a block |
| CompilerLoops.CompileArgsLoop | src/compiler/pipeline/expr/jump_expr.rs:106-171 | the argument loop with its running id and staging slot emits what the recursive definition does |
| CompilerLoops.CompileArmsLoop | src/compiler/pipeline/expr/when_expr.rs:261-322 | the arm loop with its running id, first ids and redirect list emits what the recursive definition does |
| Acceptance.BodyAccepted | src/compiler/pipeline/branch.rs:216-265 | a branch body compiles if and only if every name is known where it is read, values stand where values are needed, and every `when` has a literal arm and no arm behind another one with the same key; ids and slots make no difference |
| Acceptance.KeysExact | src/compiler/pipeline/expr/when_expr.rs:189-379 | the three refusals of arm keys, two wildcards, a literal twice, no literal at all, leave exactly the arms each of which is the first with its key, one of them with a literal |
| Acceptance.ExprAccepted | src/compiler/pipeline/expr/mod.rs:243-376 | the same for one expression |
| Acceptance.ArmsAccepted | src/compiler/pipeline/expr/when_expr.rs:261-322 | the same for arms, each of which knows the names the arms before it bind |
| WordLaws.Trichotomy | src/compiler/pipeline/expr/pure_expr.rs:274-303 | of less, equal and greater exactly one answers 1; greater is less mirrored; the weak comparisons are less or equal and its mirror |
| WordLaws.SignedOrder | src/compiler/pipeline/expr/pure_expr.rs:274-303 | less is transitive, puts every negative word below every other, and holds between a word and its successor except at the largest i64 |
| WordLaws.RingLaws | src/compiler/pipeline/expr/pure_expr.rs:254-307 | sum, difference, product and negation are those of the signed readings modulo 2^64 |
| WordLaws.Truncated | src/compiler/pipeline/expr/pure_expr.rs:269-273 | division traps exactly on 0 and on the smallest i64 by -1; otherwise divisor times quotient and a remainder smaller than the divisor, with the dividend's sign, give the dividend |
| WordLaws.BitLaws | src/compiler/pipeline/expr/pure_expr.rs:308-322 | each bit of and, or, xor is the operation on the operands' bits |
| WordLaws.ShiftLaws | src/compiler/pipeline/expr/pure_expr.rs:323-333 | by the amount modulo 64, a left shift is the product with that power of two modulo 2^64, a right shift the unsigned quotient |
| MemoryLaws.StoredBytes | src/compiler/pipeline/expr/pure_expr.rs:344-381 | a store puts the low bytes of a word at consecutive addresses, lowest first, across the end of the address space too |
| MemoryLaws.LoadedBytes | src/compiler/pipeline/expr/pure_expr.rs:344-381 | a load has exactly the bytes at consecutive addresses, lowest first, and zeros above them |
| MemoryLaws.StoreLoad | src/compiler/pipeline/expr/pure_expr.rs:344-381 | what is stored is loaded: the word with 8 bytes, its low bytes with fewer |
| MemoryLaws.StoreBeside | src/compiler/pipeline/expr/pure_expr.rs:344-381 | a store beside a range leaves its loads alone |
| MemoryLaws.FatWords | src/compiler/pipeline/expr/string_expr.rs:103-120 | a string's fat pointer holds its start, and its end 8 bytes further on |
| MemoryLaws.LoadReads | src/compiler/pipeline/expr/pure_expr.rs:344-381 | an inlined load through a fat pointer gives what was stored at that offset behind the region's start |
| MemoryLaws.TupleReads | src/compiler/pipeline/expr/pure_expr.rs:191-211 | element i of a tuple is the word 8 * i bytes behind its region's start |
| LakeLaws.KeysAreLiterals | src/compiler/pipeline/expr/when_expr.rs:361-379 | an arm key's word is the word its literal evaluates to |
| LakeLaws.LiteralSelects | src/compiler/pipeline/expr/when_expr.rs:361-379 | a discriminant takes the first arm with its literal, a wildcard only when no arm has it, and no arm exactly when neither exists |
| LakeLaws.CallOfNumbers | src/compiler/pipeline/expr/jump_expr.rs:173-319 | a call adds one action with its callee and its argument words in order, a send's pid in front, and the world answers from the trace with it |
| LakeLaws.SelfOfNumbers | src/compiler/pipeline/expr/jump_expr.rs:448-848 | `self(...)` re-enters with its argument words in order |
| CompilerCorrect.ResolveAgrees | src/compiler/pipeline/expr/pure_expr.rs:176-384 | a pure expression over slots evaluates as it does over names |
| CompilerCorrect.SimExpr | src/compiler/pipeline/expr/mod.rs:243-376 | the blocks of any expression, run from its first id, end where evaluation ends: same bindings, memory, trace and value, or `self` with the same words, or the same stop; slots and staged words below are kept |
| CompilerCorrect.SimPureLet | src/compiler/pipeline/expr/let_expr.rs:177-305 | a `let` of a pure expression stores the evaluated word in the fresh slot in one block |
| CompilerCorrect.SimLet | src/compiler/pipeline/expr/let_expr.rs:79-161 | a `let` of any other expression runs it and saves TEMP_VAL in the fresh slot |
| CompilerCorrect.SimFirstArg | src/compiler/pipeline/expr/jump_expr.rs:106-171 | an argument is computed and staged, its own calls leaving the words staged before it alone |
| CompilerCorrect.SimArgs | src/compiler/pipeline/expr/jump_expr.rs:106-171 | all arguments end up staged in order, nested calls included |
| CompilerCorrect.SimFusedCall | src/compiler/pipeline/expr/jump_expr.rs:339-417 | a fused runtime call performs the action evaluation performs |
| CompilerCorrect.SimStagedCall | src/compiler/pipeline/expr/jump_expr.rs:173-319 | a staged call, parking call, send or spawn performs the action evaluation performs and goes on at the next id |
| CompilerCorrect.SimSelf | src/compiler/pipeline/expr/jump_expr.rs:448-848 | `self(...)`, fused or staged, enters the picked branch at block 0 with the evaluated words in the first slots |
| CompilerCorrect.SimFusedSelf | src/compiler/pipeline/expr/jump_expr.rs:448-848 | pure arguments of `self(...)` are all read before any variable is written, in one block |
| CompilerCorrect.SimStmts | src/compiler/pipeline/expr/when_expr.rs:268-286 | a list of statements runs as it evaluates, up to the first terminal one |
| CompilerCorrect.CasesAgree | src/compiler/pipeline/expr/when_expr.rs:361-379 | the dispatch switch sends a literal to the first id of its arm and nothing else there |
| CompilerCorrect.SimWhen | src/compiler/pipeline/expr/when_expr.rs:177-482 | a `when` runs the selected arm and comes back behind the `when`, or falls through when no arm is selected |
| CompilerCorrect.SimDispatch | src/compiler/pipeline/expr/when_expr.rs:177-482 | a `when` with any re-binding arms runs as it evaluates without the outer values of the names they re-bind |
| CompilerCorrect.SimTable | src/compiler/pipeline/expr/when_expr.rs:101-165 | a dense `when` through the constant table ends where the arms would |
| Shadowing.WrongSlot | src/compiler/pipeline/expr/mod.rs:96-137 | for the compiled body and every entry state: the machine puts what slot 1 held at entry, the source puts the word it bound, and the traces agree only if those happen to be equal |
| Rebinding.ReadExact | src/compiler/pipeline/expr/mod.rs:96-137 | behind a `when` that selects no arm, a read finds the source's word in every machine state that holds the names in scope, if and only if no compiled arm re-binds the name |
| Rebinding.SlotsOfExpr | src/compiler/pipeline/expr/mod.rs:96-137 | compiling any expression moves exactly the names let-bound in its compiled statements to fresh slots, taken or not, and no other name |
| Rebinding.HarmlessShadowing | src/compiler/pipeline/expr/when_expr.rs:177-482 | a body goes on as it evaluates behind a re-binding `when` whose arms and rest do not read the outer value of a re-bound name |
| SuperBlock.CompileBranchBody | src/compiler/pipeline/branch.rs:216-265 | the statement loop with its open super-block emits exactly the blocks of the body's runs and single statements |
| SuperBlock.ResumeAnywhere | src/compiler/pipeline/branch.rs:197-206 | entering a super-block again at any of its ids, after any part of it ran, ends as one run of it |
| SuperBlock.SimFrontRun | src/compiler/pipeline/branch.rs:216-265 | a merged run does in one block what its statements do one by one |
| SuperBlock.SimBody | src/compiler/pipeline/branch.rs:197-265 | a whole branch body runs as it evaluates |
| ActorRuns.EntryAgrees | src/compiler/pipeline/branch.rs:77-89 | argument words stored by position are what the parameter names mean, guards and wildcards included |
| ActorRuns.EntryPlaces | src/compiler/pipeline/branch.rs:77-89 | a parameter name means the argument word at the last position that has it, and its slot is that position |
| ActorRuns.BranchCorrect | src/compiler/pipeline/branch.rs:25-283 | one branch, from its entry to its end, does what its body means |
| ActorRuns.RunCorrect | src/compiler/pipeline/branch.rs:25-283 | for every number of `self(...)` iterations the machine reaches the source's state: same memory and trace, finished, re-entered with the same words, or stopped for the same reason |
| ActorRuns.SlicedRunCorrect | src/compiler/pipeline/machine.rs:143-296 | the same under every schedule of slices that brings the actor to an end |
| Slices.ExecCtx.RunSlice | src/compiler/pipeline/machine.rs:130-296 | the quantum loop runs at most the quantum of blocks and resumes where it stopped; STOP_PARK if and only if the last block run has a parking exit, STOP_LIMIT only when it has not and the quantum or the clock is used up, and no earlier block of the slice parked or met a used-up clock |
| Slices.SliceUnique | src/compiler/pipeline/machine.rs:143-296 | that leaves one answer: from one configuration, quantum and clock, the number of blocks, the configuration reached and the stop code are determined |
| Slices.ScheduleIsRun | src/compiler/pipeline/machine.rs:143-220 | slices one after another are one run: same configuration after the same number of blocks |
| Slices.PreemptionTransparent | src/compiler/pipeline/machine.rs:143-296 | under every quantum and every answer of the clock an actor that ends, ends in the same configuration, after at most as many yields as blocks |
| Unroll.DropRestores | src/compiler/pipeline/expr/unroll.rs:438-478 | dropping an iteration's names restores the name table for the next copy, when they shadow none of it |
| Unroll.DetectExact | src/compiler/pipeline/expr/unroll.rs:170-300 | a body is unrolled if and only if it is one pure `when` with two arms under different keys out of `true`, `false` and the wildcard, one of them a loop arm; the first loop arm loops, on a non-zero discriminant exactly when its key is `true` or the exit's is `false` |
| Unroll.SimSelfArm | src/compiler/pipeline/expr/unroll.rs:438-474 | the register code of a self arm leaves the next iteration's words in the registers and the same memory and trace |
| Unroll.PolarityExact | src/compiler/pipeline/expr/unroll.rs:272-280 | testing against zero takes the arm the `when` selects if and only if the discriminant fits the two keys |
| Unroll.ComparisonsFit | src/compiler/pipeline/expr/unroll.rs:412-430 | a comparison as condition always fits |
| UnrollCorrect.RunVisit | src/compiler/pipeline/expr/unroll.rs:406-532 | the emitted loop computes the visit function |
| UnrollCorrect.FactorExact | src/compiler/pipeline/expr/unroll.rs:331-343 | as many copies as asked for and two at least, each the whole code of one iteration; a pass costs one unit of quantum per copy |
| UnrollCorrect.TakenIsBody | src/compiler/pipeline/expr/unroll.rs:272-280 | with a discriminant that fits and a closing `self(...)`, the arm taken by testing against zero gives the body's result |
| UnrollCorrect.ReadingExact | src/compiler/pipeline/expr/unroll.rs:239-252 | an arm read as closing by `self(...)` ends as written if it does not reach its closing call, and if it does, only a written `self(...)` re-enters |
| UnrollCorrect.SimIteration | src/compiler/pipeline/expr/unroll.rs:412-479 | the register code of one copy, with no condition on discriminant, closing call or branch choice: it continues in the same branch with the closing call's words, leaves for the exit arm, or traps |
| UnrollCorrect.IterationExact | src/compiler/pipeline/expr/unroll.rs:412-479 | a copy does what the source's iteration does if and only if the loop arm, when taken, stays in the branch, and the discriminant reached fits the keys with the closing call being `self(...)` where the arm reaches it (or, for an unfit discriminant, both arms do the same) |
| UnrollCorrect.SimVisit | src/compiler/pipeline/expr/unroll.rs:382-532 | every visit, for every quantum, of a run that is steady at its points: a yield after whole chunks, the fewest that use the quantum up, or a mid-chunk exit finds the reached iteration's values in memory; a trap is the source's; no chunk starts once the quantum is used up |
| UnrollCorrect.SimExit | src/compiler/pipeline/branch.rs:130-164 | the exit arm compiled from id 1 does what the source's exit arm does |
| UnrollCorrect.UnrolledRunCorrect | src/compiler/pipeline/expr/unroll.rs:331-532 | for every unroll factor and quantum pattern, a source run that ends, and is steady at every loop point it reaches, ends alike in the machine with unrolled branches |
| UnrollCorrect.UnrollingIsTransparent | src/compiler/pipeline/expr/unroll.rs:331-532 | the plain and the unrolled compilation of one source end such a run alike, with the same memory and trace |
| UnrollLimits.SiblingMissed | src/compiler/pipeline/branch.rs:109-119 | with a guarded sibling branch of the same arity, `self(0)` goes to the sibling in the plain machine and stays in the unrolled one: different traces, at every factor and quantum |
| UnrollLimits.ArmMissed | src/compiler/pipeline/expr/unroll.rs:254-280 | with no guard in force and a discriminant of 2, the plain machine takes the wildcard arm and the unrolled one continues: different traces, at every factor and quantum |
| UnrollLimits.LeavesAfterOne | src/compiler/pipeline/expr/unroll.rs:412-532 | wherever the first copy continues and the second leaves, the unrolled machine ends as the exit arm does at the second point |
| UnrollLimits.SiblingsCompile | src/compiler/pipeline/branch.rs:97-164 | both compilations of the source exist, with the sibling's guard in force or not, at every factor |
| UnrollNamesake.SpawnMissed | src/compiler/pipeline/expr/unroll.rs:239-252 | in machine `worker`, an arm closing by `worker(0)`: the plain machine spawns a worker and ends, the unrolled one spawns nobody and loops, at every factor and quantum |
| UnrollNamesake.NamesakeCompiles | src/compiler/pipeline/branch.rs:97-164 | both compilations of that source exist, at every factor |
| Pids.PackExact | src/compiler/rt/layout/sheduler_ctx.rs:354-357 | a packed pid unpacks to its generation if and only if that fits 32 bits |
| Pids.AssignKeeps | src/compiler/rt/layout/sheduler_ctx.rs:304-357 | a new pid was never issued before; live slots and recycled slots still partition the slots in use, through table growth |
| Pids.ClearKeeps | src/compiler/rt/layout/sheduler_ctx.rs:412-486 | clearing a live pid recycles its slot and loses no other actor |
| Pids.Reused | src/compiler/rt/layout/sheduler_ctx.rs:230-486 | the slot cleared last is the next one assigned, under a pid exactly one generation higher, and the stack below it is as it was |
| Pids.FreshOnlyWhenNoneFree | src/compiler/rt/layout/sheduler_ctx.rs:230-357 | a slot never used before is taken exactly when none is recycled, the top recycled one otherwise, under the slot's next generation |
| Pids.LookupExact | src/compiler/rt/layout/sheduler_ctx.rs:365-405 | lookup finds an actor exactly under its own pid while it lives, and nothing under the null pid or a dead actor's |
| Pids.AssignedIsFound | src/compiler/rt/layout/sheduler_ctx.rs:337-405 | the actor just assigned is found under its pid if and only if its generation fits 32 bits |
| Pids.RunSound | src/compiler/rt/layout/sheduler_ctx.rs:230-486 | over every run of assignments and clears, lookups stay exact and issued pids stay issued |
| Pids.DeadStaysDead | src/compiler/rt/layout/sheduler_ctx.rs:365-486 | a dead actor's pid finds nothing ever after, through reuse of its slot and growth |
| Pids.LiveSlotsDiffer | src/compiler/rt/layout/sheduler_ctx.rs:304-357 | two live pids never share a slot |
| PidTable.GrowIfFull | src/compiler/rt/layout/sheduler_ctx.rs:1076-1177 | an array grows exactly when the index reaches its capacity, doubles, and keeps its entries |
| PidTable.Table.AssignPid | src/compiler/rt/layout/sheduler_ctx.rs:230-357 | on the arrays: the whole new table, stack and pid are those of the assignment function |
| PidTable.Table.Find | src/compiler/rt/layout/sheduler_ctx.rs:365-405 | on the arrays: the lookup function |
| PidTable.Table.ClearPid | src/compiler/rt/layout/sheduler_ctx.rs:412-486 | on the arrays: the whole new table and stack are those of the clearing function |
| Queues.PoppedSet | src/compiler/rt/layout/sheduler_ctx.rs:890-912 | swap-and-pop puts the last element in the hole, removes exactly the element that was there, leaves every other in its place, and keeps the rest distinct |
| Scheduler.Sched.NewProcess | src/compiler/rt/layout/sheduler_ctx.rs:1179-1235 | the run queue gains the actor at its end and the cursor, the wait array and the parked list stay, on the arrays themselves and through growth; counters stay coherent |
| Scheduler.Sched.RemoveCurrent | src/compiler/rt/layout/sheduler_ctx.rs:853-955 | swap-and-pop of the current actor; the cursor resets only from the last place; an empty queue leaves the last index at -1 |
| Scheduler.Sched.WaitCurrent | src/compiler/rt/layout/sheduler_ctx.rs:957-1045 | the pid is appended behind the null slot, through growth |
| Scheduler.Sched.Scan | src/compiler/rt/layout/sheduler_ctx.rs:1375-1415 | the scan finds a pid if and only if it waits, at its first place |
| Scheduler.Sched.Wake | src/compiler/rt/layout/sheduler_ctx.rs:1317-1490 | a waiting actor leaves the wait array and joins the end of the run queue if the table knows it, the cursor and everything in front staying; otherwise nothing changes |
| Scheduler.Sched.NextProcess | src/compiler/rt/layout/sheduler_ctx.rs:1237-1307 | the cursor advances around the queue |
| Scheduler.Sched.ParkCurrent | src/compiler/rt/funcs/io_uring.rs:990-1095 | the current actor moves to the parked list and knows its place there; the cursor resets |
| Scheduler.Sched.WakeParked | src/compiler/rt/funcs/io_uring.rs:732-867 | a completed actor leaves the parked list by its stored place, the moved one learns its new place, and the run queue gains it at its end with the cursor where it was |
| Scheduler.Sched.Decide | src/compiler/rt/scheduler/mod.rs:108-146 | run when anyone is runnable, else wait for I/O when anyone is parked, and leave the loop exactly when all lists are empty |
| ActorSystem.StepKeeps | src/compiler/rt/layout/sheduler_ctx.rs:853-1490 | every event keeps pid soundness, conservation and no-lost-wake-up together |
| ActorSystem.ReachableInv | src/compiler/rt/scheduler/mod.rs:60-231 | in every reachable state each live actor is in exactly one list exactly once, lists hold nobody else, and waiting actors have empty mailboxes |
| ActorSystem.StartedInv | src/compiler/rt/layout/sheduler_ctx.rs:488-639 | start-up, with `main` alone in the run queue, satisfies the invariants |
| ActorSystem.ExitExact | src/compiler/rt/scheduler/mod.rs:108-146 | in every reachable state all lists are empty if and only if no actor is alive |
| ActorSystem.PendingIsNotWaiting | src/compiler/pipeline/expr/send_expr.rs:88-168 | in every reachable state an actor with a pending message is runnable or parked, never waiting |
| ActorSystem.SendWakes | src/compiler/pipeline/expr/send_expr.rs:98-168 | in every run a send to a waiting actor moves it to the end of the run queue once, with the message in its mailbox |
| ActorSystem.SendToNobody | src/compiler/pipeline/expr/send_expr.rs:71-96 | in every run a send to the null pid or a dead actor changes nothing |
| ActorSystem.SliceIsItsOwn | src/compiler/rt/layout/sheduler_ctx.rs:1179-1235 | a spawn, send or receive leaves the running actor running: same actor, same cursor, the old run queue in front of whatever joined, same parked list |
| ActorSystem.NextUp | src/compiler/rt/layout/sheduler_ctx.rs:853-955 | who runs next: after a yield the neighbour around the queue; after a wait or a death the queue's last actor, moved to the freed place, or the first one when the freed place was the last; after parking the one at the front |
| ActorSystem.CompletionWaitsItsTurn | src/compiler/rt/funcs/io_uring.rs:732-867 | a completion queues its actor last and leaves cursor and current actor alone when anyone is runnable |
| DispatchBound.Closer | src/compiler/rt/layout/sheduler_ctx.rs:890-951 | cyclic distance plus queue length strictly decreases with every other actor's slice, whether it stays or leaves |
| DispatchBound.DispatchedSoon | src/compiler/rt/layout/sheduler_ctx.rs:1253-1306 | while nothing joins the queue and nobody parks, each of n runnable actors is dispatched within 2n-1 slices |
| Runtime.SpawnSlice | src/compiler/pipeline/expr/spawn_expr.rs:318-321 | on the arrays: pid table, run queue and a new mailbox after a spawn are those of the state machine's step |
| Runtime.SendSlice | src/compiler/pipeline/expr/send_expr.rs:71-168 | on the arrays: lookup, enqueue and wake together are the state machine's send |
| Runtime.ReceiveSlice | src/compiler/pipeline/expr/wait_expr.rs:238-294 | on the ring: the message taken and what is left are the state machine's receive |
| Runtime.YieldSlice | src/compiler/rt/scheduler/mod.rs:230-231 | on the arrays: the state machine's yield |
| Runtime.WaitSlice | src/compiler/rt/scheduler/mod.rs:225-228 | on the arrays: appending to the wait array and swap-and-pop together are the state machine's wait |
| Runtime.DieSlice | src/compiler/rt/scheduler/mod.rs:196-201 | on the arrays: clearing the pid and swap-and-pop together are the state machine's death |
| Runtime.ParkSlice | src/compiler/rt/funcs/io_uring.rs:990-1095 | on the arrays: the state machine's parking |
| Runtime.EndSlice | src/compiler/rt/scheduler/mod.rs:185-231 | the main loop's answer to a stop code, on the arrays: done is the death, wait the wait, limit the yield, and park nothing more, of the state machine |
| Runtime.CompleteIo | src/compiler/rt/funcs/io_uring.rs:732-867 | on the arrays: the state machine's completion |
| Mailbox.Ring.Enqueue | src/compiler/pipeline/expr/send_expr.rs:133-160 | the ring holds the message behind what was pending, as long as 255 words suffice |
| Mailbox.Ring.Dequeue | src/compiler/pipeline/expr/wait_expr.rs:238-294 | the message taken is the front of the queue and the rest stays in order |
| Mailbox.Ring.WaitCheck | src/compiler/pipeline/expr/wait_expr.rs:213-409 | one visit suspends on an empty mailbox, delivers, or drops exactly one whole message the filter misses |
| Mailbox.AppendExact | src/compiler/pipeline/expr/send_expr.rs:133-160 | a non-empty send appends to the queue if and only if all pending words still fit 255 |
| Mailbox.DeliversFirstWanted | src/compiler/pipeline/expr/wait_expr.rs:285-399 | visits drop the unwanted messages one by one, then deliver the first wanted one; later messages keep their order |
| Mailbox.Fifo | src/compiler/pipeline/expr/send_expr.rs:133-160 | for any interleaving, what was pending and sent is what was received followed by what is left |
| SlabLayout.ComputeChunks | src/compiler/rt/layout/slab.rs:101-131 | the eight-round loop computes the fixed point the geometry uses |
| SlabLayout.SmallClass | src/compiler/rt/layout/slab.rs:101-131 | chunks per slab of each class below 12, and that they fit the slab behind the bitmap |
| SlabLayout.OneChunk | src/compiler/rt/layout/slab.rs:90-131 | every class from 12 on has one chunk, 48 bytes into a slab of twice its size |
| SlabLayout.Geometry | src/compiler/rt/funcs/alloc.rs:1736-1750 | for every class: some chunk fits, whole bitmap words end before the 16-aligned payload, the payload ends inside the slab |
| SlabAllocator.Scan | src/compiler/rt/funcs/alloc.rs:1785-1832 | word scan and lowest bit find the first set bit of the bitmap |
| SlabAllocator.FillBitmap | src/compiler/rt/funcs/alloc.rs:1969-2016 | exactly the chunks' bits are set, spare bits stay 0 |
| SlabAllocator.LiveInside | src/compiler/rt/funcs/alloc.rs:1847-1856 | a live chunk is 16-aligned, behind the bitmap words and inside its slab |
| SlabAllocator.LiveDisjoint | src/compiler/rt/funcs/alloc.rs:1847-1856 | two live chunks never overlap, whatever their classes |
| SlabAllocator.FreeRecovers | src/compiler/rt/funcs/alloc.rs:2497-2521 | mask, payload offset and shift recover the slab and the bit of a live chunk, oversized classes included |
| SlabAllocator.TakeKeeps | src/compiler/rt/funcs/alloc.rs:1762-1860 | taking a chunk makes exactly one free chunk live and keeps bitmaps, counts and lists sound |
| SlabAllocator.FreeKeeps | src/compiler/rt/funcs/alloc.rs:2497-2551 | freeing makes exactly that chunk free and touches no other slab |
| SlabAllocator.FreeUndoesTake | src/compiler/rt/funcs/alloc.rs:2497-2551 | allocating and freeing leaves every bitmap, count and link as before |
| SlabAllocator.LinkKeeps | src/compiler/rt/funcs/alloc.rs:2327-2375 | a new slab at the head keeps every class list acyclic and doubly linked, slabs disjoint, and no chunk changes |
| SlabAllocator.Trimmed | src/compiler/rt/funcs/alloc.rs:1886-1940 | over-mapping by twice the size always leaves an aligned slab inside |
| SlabHeap.Allocator.WalkList | src/compiler/rt/funcs/alloc.rs:2232-2305 | the walk ends at the first listed slab of the class with room, or after finding every slab of the class full |
| SlabHeap.Allocator.Allocate | src/compiler/rt/funcs/alloc.rs:2200-2402 | the lowest free chunk of the class's current slab while that has room, else of the first listed slab with room, else of a new one, becomes live; its slab is current from then on and no other chunk changes; 0 only when mapping fails and the class is full |
| SlabHeap.Allocator.Free | src/compiler/rt/funcs/alloc.rs:2422-2551 | from the address alone, exactly the chunk's bit is set again |
| SlabHeap.Allocator.NewSlab | src/compiler/rt/funcs/alloc.rs:1869-2021 | an aligned slab is cut out of a mapping of twice its size, prefix and suffix given back exactly, all its chunks free, at the head of its class list |
| SlabRoute.ChunkStays | src/compiler/rt/funcs/alloc.rs:176-245 | a slab chunk holds header and payload, and however its visible end moves inside the chunk its free goes to the slabs |
| SlabRoute.MappingExact | src/compiler/rt/funcs/alloc.rs:968-1020 | in slab mode a mapping's free, by its visible size, unmaps if and only if that and a header exceed 16 MiB, and exactly the mapping if and only if moreover the end lies in the last page; the header as written does |
| SlabRoute.MappingIsNoSlab | src/compiler/rt/funcs/alloc.rs:2497-2521 | the free of a mapping routed to the slabs by a shortened end finds no slab |
| SlabRuns.ReachableGood | src/compiler/rt/funcs/alloc.rs:2200-2551 | after any run of allocations and frees the heap is sound and the live chunks are exactly the addresses handed out and not given back |
| SlabRuns.NextGood | src/compiler/rt/funcs/alloc.rs:2200-2551 | every step keeps that, and an allocation keeps every address that was held |
| SlabRuns.HeldApart | src/compiler/rt/funcs/alloc.rs:1847-1856 | in every reachable state the chunks behind any two held addresses are 16-aligned and disjoint, whatever their classes |
| SlabRuns.HeldFreeable | src/compiler/rt/funcs/alloc.rs:2497-2521 | in every reachable state a held address alone finds its slab and bit |
| BucketAllocator.BucketExact | src/compiler/rt/funcs/alloc.rs:135-153 | the bucket computed by leading zeros is the smallest that holds the size |
| BucketAllocator.PopKeeps | src/compiler/rt/funcs/alloc.rs:408-434 | popping a list hands out a free block big enough for the request and keeps all lists sound |
| BucketAllocator.BumpKeeps | src/compiler/rt/funcs/alloc.rs:486-527 | a bump allocation cuts a block off the unused heap, apart from all others |
| BucketAllocator.FreeKeeps | src/compiler/rt/funcs/alloc.rs:940-1050 | a freed block goes on one list, of a bucket not above its capacity, however its visible end was shortened |
| BucketAllocator.MapKeeps | src/compiler/rt/funcs/alloc.rs:791-828 | a huge block gets its own mapping, and its header as written routes the free to unmapping exactly that mapping |
| BucketAllocator.FreeMappedExact | src/compiler/rt/funcs/alloc.rs:934-1131 | for every visible end of a huge block: its free unmaps if and only if more than 16 MiB is visible, and exactly the mapping if and only if moreover the end lies in its last page; else the tail stays mapped, or the whole mapping goes on a list |
| BucketAllocator.FreeMappedKeeps | src/compiler/rt/funcs/alloc.rs:934-1050 | whatever the visible end, the heap stays sound: the mapping is on a list it is big enough for, or gone |
| BucketAllocator.TrimmedIsListed | src/compiler/rt/funcs/env.rs:129-170 | 16 MiB and one byte trimmed to 100 bytes: allocated by mapping, freed onto the list of bucket 3, nothing unmapped |
| BucketAllocator.TrimmedIsStranded | src/compiler/rt/funcs/env.rs:129-170 | 32 MiB trimmed to 16 MiB and one byte: the front is unmapped and 16 MiB stay mapped and lost |
| BucketAllocator.AdvisedSpares | src/compiler/rt/funcs/alloc.rs:1053-1117 | advised pages start behind the chain word and end inside the block; below two pages nothing is advised, else no whole page is kept back |
| BucketAllocator.ZeroedInside | src/compiler/rt/funcs/alloc.rs:436-470 | the zeroing loop's rounded-up limit stays inside the bucket's size |
| BucketAllocator.ReachableSound | src/compiler/rt/funcs/alloc.rs:52-1131 | in every reachable state, visible ends of small and huge blocks moved anywhere inside what was allocated, blocks, mappings, stranded tails and the unused heap are disjoint, lists are acyclic, no block is on two lists, and each is big enough for its list |
| BucketAllocator.BlocksDisjoint | src/compiler/rt/funcs/alloc.rs:486-540 | in every reachable state any two blocks, live or free, are apart from each other and from the unused heap |
| BucketHeap.Allocator.Allocate | src/compiler/rt/funcs/alloc.rs:117-830 | the head of the size's list whenever there is one, else the next 16-aligned block of the unused heap, else 0 with nothing changed; beyond the buckets a mapping of the fewest pages; each with the whole new state and a block nobody held |
| BucketHeap.Allocator.Trim | src/compiler/rt/funcs/env.rs:129-170 | the visible end of any block moves to the length asked for, small or huge, and nothing else changes |
| BucketHeap.Allocator.Free | src/compiler/rt/funcs/alloc.rs:886-1131 | by the distance of the header's two words alone: unmapped from the header to the visible end, or onto that size's list as its head and no longer live, with advice for exactly the whole pages behind the chain word and inside the size, none of them of another block or of the unused heap; small and huge headers, trimmed or not |
| ArenaSelf.Actor.CopyBytes | src/compiler/rt/funcs/alloc.rs:1305-1390 | passes if and only if neither range ends behind its fat pointer's end (the code tests nothing else), and then copies forward byte by byte, overlapping ranges included, and touches nothing else |
| ArenaSelf.ForwardMoves | src/compiler/rt/funcs/alloc.rs:1354-1382 | ranges that are apart, or overlap with the destination in front, arrive whole |
| ArenaSelf.ForwardRepeats | src/compiler/rt/funcs/alloc.rs:1354-1382 | a destination that starts behind the source's start gets the bytes between the two starts over and over |
| ArenaSelf.Actor.ArenaAlloc | src/compiler/rt/funcs/alloc.rs:1493-1547 | header and payload at the cursor when they fit, else a raw block; a whole fat pointer either way |
| ArenaSelf.Actor.Snapshot | src/compiler/pipeline/expr/change_state_expr.rs:219-244 | every pointer argument's bytes stand in the scratch block, all copies passing their checks |
| ArenaSelf.Actor.Restore | src/compiler/pipeline/expr/change_state_expr.rs:266-301 | every pointer argument gets its own whole copy, disjoint from all others and next in the arena while it fits there, all copies passing their checks |
| ArenaSelf.Actor.SelfCall | src/compiler/pipeline/expr/change_state_expr.rs:188-330 | across the arena reset each new variable is the old scalar or a fresh disjoint copy of the old bytes, aliased arguments and ones living in the arena included; the arena starts over at its base and holds the copies' headers and rounded sizes in turn and nothing else |
| Mphf.FxHashLoop | src/compiler/mphf/mod.rs:68-75 | the accumulating loop computes the byte hash |
| Mphf.BucketOrder | src/compiler/mphf/builder.rs:79-82 | the order in which buckets are settled: each once, larger ones first, equal ones by number |
| HashLaws.HashKeepsApart | src/compiler/mphf/mod.rs:56-66 | under one seed no two keys hash alike |
| HashLaws.OneByteSeen | src/compiler/mphf/mod.rs:68-75 | strings of one length that differ in exactly one byte never have the same byte hash |
| HashLaws.SlotSteps | src/compiler/mphf/mod.rs:46-54 | without a displacement a key goes to its hash modulo the size, and each further unit moves it one slot on, around the table |
| Mphf.TryDisplacement | src/compiler/mphf/builder.rs:97-116 | slots are returned if and only if the displacement causes no conflict |
| Mphf.SearchDisplacement | src/compiler/mphf/builder.rs:96-129 | the loop finds the least conflict-free displacement below 500 n, or nothing |
| Mphf.SettleBucket | src/compiler/mphf/builder.rs:85-124 | settling a bucket keeps all settled keys on used slots, all different |
| Mphf.AllSettled | src/compiler/mphf/builder.rs:130-138 | once all buckets are settled the lookup is a bijection from the keys to 0..n-1 |
| Mphf.PlacedPerfect | src/compiler/mphf/builder.rs:85-138 | placing the remaining buckets greedily beside settled ones ends in a perfect table |
| Mphf.AttemptPerfect | src/compiler/mphf/builder.rs:68-138 | whatever the seed and bucket count, a table found is perfect, and the keys were distinct |
| Mphf.TryBuild | src/compiler/mphf/builder.rs:68-138 | the loops over buckets compute the greedy placement, a table exactly when it exists, and a table is perfect |
| Mphf.Build | src/compiler/mphf/builder.rs:16-66 | nothing if and only if every seed of all four strategies fails; else a perfect table for distinct keys, from the first strategy in order that has one and the first seed in it |
| Mphf.RepeatedKeys | src/compiler/mphf/builder.rs:16-66 | repeated keys fail with every seed and bucket count |
| StrDispatch.FindBestPos | src/compiler/pipeline/expr/dispatch.rs:32-52 | the leftmost position with the most distinct guards |
| StrDispatch.Partition | src/compiler/pipeline/expr/dispatch.rs:190-214 | the split into guarded literals and unguarded branches, refusing a mix with other guards |
| StrDispatch.Emit | src/compiler/pipeline/expr/dispatch.rs:190-322 | mixed guards and missing strings are refused, and a missing hash exactly when the four strategies fail; otherwise, and only otherwise, the tables describe each literal at its lookup index |
| StrDispatch.Select | src/compiler/pipeline/expr/dispatch.rs:324-455 | the emitted loop computes the checked selection, with every read in bounds |
| StrDispatch.DispatchIsScan | src/compiler/pipeline/expr/dispatch.rs:190-455 | for every argument string, the selection is the linear scan: the branch whose literal equals it, else the last unguarded branch or the first one |
| StrDispatch.ScanPicks | src/compiler/pipeline/expr/dispatch.rs:190-455 | that scan, by quantifiers: the first branch whose literal is the argument, else the last one with no guard there, else the first |
| StrDispatch.SwitchPicks | src/compiler/pipeline/expr/dispatch.rs:116-156 | the switch, by quantifiers: the first branch whose first guard is the word, else the last one whose first guard is no number, else the first |
| StrDispatch.KindIsFirst | src/compiler/pipeline/expr/dispatch.rs:62-72 | strings are dispatched as strings if and only if the first candidate guarded at the best position has a string there |
| StrDispatch.IntSelect | src/compiler/pipeline/expr/dispatch.rs:116-156 | the switch over first guards goes to the branch of that number, else the last branch not guarded by one, else the first; refused exactly when a number repeats |
| StrDispatch.IntIsScan | src/compiler/pipeline/expr/dispatch.rs:116-156 | with guards at one position only, that is a linear scan of the position |
| StrDispatch.Dispatch | src/compiler/pipeline/expr/dispatch.rs:62-101 | end to end, by quantifiers over the guards: if the first candidate guarded at the best position has a string there, the branch the argument's bytes pick, and nothing exactly when tables cannot be emitted; with a number there or nobody guarded, the branch the word picks, and nothing exactly when a number repeats |
| Decimal.DigitsRead | src/compiler/rt/funcs/strings.rs:353-382 | the digits of a natural number read back as it and have no leading zero |
| Decimal.TextExact | src/compiler/rt/funcs/strings.rs:297-406 | the visible text reads back as the number if and only if it is not the smallest i64 |
| Decimal.ToString | src/compiler/rt/funcs/strings.rs:136-253 | the loop ends, all writes stay in the 31- or 32-byte buffer, and the visible bytes are the text |

## Left out

- The frontend, linker, command line and Cranelift itself: a switch goes to the registered block or to the default.
- `wait` inside the compiled-body model: the mailbox visit is modelled in Mailbox, single handlers only; with several handlers one body runs on into the next.
- `self` as a value, `let` without an initialiser, and string `when` (it compares hashes only).
- The choice of branch by `self(...)` is an arbitrary function of the words in the compiler model; StrDispatch models how string guards make it.
- Traps inside runtime functions: an action's outcome is the world's reply. A bare `rt_load_*` statement in an unrolled arm is bounds-checked there and not in the plain compilation; the model takes loads in range.
- UnrollCorrect.UnrolledRunCorrect: takes a bare `when` body; a body wrapped in the synthetic caller send is not modelled, because the exit arm then omits that send. Arena resets between iterations, which the unrolled loop skips, are outside its memory model.
- Unroll.DropRestores: asks that arm names shadow no parameter, because otherwise the next copy cannot be emitted.
- Slices.ExecCtx.RunSlice: the clock is an arbitrary answer per check; checks that a fast path skips are answers of "not over budget". A parking call never marks its actor for death.
- ActorSystem.ReachableInv: asks for room for one more pid (32-bit slot and generation), for at most 255 pending words per mailbox, and takes a completion as the wake-up of one parked actor. Capacity of the parked list and of the run queue at I/O wake-up is a condition of Scheduler.Sched.ParkCurrent and Scheduler.Sched.WakeParked, because the code does not check it.
- Unconditional fairness: actors that keep sending to each other, or keep parking, can hold off a third one.
- Empty-slab reclaim (disabled in the code), failing mappings on the huge route (the code does not check them), the contents that zeroing writes, and tuple wrapping by `rt_allocate`.
- SlabHeap.Allocator.Allocate: the slab headers are records by base address rather than bytes; that bitmap words and payload never overlap is SlabLayout.Geometry.
- BucketAllocator.FreeKeeps and BucketAllocator.FreeMappedKeeps: ask that a freed header's start has not moved and its end lies within what was allocated, as arena owners restore it before freeing; `buf_trim` itself does not check its length.
- StrDispatch.IntSelect: takes each branch's first guard, whatever its position, as the code does; that it is a scan is proved for guards at one position only. The switch builder's own refusal of negative entries is not modelled.
- ArenaSelf.Actor.CopyBytes: addresses do not wrap at 2^64, and a negative offset is not refused, as in the code.
- Rebinding.HarmlessShadowing: the outer value of a re-bound name must not be read inside the arms either, because arms compiled later already see the earlier arm's slot.
- Runtime.ParkSlice and Runtime.CompleteIo ask for room in the parked list and in the run queue, which the code does not check.
- ArenaSelf.Actor.SelfCall: allocation succeeds, raw blocks overlap nothing live, and only the top-level bytes are copied; pointers inside records are not followed. Freeing the scratch block is not modelled.
- Mphf.TryBuild: sizes with n * 500 within 2^32, so that displacements fit their 32-bit entries; additions are modulo 2^64.
- io_uring rings, sockets, syscalls, the type-hash registry, and the TSC.
