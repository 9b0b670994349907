# MiniC compiler core in Dafny

This project models the core of the MiniC compiler. MiniC is a small C subset. The compiler lowers a function's syntax tree to a linear IR and gives every IR variable a slot in the function's stack frame. Its ARM32 back end then translates each IR instruction to assembly. It does that with a small register allocator and an instruction emitter. The modelled parts are:

- **RegAlloc** (`backend/arm32/SimpleRegisterAllocator.cpp`): the register bitmap, the "ever used" bitmap and the queue of values holding registers. The transitions `Allocate`, `free`, `bitmapSet` and eviction are functions over the allocator's state. The class `RegAlloc.Allocator` performs them with the source's loops and is proved to move its state as those functions say. Each transition keeps the binding invariant: every queued value holds a distinct occupied register. A register can also be occupied with no value holding it, as a scratch register claimed by `ForceAllocate` is.
- **ArmCode** (`backend/arm32/ILocArm32.cpp`): the instruction records, with `replace`, `setDead` and the operand-text helpers. The class `ArmCode.ILoc` is the emitter. Each of its helpers is proved to append exactly the records a `...Code` function gives. Examples are `load_imm`, `load_var`, `store_var`, `allocStack`, the array address helpers and `deleteUnusedLabel`.
- **ArmSem**, **ArmArrays** and **ArmVars**: a small machine semantics for straight-line ARM records, and what the emit helpers compute when their records run: the value a register ends up holding, the word written to memory, and the address formed. `ArmSem` covers `load_imm`, `load_symbol`, `mov_reg`, `load_base`, `store_base` and `leaStack`. `ArmArrays` covers `calc_array_addr`, `calc_multi_array_addr`, `load_array_dynamic` and `store_array_dynamic`. `ArmVars` covers `load_var` and `store_var`, and proves that a load after a store of the same variable reads back the stored register.
- **InstSelector** (`backend/arm32/InstSelectorArm32.cpp`): one rule per IR opcode. Each rule is a function of the allocator's state. It gives the records appended and the next state, or `None` where the source would take the front of an empty queue. The class `InstSelector.Selector` runs the rules over the allocator and emitter objects.
- **Frame** (`ir/Function.cpp`, `ir/Function.h`): the IR function record. It holds the loop labels, the argument counters and the frame depth. It also computes the layout that gives every local and memory variable an fp-relative slot, checks that no two slots coincide, and numbers the values and labels for printing.
- **IRGen**, **IRGenProps** and **IRGenExec** (`ir/Generator/IRGenerator.cpp`): the lowering of statements and expressions to IR. It is a family of functions threading a generator state. The properties cover label discipline (every label defined once, every jump to a defined label), the failure conditions of each handler, and what the address code of an array access computes.

Two behaviours of the source are stated as they are written. `k && m` and `k || m` store the right operand's own value in the result, not its truth value (`IRGenProps.AndYieldsRightValue`). Arrays of three or more dimensions are indexed with strides that are not row-major (`IRGenExec.AccessThreeDimensionalNotRowMajor`); this one is a defect and is listed under Findings. The stack-frame and register conventions of `PlatformArm32` are defined in `ArmCode`, as section A8.8 of the ARMv7-A/R Architecture Reference Manual describes the encodings.

## Model

| member | source | states |
|---|---|---|
| RegAlloc.IsTempVariable | backend/arm32/SimpleRegisterAllocator.cpp:430-464 | a null value is never a temporary; a value is one only through the name tests |
| RegAlloc.IsTempNameIff | backend/arm32/SimpleRegisterAllocator.cpp:443-464 | the classifier is exactly: empty name, or first letter `t`, or `l` followed by digits whose value exceeds 5, or containing `tmp` (a digit run never contains `tmp`) |
| RegAlloc.IsTempNameExamples | backend/arm32/SimpleRegisterAllocator.cpp:437-462 | `l5` is not a temporary, `l6` and `l12` are; `t1`, the empty name and `xtmp` are; `_t` is not |
| RegAlloc.TierOneNames | backend/arm32/SimpleRegisterAllocator.cpp:184 | the first tiers' test "temporary and (empty or starts with `t`)" is equivalent to its second half alone |
| RegAlloc.IndexOf | backend/arm32/SimpleRegisterAllocator.cpp:111 | `std::find` yields the first position holding the value |
| RegAlloc.OwnerIndex | backend/arm32/SimpleRegisterAllocator.cpp:137-139 | `std::find_if` yields the first queued value holding register `no`, and -1 exactly when none does |
| RegAlloc.FirstFree | backend/arm32/SimpleRegisterAllocator.cpp:49-55 | the scan yields the lowest clear register in the range, and -1 exactly when all are occupied |
| RegAlloc.FreeCountOccupy | backend/arm32/SimpleRegisterAllocator.cpp:159-163 | occupying a free register lowers the number of free registers by exactly one |
| RegAlloc.FreeCountPositive | backend/arm32/SimpleRegisterAllocator.cpp:367-379 | the available count is positive exactly when some register is free |
| RegAlloc.EmptyState | backend/arm32/SimpleRegisterAllocator.cpp:24-27 | a new allocator satisfies the binding invariant with all `n` registers free |
| RegAlloc.OccupyKeepsInv | backend/arm32/SimpleRegisterAllocator.cpp:159-163 | `bitmapSet` keeps the binding invariant |
| RegAlloc.UnbindAt | backend/arm32/SimpleRegisterAllocator.cpp:143-151 | dropping a queue entry with its load register and temporary records keeps the invariant |
| RegAlloc.FreeValueSpec | backend/arm32/SimpleRegisterAllocator.cpp:106-120 | `free(var)` keeps the binding invariant |
| RegAlloc.FreeRegSpec | backend/arm32/SimpleRegisterAllocator.cpp:126-153 | `free(no)` keeps the binding invariant |
| RegAlloc.FreeValueEffect | backend/arm32/SimpleRegisterAllocator.cpp:106-120 | freeing a bound value clears exactly its bit, unbinds and dequeues it, erases its priority and name records, and leaves the used bitmap alone |
| RegAlloc.FreeNoOps | backend/arm32/SimpleRegisterAllocator.cpp:106-131 | `free` of a null or unbound value and `free(-1)` change nothing |
| RegAlloc.FreeRegEffect | backend/arm32/SimpleRegisterAllocator.cpp:126-153 | `free(no)` clears bit `no`, unbinds the values holding `no` and nothing else, and keeps the used bitmap |
| RegAlloc.OwnersOfOwnerIndex | backend/arm32/SimpleRegisterAllocator.cpp:137-143 | the value `find_if` finds is the only value holding the register |
| RegAlloc.UnbindAtQueue | backend/arm32/SimpleRegisterAllocator.cpp:151 | erasing a queue entry removes exactly that value, the others kept in order |
| RegAlloc.FreeRegDequeues | backend/arm32/SimpleRegisterAllocator.cpp:126-153 | `free(no)` takes the register's owner out of the queue and keeps the rest in order |
| RegAlloc.ScratchRegisterNeedsFreeReg | backend/arm32/SimpleRegisterAllocator.cpp:106-153 | a register taken without a value stays occupied through any `free(var)` and is released by `free(no)` |
| RegAlloc.AllocateSpec | backend/arm32/SimpleRegisterAllocator.cpp:34-84 | `Allocate(var, no)` keeps the invariant and returns a register in range |
| RegAlloc.ChooseRegister | backend/arm32/SimpleRegisterAllocator.cpp:41-56 | the requested register if free, else the lowest free one; -1 exactly when all are occupied |
| RegAlloc.BindUnowned | backend/arm32/SimpleRegisterAllocator.cpp:65-81 | binding a value to an occupied register nobody holds keeps the invariant |
| RegAlloc.OccupyFree | backend/arm32/SimpleRegisterAllocator.cpp:58-81 | occupying a free register and binding the value to it keeps the invariant |
| RegAlloc.EvictOldest | backend/arm32/SimpleRegisterAllocator.cpp:62-81 | handing the queue front's register to the value keeps the invariant and yields a register in range |
| RegAlloc.AllocateIdempotent | backend/arm32/SimpleRegisterAllocator.cpp:36-39 | a value that already holds a register gets it back and nothing changes |
| RegAlloc.AllocateTakesFree | backend/arm32/SimpleRegisterAllocator.cpp:41-83 | with a free register: the requested one if free, else the lowest free one; it becomes occupied and used, the value is bound at the back of the queue, and one free register fewer remains |
| RegAlloc.AllocateEvictsOldest | backend/arm32/SimpleRegisterAllocator.cpp:62-81 | with every register occupied: the oldest queued value loses its register to the new one and leaves the queue; the bitmaps do not change |
| RegAlloc.AllocateKeepsOrder | backend/arm32/SimpleRegisterAllocator.cpp:34-84 | the queue stays in allocation order: at most the front leaves and a new value goes last |
| RegAlloc.ForceAllocateSpec | backend/arm32/SimpleRegisterAllocator.cpp:90-100 | the forced `Allocate(no)` keeps the invariant |
| RegAlloc.ForceAllocateEffect | backend/arm32/SimpleRegisterAllocator.cpp:90-100 | after the forced claim `no` is occupied and used, no value holds it, and no other register's bit changes |
| RegAlloc.FreeKeepsUsed | backend/arm32/SimpleRegisterAllocator.cpp:106-153 | neither `free` clears a bit of the used bitmap |
| RegAlloc.AllocateGrowsUsed | backend/arm32/SimpleRegisterAllocator.cpp:34-84 | allocation only adds bits to the used bitmap |
| RegAlloc.ForceAllocateGrowsUsed | backend/arm32/SimpleRegisterAllocator.cpp:90-100 | the forced claim only adds bits to the used bitmap |
| RegAlloc.LastUse | backend/arm32/SimpleRegisterAllocator.cpp:265-275 | the last instruction using a value as an operand (reference definition for the lifetime table) |
| RegAlloc.FirstTouch | backend/arm32/SimpleRegisterAllocator.cpp:253-276 | the first instruction defining or using a value (reference definition for the lifetime table) |
| RegAlloc.LifetimeTableSpec | backend/arm32/SimpleRegisterAllocator.cpp:248-278 | a value is recorded iff some instruction touches it; its start is its defining index if first met as a result and 0 if first met as an operand; its end is its last use, or its definition when never used |
| RegAlloc.UsedLaterBoundary | backend/arm32/SimpleRegisterAllocator.cpp:286-293 | a value is dead at its recorded last use and live one instruction before |
| RegAlloc.FreeAll | backend/arm32/SimpleRegisterAllocator.cpp:313-316 | freeing a list of values one by one keeps the invariant |
| RegAlloc.FreeValueUnbinds | backend/arm32/SimpleRegisterAllocator.cpp:106-120 | bound or not, a freed value holds no register afterwards and the used bitmap is unchanged |
| RegAlloc.FreeAllBindings | backend/arm32/SimpleRegisterAllocator.cpp:313-316 | freeing a list unbinds exactly the listed values |
| RegAlloc.FreeAllQueue | backend/arm32/SimpleRegisterAllocator.cpp:313-316 | freeing a list removes exactly the listed values from the queue, the rest in order |
| RegAlloc.ToReleaseMembers | backend/arm32/SimpleRegisterAllocator.cpp:306-310 | the release list holds exactly the queued temporaries not used after the index |
| RegAlloc.ReleaseSpec | backend/arm32/SimpleRegisterAllocator.cpp:300-319 | `releaseUnusedTempVars` keeps the invariant |
| RegAlloc.ReleaseFreesExactly | backend/arm32/SimpleRegisterAllocator.cpp:300-319 | exactly the queued temporaries not used later lose their registers; every other value keeps its register and queue place; the count returned is the number removed |
| RegAlloc.ReleaseKeepsUnbound | backend/arm32/SimpleRegisterAllocator.cpp:300-319 | release binds no new value |
| RegAlloc.VictimScan | backend/arm32/SimpleRegisterAllocator.cpp:334-352 | the scan's victim index and the rank it recorded agree |
| RegAlloc.VictimScanSpec | backend/arm32/SimpleRegisterAllocator.cpp:329-352 | the victim is the first queued value of highest rank above both `priority` and 0; there is none iff no value ranks that high |
| RegAlloc.EvictSpec | backend/arm32/SimpleRegisterAllocator.cpp:327-361 | `evictForTemp` keeps the invariant; -1 leaves the state as it was; otherwise the returned register is in range and free |
| RegAlloc.InsertByRank | backend/arm32/SimpleRegisterAllocator.cpp:405-411 | inserting into the sorted candidates keeps the same elements plus the new one |
| RegAlloc.InsertByRankSorted | backend/arm32/SimpleRegisterAllocator.cpp:405-411 | insertion keeps the list in descending priority number |
| RegAlloc.SortByRank | backend/arm32/SimpleRegisterAllocator.cpp:405-411 | the sort is a permutation of the candidates |
| RegAlloc.SortByRankSorted | backend/arm32/SimpleRegisterAllocator.cpp:405-411 | the sort puts larger priority numbers first |
| RegAlloc.CandidatesMembers | backend/arm32/SimpleRegisterAllocator.cpp:392-402 | the candidates are exactly the queued temporaries whose priority number is at most `urgency` |
| RegAlloc.FreedCount | backend/arm32/SimpleRegisterAllocator.cpp:414-420 | the loop frees at most all candidates and at least one when there is one |
| RegAlloc.SmartFreeSpec | backend/arm32/SimpleRegisterAllocator.cpp:386-423 | `smartFreeByLifetime` keeps the invariant |
| RegAlloc.SmartFreeChoosesHighestRanks | backend/arm32/SimpleRegisterAllocator.cpp:386-423 | only candidates are freed, as many as the loop frees, and no kept candidate has a larger priority number than a freed one |
| RegAlloc.BindTemp | backend/arm32/SimpleRegisterAllocator.cpp:186-233 | binding a temporary to a free register with its records keeps the invariant |
| RegAlloc.DynamicAllocateSpec | backend/arm32/SimpleRegisterAllocator.cpp:171-242 | `dynamicAllocateTemp` keeps the invariant and returns -1 or a register in range |
| RegAlloc.ReleaseTier | backend/arm32/SimpleRegisterAllocator.cpp:220-241 | the release-then-retry tier keeps the invariant and returns -1 or a register in range |
| RegAlloc.DynamicAllocateTierOne | backend/arm32/SimpleRegisterAllocator.cpp:184-200 | a `t`/unnamed temporary with r0-r3 not all taken gets the lowest free of r0-r3 with priority 1 |
| RegAlloc.DynamicAllocateTierTwo | backend/arm32/SimpleRegisterAllocator.cpp:202-216 | with r0-r3 taken it gets the lowest free of r4-r7 with priority 2 |
| RegAlloc.DynamicAllocateDefaultIndex | backend/arm32/SimpleRegisterAllocator.cpp:219-241 | with index -1 and the first tiers not applying, the result is exactly `evictForTemp(v, 3)` |
| RegAlloc.EvictDoesNotBind | backend/arm32/SimpleRegisterAllocator.cpp:354-360 | eviction frees a register but leaves the requesting value unbound (as written) |
| RegAlloc.Allocator.constructor | backend/arm32/SimpleRegisterAllocator.cpp:24-27 | a new allocator: valid, everything free, counters zero, no lifetimes |
| RegAlloc.Allocator.BitmapSet | backend/arm32/SimpleRegisterAllocator.cpp:159-163 | sets the register's bit in both bitmaps |
| RegAlloc.Allocator.FindFree | backend/arm32/SimpleRegisterAllocator.cpp:49-55 | the scanning loop returns the lowest free register of the range, or -1 |
| RegAlloc.Allocator.Allocate | backend/arm32/SimpleRegisterAllocator.cpp:34-84 | the new state and register are those of `AllocateSpec`, and the object stays valid |
| RegAlloc.Allocator.ForceAllocate | backend/arm32/SimpleRegisterAllocator.cpp:90-100 | the new state is that of `ForceAllocateSpec` |
| RegAlloc.Allocator.Unbind | backend/arm32/SimpleRegisterAllocator.cpp:143-151 | the new state is that of `UnbindAt` |
| RegAlloc.Allocator.FreeValue | backend/arm32/SimpleRegisterAllocator.cpp:106-120 | the new state is that of `FreeValueSpec` |
| RegAlloc.Allocator.FreeReg | backend/arm32/SimpleRegisterAllocator.cpp:126-153 | the new state is that of `FreeRegSpec` |
| RegAlloc.Allocator.SetCurrentInstructionIndex | backend/arm32/SimpleRegisterAllocator.h:91 | stores the index |
| RegAlloc.Allocator.GetAvailableRegCount | backend/arm32/SimpleRegisterAllocator.cpp:367-379 | the count of free registers; zero exactly when all are occupied |
| RegAlloc.Allocator.AnalyzeVariableLifetime | backend/arm32/SimpleRegisterAllocator.cpp:248-278 | the table built by the loops is `LifetimeTable`, whose meaning `LifetimeTableSpec` states |
| RegAlloc.Allocator.ReleaseUnusedTempVars | backend/arm32/SimpleRegisterAllocator.cpp:300-319 | the new state and count are those of `ReleaseSpec` |
| RegAlloc.Allocator.FindVictim | backend/arm32/SimpleRegisterAllocator.cpp:329-352 | the loop's victim, register and rank are those of `VictimScan` |
| RegAlloc.Allocator.EvictForTemp | backend/arm32/SimpleRegisterAllocator.cpp:327-361 | the new state and register are those of `EvictSpec` |
| RegAlloc.Allocator.CollectCandidates | backend/arm32/SimpleRegisterAllocator.cpp:389-402 | the collected list is `Candidates` |
| RegAlloc.Allocator.FreeFirst | backend/arm32/SimpleRegisterAllocator.cpp:413-420 | frees the first `FreedCount` values in order |
| RegAlloc.Allocator.SmartFreeByLifetime | backend/arm32/SimpleRegisterAllocator.cpp:386-423 | the new state and count are those of `SmartFreeSpec` |
| RegAlloc.Allocator.Claim | backend/arm32/SimpleRegisterAllocator.cpp:186-233 | the new state is that of `BindTemp` |
| RegAlloc.Allocator.DynamicAllocateTemp | backend/arm32/SimpleRegisterAllocator.cpp:171-242 | the new state and register are those of `DynamicAllocateSpec` |
| RegAlloc.Allocator.ReleaseAndClaim | backend/arm32/SimpleRegisterAllocator.cpp:220-241 | the new state and register are those of `ReleaseTier` |
| ArmCode.RegName | backend/arm32/ILocArm32.cpp:287-288 | a register name (`PlatformArm32::regName[k]`) is two or three characters long, has no comma, and starts with neither `#` nor `[`; it starts with `r` exactly for r0 to r10 |
| ArmCode.RegNameInjective | backend/arm32/ILocArm32.cpp:287-288 | two different register numbers never print as the same name |
| ArmCode.Trunc32 | backend/arm32/ILocArm32.cpp:388-394 | passing the 64-bit offset to an `int` parameter keeps its 32-bit pattern |
| ArmCode.NewInst | backend/arm32/ILocArm32.cpp:25-32 | a new record is not dead |
| ArmCode.Replace | backend/arm32/ILocArm32.cpp:37-57 | `replace` overwrites all six text fields with the arguments and leaves the dead flag as it was |
| ArmCode.SetDead | backend/arm32/ILocArm32.cpp:62-65 | `setDead` sets the dead flag and changes nothing else |
| ArmCode.OutPut | backend/arm32/ILocArm32.cpp:70-113 | the rendering is empty exactly when the record is dead or has no opcode; otherwise it starts with the opcode followed by the condition |
| ArmCode.LabelRendersWithColon | backend/arm32/ILocArm32.cpp:89-95 | a label record renders as its name directly followed by `:` |
| ArmCode.ThreeOperandRendering | backend/arm32/ILocArm32.cpp:82-105 | a three-operand record renders as `op rd,ra,rb` |
| ArmCode.ReplaceKeepsDeadSilent | backend/arm32/ILocArm32.cpp:37-57 | replacing the fields of a dead record does not revive it: it still renders as nothing |
| ArmCode.OutputLine | backend/arm32/ILocArm32.cpp:166-184 | a label record is always printed, without a tab; any other record that renders as nothing is printed (as a blank line) exactly when `outputEmpty` is set |
| ArmCode.DeadLabelPrintsBlankLine | backend/arm32/ILocArm32.cpp:166-184 | a dead label record still prints a blank line, whatever `outputEmpty` says |
| ArmCode.ToStr | backend/arm32/ILocArm32.cpp:196-207 | the text starts with `#` exactly when the immediate flag is set, followed by the decimal digits of the number |
| ArmCode.LoadImmCode | backend/arm32/ILocArm32.cpp:256-268 | `load_imm` is one `movw` exactly when the upper half of the 32-bit constant is zero, otherwise `movw` followed by `movt` |
| ArmCode.LoadBaseCode | backend/arm32/ILocArm32.cpp:285-311 | `load_base` is a single `ldr` exactly when the offset is a valid displacement; it always ends with the `ldr` |
| ArmCode.StoreBaseCode | backend/arm32/ILocArm32.cpp:318-346 | `store_base` is a single `str` exactly when the offset is a valid displacement; it always ends with the `str` |
| ArmCode.LeaStackCode | backend/arm32/ILocArm32.cpp:481-496 | `leaStack` always ends with the `add` that forms the address |
| ArmCode.StoreVarWithoutLocationEmitsComments | backend/arm32/ILocArm32.cpp:458-474 | storing to a value that has no register, is not global and has no valid stack address emits only comments: the store is silently skipped |
| ArmCode.FrameBytesBounds | backend/arm32/ILocArm32.cpp:501-541 | the frame `allocStack` reserves is a multiple of 16, at least 32 bytes, and covers the counted locals plus the 32 spill bytes with less than 16 bytes of padding; so its `size == 0` branch is dead |
| ArmCode.VarComments | backend/arm32/ILocArm32.cpp:511-527 | `allocStack` writes one comment per local |
| ArmCode.NopCode | backend/arm32/ILocArm32.cpp:566-570 | `nop` emits one record, which renders as nothing |
| ArmCode.MultiArrayTwoDimensional | backend/arm32/ILocArm32.cpp:642-662 | for two indices the loop of `calc_multi_array_addr` computes `i0 * d1 + i1`, the row-major linear index |
| ArmCode.MultiArrayThreeDimensionalNotRowMajor | backend/arm32/ILocArm32.cpp:642-662 | from three dimensions on the loop multiplies the running index by the whole product of the later dimensions at every step: index (1,0,0) of a 2x2x2 array lands on 8 instead of the row-major 4 |
| ArmCode.CorrectedLinearIsRowMajor | backend/arm32/ILocArm32.cpp:640-662 | with the next dimension as the multiplier of each step, the first `k + 1` steps of the loop give the row-major index of the first `k + 1` indices |
| ArmCode.CorrectedMultiArrayIsRowMajor | backend/arm32/ILocArm32.cpp:640-662 | with those multipliers a full index list gives the row-major index, the offset the comment of `calc_multi_array_addr` describes, for any number of dimensions |
| ArmCode.CorrectedAgreesOnTwoDimensions | backend/arm32/ILocArm32.cpp:640-662 | for two dimensions the corrected loop and the loop as written compute the same index |
| ArmCode.LoadArrayStaticCode | backend/arm32/ILocArm32.cpp:720-738 | `load_array_static` uses the immediate offset form (two records) exactly when the offset lies in -4095..4095 |
| ArmCode.StoreArrayStaticCode | backend/arm32/ILocArm32.cpp:741-759 | `store_array_static` uses the immediate offset form (two records) exactly when the offset lies in -4095..4095 |
| ArmCode.PruneLabels | backend/arm32/ILocArm32.cpp:135-161 | `deleteUnusedLabel` keeps the number of records |
| ArmCode.PruneOnlyKills | backend/arm32/ILocArm32.cpp:135-161 | pruning changes only dead flags, only from clear to set, and only on live label records |
| ArmCode.PruneKeepsTargets | backend/arm32/ILocArm32.cpp:146-155 | after pruning, the labels some live branch names are the same as before |
| ArmCode.PruneKeepsJumpTarget | backend/arm32/ILocArm32.cpp:146-159 | a label named by a live `b` record stays live |
| ArmCode.PruneIdempotent | backend/arm32/ILocArm32.cpp:135-161 | pruning an already pruned code changes nothing |
| ArmCode.ComputeMultiplier | backend/arm32/ILocArm32.cpp:648-651 | the inner loop computes the product of the dimensions after `i` (1 when there are none) |
| ArmCode.ILoc.constructor | backend/arm32/ILocArm32.cpp:119-122 | a new emitter holds no records |
| ArmCode.ILoc.Emit | backend/arm32/ILocArm32.cpp:115 | the `emit` macro appends exactly one record |
| ArmCode.ILoc.Emit2 | backend/arm32/ILocArm32.cpp:115 | two emits append the two records in order |
| ArmCode.ILoc.Label | backend/arm32/ILocArm32.cpp:212-216 | appends the label record `name:` |
| ArmCode.ILoc.Instr | backend/arm32/ILocArm32.cpp:221-243 | the three `inst` overloads append one record with the given opcode and operands |
| ArmCode.ILoc.Comment | backend/arm32/ILocArm32.cpp:248-251 | appends an `@` comment record |
| ArmCode.ILoc.LoadImm | backend/arm32/ILocArm32.cpp:256-268 | appends the `load_imm` code, whose meaning `ArmSem.LoadImmComputes` gives |
| ArmCode.ILoc.LoadSymbol | backend/arm32/ILocArm32.cpp:273-279 | appends the `movw`/`movt` pair for the symbol |
| ArmCode.ILoc.LoadBase | backend/arm32/ILocArm32.cpp:285-311 | appends the `load_base` code |
| ArmCode.ILoc.StoreBase | backend/arm32/ILocArm32.cpp:318-346 | appends the `store_base` code |
| ArmCode.ILoc.MovReg | backend/arm32/ILocArm32.cpp:351-354 | appends the `mov` record |
| ArmCode.ILoc.LoadVar | backend/arm32/ILocArm32.cpp:359-401 | appends the `load_var` code for a constant, a load register, a register, a global or a stack slot, in that order of preference |
| ArmCode.ILoc.LeaVar | backend/arm32/ILocArm32.cpp:406-434 | appends the address of a global symbol, or of a stack slot |
| ArmCode.ILoc.StoreVar | backend/arm32/ILocArm32.cpp:440-475 | appends the `store_var` code for a load register, a register, a global or a stack slot, and only comments otherwise |
| ArmCode.ILoc.LeaStack | backend/arm32/ILocArm32.cpp:481-496 | appends the `leaStack` code |
| ArmCode.ILoc.AllocStack | backend/arm32/ILocArm32.cpp:501-555 | appends the whole `allocStack` code for the function's locals |
| ArmCode.ILoc.CountLocals | backend/arm32/ILocArm32.cpp:511-527 | the size loop returns the bytes of the counted locals and appends one comment per local |
| ArmCode.ILoc.Reserve | backend/arm32/ILocArm32.cpp:529-554 | appends the frame set-up once the size is known |
| ArmCode.ILoc.SubSp | backend/arm32/ILocArm32.cpp:546-551 | appends the stack-pointer adjustment, through the scratch register when the size is not an immediate |
| ArmCode.ILoc.CallFun | backend/arm32/ILocArm32.cpp:559-563 | appends `bl name` |
| ArmCode.ILoc.Nop | backend/arm32/ILocArm32.cpp:566-570 | appends the empty record |
| ArmCode.ILoc.Jump | backend/arm32/ILocArm32.cpp:576-579 | appends `b label` |
| ArmCode.ILoc.CalcArrayAddr | backend/arm32/ILocArm32.cpp:587-614 | appends the one-dimensional address code |
| ArmCode.ILoc.CalcMultiArrayAddr | backend/arm32/ILocArm32.cpp:624-678 | appends the multi-dimensional address code: the first index, the loop steps, the scaling and the base |
| ArmCode.ILoc.MultiSteps | backend/arm32/ILocArm32.cpp:646-662 | the outer loop appends one step for every index but the last |
| ArmCode.ILoc.MultiStep | backend/arm32/ILocArm32.cpp:647-661 | one pass appends the multiplier, the `mul` and the `add` of the next index |
| ArmCode.ILoc.Scale | backend/arm32/ILocArm32.cpp:664-674 | appends the scaling by the element size |
| ArmCode.ILoc.LoadArrayElement | backend/arm32/ILocArm32.cpp:683-691 | appends the `load_array_element` code |
| ArmCode.ILoc.StoreArrayElement | backend/arm32/ILocArm32.cpp:696-704 | appends the `store_array_element` code |
| ArmCode.ILoc.LslImm | backend/arm32/ILocArm32.cpp:710-717 | appends the `lsl` record |
| ArmCode.ILoc.LoadArrayStatic | backend/arm32/ILocArm32.cpp:720-738 | appends the `load_array_static` code |
| ArmCode.ILoc.StoreArrayStatic | backend/arm32/ILocArm32.cpp:741-759 | appends the `store_array_static` code |
| ArmCode.ILoc.LoadArrayDynamic | backend/arm32/ILocArm32.cpp:762-772 | appends the `load_array_dynamic` code |
| ArmCode.ILoc.StoreArrayDynamic | backend/arm32/ILocArm32.cpp:775-785 | appends the `store_array_dynamic` code |
| ArmCode.ILoc.DeleteUnusedLabel | backend/arm32/ILocArm32.cpp:135-161 | the two loops leave the code equal to its pruned form (`ArmCode.PruneLabels`) |
| ArmSem.LoadImmComputes | backend/arm32/ILocArm32.cpp:256-268 | whichever branch `load_imm` takes, running its code leaves the 32-bit pattern of the constant in the register and changes nothing else |
| ArmSem.LoadImmLow | backend/arm32/ILocArm32.cpp:260-262 | for a constant whose upper half is zero, the single `movw` loads the constant |
| ArmSem.LoadImmHigh | backend/arm32/ILocArm32.cpp:263-267 | otherwise `movw` of the low half followed by `movt` of the high half loads the whole word |
| ArmSem.LoadSymbolComputes | backend/arm32/ILocArm32.cpp:273-279 | `load_symbol` leaves the symbol's address in the register |
| ArmSem.MovRegComputes | backend/arm32/ILocArm32.cpp:351-354 | `mov_reg` copies the source register into the destination |
| ArmSem.LoadBaseComputes | backend/arm32/ILocArm32.cpp:285-311 | `load_base` loads the word at base plus offset (modulo 2^32), through the result register when the offset is not a displacement |
| ArmSem.StoreBaseComputes | backend/arm32/ILocArm32.cpp:318-346 | `store_base` stores the source register at base plus offset; a far offset is left in the scratch register, which must differ from base and source |
| ArmSem.LeaStackComputes | backend/arm32/ILocArm32.cpp:481-496 | `leaStack` computes base plus offset into the result register, in both branches |
| ArmSem.LeaStackThroughRegister | backend/arm32/ILocArm32.cpp:489-495 | when the offset is not an immediate, loading it into the result register and adding the base gives the same address |
| ArmSem.AddImmediate | backend/arm32/ILocArm32.cpp:486-488 | `add rs,b,#off` adds the offset to the base |
| ArmSem.CommentsInert | backend/arm32/ILocArm32.cpp:248-251 | comment records leave the machine unchanged |
| ArmSem.ParseIntToString | backend/arm32/ILocArm32.cpp:196-207 | the decimal text `toStr` writes reads back as the same integer |
| ArmSem.ImmediateOperand | backend/arm32/ILocArm32.cpp:196-207 | an immediate `#n` written by `toStr` denotes `n` |
| ArmSem.ShiftedOperand | backend/arm32/ILocArm32.cpp:600-607 | the operand `r, lsl #k` used by `calc_array_addr` denotes `r * 2^k` modulo 2^32 |
| ArmSem.AddressOfOperand | backend/arm32/ILocArm32.cpp:305-306 | a memory operand `[b]` names the content of `b`, and `[b,op]` the content of `b` plus the operand |
| ArmSem.ExecAppend | backend/arm32/ILocArm32.cpp:115 | running two appended pieces of code is running the first, then the second |
| ArmArrays.CalcArrayAddrComputes | backend/arm32/ILocArm32.cpp:587-614 | `calc_array_addr` leaves base plus index times element size (modulo 2^32) in the result register, for sizes 1, 4 and 8 through `lsl #2`/`#3` and for any other size through `tmp`, which then holds index times size; no other register changes |
| ArmArrays.MultiArrayAddrComputes | backend/arm32/ILocArm32.cpp:624-678 | `calc_multi_array_addr` leaves base plus the element size times the loop's linear index of the index registers' contents in the result register, and changes no register but the result and `tmp1` |
| ArmArrays.LoadArrayDynamicComputes | backend/arm32/ILocArm32.cpp:762-772 | `load_array_dynamic` loads the word at base plus offset into the result register and changes nothing else |
| ArmArrays.StoreArrayDynamicComputes | backend/arm32/ILocArm32.cpp:775-785 | `store_array_dynamic` stores the source at base plus offset and leaves that address in the offset register; with the source equal to the offset register, the address is what gets stored |
| ArmVars.LoadVarComputes | backend/arm32/ILocArm32.cpp:359-401 | `load_var` leaves the variable's value in the register (a constant, a register's content, a global array's address, a global scalar's word, a slot's word, or 0 with no location) and changes nothing else; a variable already in that register emits nothing |
| ArmVars.LoadGlobalComputes | backend/arm32/ILocArm32.cpp:376-385 | a global array loads its symbol's address and a global scalar the word at that address |
| ArmVars.StoreVarComputes | backend/arm32/ILocArm32.cpp:440-475 | `store_var` copies the source into the variable's register, stores it at a global's address (left in `tmp`) or in a frame slot, and changes nothing for a variable with no location |
| ArmVars.StoreGlobalComputes | backend/arm32/ILocArm32.cpp:454-457 | a store to a global leaves its address in `tmp` and stores the source there; with `tmp` equal to the source the address itself is stored |
| ArmVars.StoreVarKeepsValue | backend/arm32/ILocArm32.cpp:359-475 | after a store into a variable with a location, its value is the stored register's 32-bit content |
| ArmVars.StoreThenLoadVar | backend/arm32/ILocArm32.cpp:359-475 | `store_var` of a register followed by `load_var` of the same variable leaves that register's content in the load's register |
| InstSelector.AllocStep | backend/arm32/InstSelectorArm32.cpp:198 | an `Allocate` inside a rule succeeds exactly when the allocator's precondition holds, returns what the allocator specifies, keeps its invariant and yields a register below the register count |
| InstSelector.LoadRegInRange | backend/arm32/InstSelectorArm32.cpp:199 | the load register recorded for a value is one `regName` can be indexed with |
| InstSelector.CondGotoSpec | backend/arm32/InstSelectorArm32.cpp:191-211 | the conditional goto keeps the allocator's invariant |
| InstSelector.CondGotoReleases | backend/arm32/InstSelectorArm32.cpp:191-211 | the conditional goto frees the condition and ends with `cmp rC,#0`, `bne` to the true label and `b` to the false label |
| InstSelector.EntryPushesWhatExitPops | backend/arm32/InstSelectorArm32.cpp:220-266 | with protected registers, the entry's `push {list}` and the exit's `pop {list}` name the same list, which starts with the first protected register |
| InstSelector.CopySpec | backend/arm32/InstSelectorArm32.cpp:295-323 | the plain copy keeps the allocator's invariant |
| InstSelector.CopyNoNewBindings | backend/arm32/InstSelectorArm32.cpp:295-323 | a copy binds no value to a register: every register it takes is a scratch register it frees again |
| InstSelector.PlainMoveIsCopy | backend/arm32/InstSelectorArm32.cpp:270-293 | a copy whose printed form has no `*` is handled by the copy branch of `translate_assign` |
| InstSelector.AssignSpec | backend/arm32/InstSelectorArm32.cpp:270-324 | `translate_assign` keeps the allocator's invariant in each of its three branches |
| InstSelector.LoadPtrSpec | backend/arm32/InstSelectorArm32.cpp:743-767 | `res = *ptr` keeps the allocator's invariant |
| InstSelector.StorePtrSpec | backend/arm32/InstSelectorArm32.cpp:657-740 | `*ptr = val` keeps the allocator's invariant, also when it is skipped |
| InstSelector.AddPtrSpec | backend/arm32/InstSelectorArm32.cpp:579-614 | `translate_add_ptr` keeps the allocator's invariant |
| InstSelector.OperandLoad | backend/arm32/InstSelectorArm32.cpp:344-361 | an operand without a fixed register gets a register in range and the allocator keeps its invariant |
| InstSelector.ResultReg | backend/arm32/InstSelectorArm32.cpp:384-389 | the result's register is its fixed one or a freshly allocated one in range |
| InstSelector.FreeThree | backend/arm32/InstSelectorArm32.cpp:407-409 | the three frees keep the allocator's invariant |
| InstSelector.TwoOperatorSpec | backend/arm32/InstSelectorArm32.cpp:332-410 | the two-operand rule keeps the allocator's invariant |
| InstSelector.TwoOperatorReleases | backend/arm32/InstSelectorArm32.cpp:407-409 | after the two-operand rule neither operand nor the result holds a register |
| InstSelector.AllocBinds | backend/arm32/InstSelectorArm32.cpp:346 | `Allocate(v)` binds `v` to the register it returns |
| InstSelector.FreeGone | backend/arm32/InstSelectorArm32.cpp:407 | after `free(x)` the value `x` holds no register |
| InstSelector.FreeKeepsGone | backend/arm32/InstSelectorArm32.cpp:407-409 | `free(x)` binds nothing new |
| InstSelector.MulSpec | backend/arm32/InstSelectorArm32.cpp:427-485 | `translate_mul_int32` keeps the allocator's invariant |
| InstSelector.ShiftMatchesMul | backend/arm32/InstSelectorArm32.cpp:466-475 | for a power-of-two constant the emitted `mov` or `lsl` leaves the same machine as `mul` by the constant |
| InstSelector.PowerOfTwoIff | backend/arm32/InstSelectorArm32.cpp:488-491 | `isPowerOfTwo(v)` holds exactly when `v` is 2 to the number of halvings that bring it to 1 |
| InstSelector.ComputeShift | backend/arm32/InstSelectorArm32.cpp:447-452 | the halving loop counts the shift, and the constant is a power of two exactly when 2 to that shift gives it back |
| InstSelector.Slots | backend/arm32/InstSelectorArm32.cpp:519-527 | one slot per stack argument |
| InstSelector.StackSlotsLayout | backend/arm32/InstSelectorArm32.cpp:519-535 | the arguments after the fourth go to consecutive words from `[sp]` up, in argument order, into distinct fresh memory variables at distinct addresses |
| InstSelector.SlotCopy | backend/arm32/InstSelectorArm32.cpp:525-534 | copying one stack argument keeps the allocator's invariant |
| InstSelector.StackArgs | backend/arm32/InstSelectorArm32.cpp:520-535 | the stack-argument copies keep the allocator's invariant |
| InstSelector.RegCopy | backend/arm32/InstSelectorArm32.cpp:545-550 | copying an argument into its register keeps the allocator's invariant |
| InstSelector.RegArgs | backend/arm32/InstSelectorArm32.cpp:537-551 | the register-argument copies keep the allocator's invariant |
| InstSelector.ClaimArgRegs | backend/arm32/InstSelectorArm32.cpp:513-516 | the forced claims of r0 to r3 keep the allocator's invariant |
| InstSelector.ClaimArgRegsHolds | backend/arm32/InstSelectorArm32.cpp:513-516 | after the forced claims, r0 up to r(k-1) are occupied |
| InstSelector.ReleaseArgRegs | backend/arm32/InstSelectorArm32.cpp:557-560 | the frees of r0 to r3 keep the allocator's invariant |
| InstSelector.ReleasedRegsFree | backend/arm32/InstSelectorArm32.cpp:557-560 | after `free(0)` up to `free(k-1)` those registers are free |
| InstSelector.ReleaseArgRegsFrees | backend/arm32/InstSelectorArm32.cpp:556-561 | after a call with arguments r0 to r3 are free and nothing new is bound |
| InstSelector.ForceAllocateStep | backend/arm32/InstSelectorArm32.cpp:513 | a forced claim sets its own register's bit and no other |
| InstSelector.FreeRegStep | backend/arm32/InstSelectorArm32.cpp:557 | freeing a register clears its bit only and binds nothing new |
| InstSelector.RegPart | backend/arm32/InstSelectorArm32.cpp:537 | at most four arguments go to registers |
| InstSelector.MarshalSpec | backend/arm32/InstSelectorArm32.cpp:510-561 | the marshalling of a call keeps the allocator's invariant |
| InstSelector.CallSpec | backend/arm32/InstSelectorArm32.cpp:495-577 | `translate_call` keeps the allocator's invariant |
| InstSelector.HandlerSpec | backend/arm32/InstSelectorArm32.cpp:43-75 | every rule of the handler table keeps the allocator's invariant |
| InstSelector.TranslateSpec | backend/arm32/InstSelectorArm32.cpp:122-149 | `translate` keeps the allocator's invariant |
| InstSelector.RunSpec | backend/arm32/InstSelectorArm32.cpp:109-118 | `run` keeps the allocator's invariant |
| InstSelector.Live | backend/arm32/InstSelectorArm32.cpp:114 | the instructions `run` translates are the live ones, in order |
| InstSelector.RunSkipsDead | backend/arm32/InstSelectorArm32.cpp:109-118 | running the whole list is running its live part: dead instructions contribute nothing |
| InstSelector.NamesOf | backend/arm32/InstSelectorArm32.cpp:227-233 | the names of the protected registers, in order |
| InstSelector.TwoOperatorAsWrittenSkipsMemory | backend/arm32/InstSelectorArm32.cpp:344-404 | for two variable operands and a result with no fixed register, the rule as written emits only the operation: `Allocate(v)` records the register as `v`'s load register, so the following `load_var` and `store_var` see it bound and emit nothing |
| InstSelector.OperandLoadAsWrittenEmpty | backend/arm32/InstSelectorArm32.cpp:344-358 | a variable operand without a register is bound by `Allocate`, so its load emits nothing |
| InstSelector.ResultStoreAsWrittenEmpty | backend/arm32/InstSelectorArm32.cpp:384-404 | a result without a register is bound by `Allocate`, so its store emits nothing |
| InstSelector.BoundLoadsNothing | backend/arm32/ILocArm32.cpp:364-369 | a value whose load register is `rs` is not loaded into `rs` |
| InstSelector.BoundStoresNothing | backend/arm32/ILocArm32.cpp:443-447 | a value whose load register is `rs` is not stored from `rs` |
| InstSelector.CorrectedOperandLoad | backend/arm32/InstSelectorArm32.cpp:344-361 | the corrected operand load yields a register in range and keeps the allocator's invariant |
| InstSelector.CorrectedLoadOfConstant | backend/arm32/InstSelectorArm32.cpp:349-354 | the corrected load puts a constant's full 32-bit value in its register |
| InstSelector.CorrectedLoadOfFrameVariable | backend/arm32/InstSelectorArm32.cpp:355-358 | the corrected load puts the word of a frame operand's slot in its register |
| InstSelector.CorrectedResultStore | backend/arm32/InstSelectorArm32.cpp:384-404 | the corrected result store succeeds exactly when the result gets a register, with the register and allocator state `Allocate` gives |
| InstSelector.CorrectedStoreOfFrameVariable | backend/arm32/InstSelectorArm32.cpp:384-404 | the corrected store writes the result register to the word of the result's frame slot |
| InstSelector.CondGotoAsWrittenSkipsLoad | backend/arm32/InstSelectorArm32.cpp:197-199 | as written, a condition that is not a constant is never loaded: `Allocate` binds it to `rC` first, so the rule is only `cmp rC,#0`, `bne` and `b`, testing whatever `rC` held |
| InstSelector.CorrectedCondGoto | backend/arm32/InstSelectorArm32.cpp:191-211 | the corrected conditional goto succeeds exactly when the rule as written does, leaves the same allocator state and ends with the same compare and branches |
| InstSelector.CorrectedCondGotoLoadsSlot | backend/arm32/InstSelectorArm32.cpp:197-199 | for a condition in a frame slot, the corrected records before the compare leave the slot's word in `rC` and change nothing else |
| InstSelector.MovwAsWrittenTruncates | backend/arm32/InstSelectorArm32.cpp:349-354 | as written, a constant operand is set by one `movw`, which keeps the low 16 bits only: 65536 reads as 0 and -1 as 65535 |
| InstSelector.Selector.constructor | backend/arm32/InstSelectorArm32.cpp:37-100 | the selector keeps the emitter, function and allocator it is given; a frame without shared offsets is left alone, and otherwise it is laid out again |
| InstSelector.Selector.Take | backend/arm32/InstSelectorArm32.cpp:198 | `Allocate(v)` changes the allocator as `AllocStep` says and returns its register |
| InstSelector.Selector.LoadInto | backend/arm32/InstSelectorArm32.cpp:199 | appends `load_var` with the recorded load register |
| InstSelector.Selector.StoreFrom | backend/arm32/InstSelectorArm32.cpp:299 | appends `store_var` with the recorded load register |
| InstSelector.Selector.SetOperand | backend/arm32/InstSelectorArm32.cpp:302-308 | appends a `movw` for a constant and `load_var` otherwise |
| InstSelector.Selector.TranslateLabel | backend/arm32/InstSelectorArm32.cpp:173-178 | appends the label record |
| InstSelector.Selector.TranslateJump | backend/arm32/InstSelectorArm32.cpp:212-215 | appends `b target` |
| InstSelector.Selector.EmitCompareBranch | backend/arm32/InstSelectorArm32.cpp:202-208 | appends `cmp`, `bne` and `b` |
| InstSelector.Selector.TranslateCondGoto | backend/arm32/InstSelectorArm32.cpp:191-211 | appends the records and leaves the allocator as `CondGotoSpec` says |
| InstSelector.Selector.JoinRegNames | backend/arm32/InstSelectorArm32.cpp:227-233 | the loop leaves the protected registers' names joined by commas, or the string it started from when there are none |
| InstSelector.Selector.TranslateEntry | backend/arm32/InstSelectorArm32.cpp:220-242 | rebuilds the protected register string and appends the `push` and the frame set-up |
| InstSelector.Selector.TranslateExit | backend/arm32/InstSelectorArm32.cpp:246-266 | appends the return value's load into r0, `mov sp,fp`, the `pop` and `bx lr` |
| InstSelector.Selector.TranslateCopy | backend/arm32/InstSelectorArm32.cpp:295-323 | appends the copy and leaves the allocator as `CopySpec` says |
| InstSelector.Selector.TranslateLoadPtr | backend/arm32/InstSelectorArm32.cpp:743-767 | appends the pointer load and leaves the allocator as `LoadPtrSpec` says |
| InstSelector.Selector.TranslateStorePtr | backend/arm32/InstSelectorArm32.cpp:657-740 | appends the pointer store, or nothing, as `StorePtrSpec` says |
| InstSelector.Selector.TranslateAssign | backend/arm32/InstSelectorArm32.cpp:270-324 | dispatches on the printed form as `AssignSpec` says |
| InstSelector.Selector.OperandRegister | backend/arm32/InstSelectorArm32.cpp:344-381 | one operand block of the two-operand rule, as `OperandLoad` says |
| InstSelector.Selector.ResultRegister | backend/arm32/InstSelectorArm32.cpp:384-389 | the result block of the two-operand rule, as `ResultReg` says |
| InstSelector.Selector.FreeOperands | backend/arm32/InstSelectorArm32.cpp:407-409 | the three frees, as `FreeThree` says |
| InstSelector.Selector.EmitOperation | backend/arm32/InstSelectorArm32.cpp:392-404 | appends the operation and, for a result with no fixed register, its store |
| InstSelector.Selector.TranslateTwoOperator | backend/arm32/InstSelectorArm32.cpp:332-410 | appends the records and leaves the allocator as `TwoOperatorSpec` says |
| InstSelector.Selector.TranslateMul | backend/arm32/InstSelectorArm32.cpp:427-485 | appends the records and leaves the allocator as `MulSpec` says |
| InstSelector.Selector.TranslateAddPtr | backend/arm32/InstSelectorArm32.cpp:579-614 | appends the records and leaves the allocator as `AddPtrSpec` says |
| InstSelector.Selector.TranslateArg | backend/arm32/InstSelectorArm32.cpp:626-655 | counts the argument and reports whether it sits where argument number `realArgCount` must: in its own register for the first four, SP-based after |
| InstSelector.Selector.ClaimArgRegisters | backend/arm32/InstSelectorArm32.cpp:513-516 | the four forced claims |
| InstSelector.Selector.ReleaseArgRegisters | backend/arm32/InstSelectorArm32.cpp:557-560 | the four frees |
| InstSelector.Selector.PassStackArg | backend/arm32/InstSelectorArm32.cpp:521-534 | creates the slot's memory variable at `[sp,#esp]` and copies the argument into it |
| InstSelector.Selector.PassStackArgs | backend/arm32/InstSelectorArm32.cpp:519-535 | the stack-argument loop appends all copies and one memory variable per stack argument |
| InstSelector.Selector.PassRegArgs | backend/arm32/InstSelectorArm32.cpp:537-551 | the register-argument loop appends the copies into r0 to r3 |
| InstSelector.Selector.PassArgs | backend/arm32/InstSelectorArm32.cpp:510-555 | claims r0 to r3, then appends the stack-argument copies and the register-argument copies, and records one memory variable per stack argument |
| InstSelector.Selector.Marshal | backend/arm32/InstSelectorArm32.cpp:510-561 | appends the marshalling and records the new memory variables |
| InstSelector.Selector.TranslateCall | backend/arm32/InstSelectorArm32.cpp:495-577 | reports whether the ARG count agrees, appends the call as `CallSpec` says and resets the ARG count |
| InstSelector.Selector.OutputIRInstruction | backend/arm32/InstSelectorArm32.cpp:154-161 | appends the printed instruction as a comment when it is not empty |
| InstSelector.Selector.DispatchFrame | backend/arm32/InstSelectorArm32.cpp:43-44 | the entry and exit handlers, as `HandlerSpec` says |
| InstSelector.Selector.DispatchControl | backend/arm32/InstSelectorArm32.cpp:46-47 | the label, goto and ARG handlers, as `HandlerSpec` says |
| InstSelector.Selector.DispatchData | backend/arm32/InstSelectorArm32.cpp:49-72 | the copy, arithmetic and pointer handlers, as `HandlerSpec` says |
| InstSelector.Selector.DispatchCall | backend/arm32/InstSelectorArm32.cpp:74 | the call handler, as `HandlerSpec` says |
| InstSelector.Selector.Translate | backend/arm32/InstSelectorArm32.cpp:122-149 | skips an opcode without a handler, else appends the comment and runs the rule, as `TranslateSpec` says |
| InstSelector.Selector.Run | backend/arm32/InstSelectorArm32.cpp:109-118 | translates every live instruction in order, as `RunSpec` says |
| Frame.VariableSizes | ir/Function.cpp:361-381 | a null type, a pointer and a scalar take 4 bytes; an array with positive dimensions takes a positive multiple of 4 |
| Frame.RoundUp8 | ir/Function.cpp:502 | `(x + 7) & ~7` is the least multiple of 8 not below `x` |
| Frame.TallySpec | ir/Function.cpp:525-561 | the offset map counts exactly the offsets that occur, and some offset is counted twice or more exactly when two variables share it |
| Frame.TallyInto | ir/Function.cpp:528-547 | the two counting loops add every addressed variable's offset to the map |
| Frame.HasRepeat | ir/Function.cpp:550-561 | the conflict scan finds a conflict exactly when some offset is counted more than once |
| Frame.VarSlotInLocals | ir/Function.cpp:421-482 | every local's slot lies below fp-4 inclusive and above the point where the memory variables start |
| Frame.VarSlotsDistinct | ir/Function.cpp:421-482 | two locals never get the same slot |
| Frame.SlotsDistinct | ir/Function.cpp:421-496 | no two slots of the layout, locals or memory variables, coincide |
| Frame.LayoutHasNoSharedOffset | ir/Function.cpp:384-571 | after `reallocateMemory` no two variables share an offset, so `validateMemoryAllocation` reports no conflict |
| Frame.FrameDepthCoversLayout | ir/Function.cpp:499-505 | the depth handed to `setMaxDep` is a multiple of 8, at least the bytes in use, and every slot lies inside it below fp |
| Frame.ArrayBaseAsWrittenLeavesFrame | ir/Function.cpp:426-461 | placing an array's base 4 bytes below the running offset puts the last element of `int a[3]`, standing first, at fp+0, outside the frame |
| Frame.CorrectedArraysInsideFrame | ir/Function.cpp:426-461 | with the base at the lowest address of the array's block, every element lies below fp-4 and above the locals placed after it, and two arrays do not overlap |
| Frame.PlacedVarOffsets | ir/Function.cpp:426-482 | the offsets of the placed locals are their computed slots, in order |
| Frame.PlacedMemOffsets | ir/Function.cpp:487-496 | the offsets of the placed memory variables are their computed slots, in order |
| Frame.InstNameOf | ir/Function.cpp:324-330 | the k-th named instruction (a label, or one with a result) is numbered by the start plus the named instructions before it, with the `.L` or `%t` prefix |
| Frame.InstNamesDistinct | ir/Function.cpp:324-330 | two named instructions get different names |
| Frame.ParamAndVarNamesDistinct | ir/Function.cpp:310-321 | the parameters and the locals get pairwise different names |
| Frame.RenamedNamesDistinct | ir/Function.cpp:303-331 | no two of the names `renameIR` hands out coincide, across parameters, locals and instructions |
| Frame.NamesDiffer | ir/Function.cpp:314-328 | two-character prefixes followed by different numbers, or one number under different prefixes, give different names |
| Frame.Function.constructor | ir/Function.cpp:30-37 | a new function has no code, no locals, no memory variables, no loop labels, empty extra data, depth 0 and is not yet relocated |
| Frame.Function.SetBreakLabel | ir/Function.h:182-184 | records the break label and changes nothing else |
| Frame.Function.SetContinueLabel | ir/Function.h:194-196 | records the continue label and changes nothing else |
| Frame.Function.SetMaxDep | ir/Function.cpp:208-214 | records the depth and marks the frame relocated |
| Frame.Function.RealArgCountInc | ir/Function.cpp:345-348 | adds one to the count of passed arguments |
| Frame.Function.RealArgCountReset | ir/Function.cpp:353-356 | sets the count of passed arguments to zero |
| Frame.Function.NewLocalVarValue | ir/Function.cpp:262-271 | creates a fresh unplaced local and appends it to the locals |
| Frame.Function.NewMemVariable | ir/Function.cpp:276-284 | creates a fresh unplaced memory variable and appends it to the memory variables |
| Frame.Function.ReallocateMemory | ir/Function.cpp:384-517 | a second call changes nothing; the first places arrays, then other locals, then memory variables as the layout functions say, sets the depth and fixes the layout |
| Frame.Function.ValidateMemoryAllocation | ir/Function.cpp:520-571 | returns true exactly when no two variables share an offset |
| Frame.Function.RenameIR | ir/Function.cpp:303-331 | a builtin keeps its names; otherwise one counter numbers the parameters, the locals, then the labels and the instructions with a result, in code order |
| Frame.PlaceArrays | ir/Function.cpp:426-462 | the array pass places each array as the layout says and returns the running offset |
| Frame.PlaceScalars | ir/Function.cpp:467-482 | the scalar pass completes the layout of the locals |
| Frame.PlaceMemVars | ir/Function.cpp:487-496 | the memory-variable pass places them after the locals |
| Frame.NameLocals | ir/Function.cpp:318-321 | the locals' loop gives consecutive `%l` names |
| Frame.NameInsts | ir/Function.cpp:324-330 | the instructions' loop names labels and result-bearing instructions and advances the counter by their number |
| Common.DecimalValueOfNatToString | ir/Function.cpp:314 | reading back the decimal text of a counter gives the counter |
| Common.NatToStringInjective | ir/Function.cpp:313-330 | two different counters never render as the same text |
| Common.PrefixedNamesDistinct | ir/Function.cpp:313-330 | distinct counters under one prefix give distinct names |
| IRGen.NewVar | ir/Generator/IRGenerator.cpp:1203 | a new variable takes the next id and has the requested type |
| IRGen.NewConst | ir/Generator/IRGenerator.cpp:1864 | `newConstInt(k)` makes a constant holding `k` and uses up one id only |
| IRGen.NewBinary | ir/Generator/IRGenerator.cpp:1357-1361 | a new binary instruction is its own result value, with the next id |
| IRGen.Unwrap | ir/Generator/IRGenerator.cpp:617 | the values of the lowered sons, when every son produced one |
| IRGen.LowerList | ir/Generator/IRGenerator.cpp:665-675 | a list that lowers successfully yields one value per son |
| IRGen.LowerIfAsWritten | ir/Generator/IRGenerator.cpp:1408-1445 | the `if` handler as written agrees with `LowerIf` whenever that succeeds, fails only when it fails, and differs only by accepting a then-branch that failed |
| IRGen.IfDropsFailedThen | ir/Generator/IRGenerator.cpp:1434-1439 | whenever the condition lowers and the then-branch fails, the `if` as written keeps the condition, the branch and both labels with nothing between them, while the intended lowering fails |
| IRGen.IfSwallowsFailedThen | ir/Generator/IRGenerator.cpp:1434-1439 | as written, `if (1) break;` outside a loop succeeds with a branch around nothing, while the intended lowering rejects it |
| IRGen.ComputeStride | ir/Generator/IRGenerator.cpp:2276-2279 | the stride loop computes the product of the dimensions from `i` on |
| IRGen.StrideConsts | ir/Generator/IRGenerator.cpp:2274-2288 | one 32-bit stride constant per index |
| IRGen.AccessCode | ir/Generator/IRGenerator.cpp:2177-2356 | the address computation of an array access has no label or jump, and keeps the generator's state |
| IRGen.TwoDimAccess | ir/Generator/IRGenerator.cpp:2177-2260 | the two-dimensional path has no label or jump, and keeps the generator's state |
| IRGen.IndexSteps | ir/Generator/IRGenerator.cpp:2274-2304 | the steps of the general path have no label or jump, only use up ids, and keep the state |
| IRGen.GeneralAccess | ir/Generator/IRGenerator.cpp:2263-2356 | the general path has no label or jump, and keeps the generator's state |
| IRGen.ScaleAndLoad | ir/Generator/IRGenerator.cpp:2307-2347 | the end of the general path has no label or jump, and keeps the generator's state |
| IRGen.FormalsOf | ir/Generator/IRGenerator.cpp:294-310 | the formal parameters are built exactly when every parameter node has two sons, one per node with its name and type, and only ids change |
| IRGen.ParamMoves | ir/Generator/IRGenerator.cpp:443-475 | one copy per formal parameter, no label or jump, one new id per copy, and the state kept |
| IRGen.ParamMovesCopy | ir/Generator/IRGenerator.cpp:459-474 | the j-th copy moves formal parameter j into a new local of the same name |
| IRGen.IntToBoolTaken | ir/Generator/IRGenerator.cpp:1588-1637 | the instructions `int_to_bool` parks in `extraData` have no label or jump, and once the logical operator takes them the state is kept |
| IRGen.ShortCircuitTail | ir/Generator/IRGenerator.cpp:1241-1251 | the tail of `&&` and `\|\|` defines its two labels once each and jumps only to the end label |
| IRGen.IfAt | ir/Generator/IRGenerator.cpp:1414-1442 | the code of `if` defines each label at most once, only labels it handed out, and jumps only to labels it defines or to the enclosing loop's and function's labels |
| IRGen.IfElseAt | ir/Generator/IRGenerator.cpp:1455-1488 | the same for `if`/`else` |
| IRGen.WhileAt | ir/Generator/IRGenerator.cpp:1500-1538 | the same for `while`, whose condition and body may also jump to its condition and end labels |
| IRGen.ShortCircuitAt | ir/Generator/IRGenerator.cpp:1198-1251 | the same for the code shape shared by `&&` and `\|\|` |
| IRGen.AndAt | ir/Generator/IRGenerator.cpp:1198-1251 | the same for `&&` with its three labels |
| IRGen.OrAt | ir/Generator/IRGenerator.cpp:1259-1330 | the same for `\|\|` with its three labels |
| IRGen.LowerGood | ir/Generator/IRGenerator.cpp:127-151 | every successful lowering keeps the generator's state (function, exit label, return variable, loop labels, function table, `extraData` empty), defines each label at most once and only labels it handed out, and jumps only to labels it defines or to the enclosing loop's and function's labels |
| IRGen.LeafGood | ir/Generator/IRGenerator.cpp:1807-1869 | the same for literals, variables and the handlers outside this model |
| IRGen.JumpGood | ir/Generator/IRGenerator.cpp:1548-1585 | `break` and `continue` jump only to the enclosing loop's labels |
| IRGen.LowerListGood | ir/Generator/IRGenerator.cpp:665-675 | the same for a list of statements lowered in order |
| IRGen.BlockGood | ir/Generator/IRGenerator.cpp:658-683 | the same for a block |
| IRGen.IfGood | ir/Generator/IRGenerator.cpp:1408-1445 | the same for `if` |
| IRGen.IfElseGood | ir/Generator/IRGenerator.cpp:1449-1491 | the same for `if`/`else` |
| IRGen.WhileGood | ir/Generator/IRGenerator.cpp:1494-1545 | the same for `while`, which restores the enclosing loop's labels |
| IRGen.AndGood | ir/Generator/IRGenerator.cpp:1185-1256 | the same for `&&` |
| IRGen.AndKeeps | ir/Generator/IRGenerator.cpp:1185-1256 | `&&` keeps the generator's state |
| IRGen.AndLabels | ir/Generator/IRGenerator.cpp:1185-1256 | the labels of `&&` are well formed |
| IRGen.OrGood | ir/Generator/IRGenerator.cpp:1259-1330 | the same for `\|\|` |
| IRGen.OrKeeps | ir/Generator/IRGenerator.cpp:1259-1330 | `\|\|` keeps the generator's state |
| IRGen.OrLabels | ir/Generator/IRGenerator.cpp:1259-1330 | the labels of `\|\|` are well formed |
| IRGen.NotGood | ir/Generator/IRGenerator.cpp:1333-1372 | the same for `!` |
| IRGen.AssignGood | ir/Generator/IRGenerator.cpp:1687-1734 | the same for an assignment |
| IRGen.ReturnGood | ir/Generator/IRGenerator.cpp:1739-1779 | the same for `return`, which jumps only to the function's exit label |
| IRGen.CallGood | ir/Generator/IRGenerator.cpp:561-653 | the same for a function call |
| IRGen.DimsKeep | ir/Generator/IRGenerator.cpp:2036-2068 | lowering the dimensions of an array definition keeps the generator's state |
| IRGen.ArrayDefGood | ir/Generator/IRGenerator.cpp:2024-2114 | the same for an array definition |
| IRGen.ArrayAccessGood | ir/Generator/IRGenerator.cpp:2120-2359 | the same for an array access |
| IRGenProps.JumpNeedsLabel | ir/Generator/IRGenerator.cpp:1548-1585 | `break` and `continue` succeed exactly inside a function and a loop, with a single jump to the loop's end or condition label |
| IRGenProps.WhileFailureKeepsLoopLabels | ir/Generator/IRGenerator.cpp:1541-1542 | a loop whose body fails returns failure with `break` and `continue` still aimed at its own labels, because the old labels are restored only on success |
| IRGenProps.WhileRestoresLabels | ir/Generator/IRGenerator.cpp:1494-1545 | a successful loop gives the enclosing loop's labels back |
| IRGenProps.IntToBoolCases | ir/Generator/IRGenerator.cpp:1588-1637 | a bool is its own truth value and nothing is parked; any other value yields a fresh bool and parks a not-equal-zero test and a copy |
| IRGenProps.CallChecks | ir/Generator/IRGenerator.cpp:561-653 | a call succeeds only for a known callee inside a function, with as many arguments as parameters; the caller's largest argument count becomes at least the larger of its old value and this call's count |
| IRGenProps.DimsPositive | ir/Generator/IRGenerator.cpp:2036-2068 | the dimension loop yields one dimension per son, each positive, or fails |
| IRGenProps.ArrayDefChecks | ir/Generator/IRGenerator.cpp:2024-2114 | an array definition succeeds only with at least one dimension, each positive, and its variable is an int array of exactly those dimensions |
| IRGenProps.ArrayAccessRank | ir/Generator/IRGenerator.cpp:2120-2359 | an access with no index or more indices than the array's rank fails and changes nothing; a successful one names a visible array and uses between one index and its rank |
| IRGenProps.LowerLiteral | ir/Generator/IRGenerator.cpp:1859-1869 | an integer literal lowers to a fresh constant and no code |
| IRGenProps.AndYieldsRightValue | ir/Generator/IRGenerator.cpp:1227-1251 | `k && m` assigns the right operand's own value `m` to the result when `k` is true, and 0 on the short-circuit path |
| IRGenProps.OrYieldsRightValue | ir/Generator/IRGenerator.cpp:1301-1325 | `k \|\| m` assigns `m` itself to the result when `k` is false, and 1 on the short-circuit path |
| IRGenProps.DefineParts | ir/Generator/IRGenerator.cpp:266-405 | a successful definition is the entry, the parameter copies, the body lowered in a calm state with no enclosing loop and the function's exit label, then the exit label and the exit |
| IRGenProps.DefineChecks | ir/Generator/IRGenerator.cpp:266-405 | a definition inside a function fails and changes nothing; one whose parameter node lacks its sons fails; a successful one returns to the global scope, records the function, and its code starts with the entry |
| IRGenProps.DefineGood | ir/Generator/IRGenerator.cpp:266-405 | the code of a whole function defines each label at most once, only labels handed out while it was generated, and jumps only to labels it defines |
| IRGenExec.StepComputes | ir/Generator/IRGenerator.cpp:2281-2304 | one step of the general path leaves `cur * k + x` in the accumulator and changes no older value |
| IRGenExec.StepsCompute | ir/Generator/IRGenerator.cpp:2274-2304 | the remaining steps of the general path extend the accumulated index over all the indices and change no older value |
| IRGenExec.ScaleComputes | ir/Generator/IRGenerator.cpp:2307-2347 | the end of the general path computes the offset as four times the accumulator and the pointer as the array's address plus the offset |
| IRGenExec.PrefixComputes | ir/Generator/IRGenerator.cpp:2263-2304 | the general path, up to its scaling, leaves the accumulated index in the accumulator and the array's address untouched |
| IRGenExec.GeneralComputes | ir/Generator/IRGenerator.cpp:2263-2356 | the general path leaves in its pointer the array's address plus four times the accumulated index |
| IRGenExec.TwoDimHead | ir/Generator/IRGenerator.cpp:2177-2230 | the two-index path leaves `row * C + col` in its sum and the array's address untouched |
| IRGenExec.TwoDimComputes | ir/Generator/IRGenerator.cpp:2177-2260 | the two-index path leaves in its pointer the array's address plus `(row * C + col) * 4` |
| IRGenExec.StridesAgree | ir/Generator/IRGenerator.cpp:2274-2288 | when the multipliers fit in 32 bits, the strides of the general path are the ones `calc_multi_array_addr` uses |
| IRGenExec.LinearAgrees | ir/Generator/IRGenerator.cpp:2274-2304 | with those strides, the index the general path accumulates is the one the back end computes |
| IRGenExec.GeneralAgrees | ir/Generator/IRGenerator.cpp:2263-2356 | the general path points at the element the back end's linear index names |
| IRGenExec.TwoDimAgrees | ir/Generator/IRGenerator.cpp:2177-2260 | the two-index path points at the element the back end's linear index names |
| IRGenExec.AccessComputes | ir/Generator/IRGenerator.cpp:2120-2359 | whichever path it takes, the access code leaves in its pointer the array's address plus four times the back end's linear index |
| IRGenExec.AccessThreeDimensionalNotRowMajor | ir/Generator/IRGenerator.cpp:2263-2356 | for `a[1][0][0]` in `int a[2][2][2]` the pointer is 32 bytes past the array, where row-major order puts the element at 16 |
| IRGenExec.CorrectedStridesAgree | ir/Generator/IRGenerator.cpp:2274-2304 | with dimension `j` as stride `j`, the general path accumulates the corrected linear index |
| IRGenExec.CorrectedGeneralIsRowMajor | ir/Generator/IRGenerator.cpp:2263-2356 | with those strides the general path leaves in its pointer the array's address plus four times the row-major index, for any number of dimensions |

## Left out

- Diagnostics are not modelled: `minic_log`, `setLastError` and the `printf` tracing. A handler that reports an error is modelled by its failure result alone.
- The printed assembly text and the file output of `ILocArm32::outPut` are not modelled. Records are kept as opcode and operand strings. Comment records carry English descriptions in place of the original texts.
- `translate_div_int32`, `translate_mod_int32`, `translate_neg_int32` and the six comparison translators are left out. Their definitions are not in `InstSelectorArm32.cpp`, so the model excludes those opcodes (`InstSelector.Supported`).
- `PlatformArm32` is not part of this model. Its register names, `isDisp`, `constExpr` and the register numbers are defined in `ArmCode` from the ARMv7-A/R encodings.
- `Module.cpp` is not part of this model. `newVarValue`, `findVarValue`, `findFunction`, `newConstInt` and the scope stack are modelled as the generator state's maps. A scoped block saves and restores the variable map in place of pushing and popping a scope.
- IRGen.NewConst: every `newConstInt(k)` makes a new constant. The module's constant table, which may hand back an existing constant, is not modelled.
- `ArrayType::getSize` is not part of this model. An array's size is taken as 4 bytes per element in `Frame.VariableSizes` and the array handlers.
- The generator is modelled on values. Each handler is a function from a `GenState` to a new state and its code. In-place appends to `blockInsts` and the aliasing of AST nodes are not captured.
- Null pointers are modelled as `None`. A null son value makes its handler fail rather than dereference null.
- IRGen.LowerCall: a call outside any function fails here. The source would call through a null current function.
- IRGen.Lower dispatches `if` to the intended `LowerIf`. The handler as written is `IRGen.LowerIfAsWritten`, listed under Findings.
- IRGen.LowerGood does not state that `existFuncCall` is preserved. A call sets it, and no lemma speaks about it beyond `IRGenProps.CallChecks`.
- IRGen.StrideConsts: the stride of the general array path is an `int` in the source. The model truncates it to 32 bits, and the lemmas that relate it to the back end require `ArmCode.MultipliersFit` (no multiplier overflows).
- 32-bit overflow of the values the generated code computes is not modelled. `IRGenExec.Exec` works over unbounded integers, and `ArmSem` wraps modulo 2^32 only where the records' own semantics does.
- InstSelector.TranslateSpec: a rule that would take the front of an empty allocation queue is `None`. The source reads past an empty `std::deque` there, which has no defined result.
- RegAlloc.Allocator.Allocate requires a non-empty queue when no register is free and the value holds none. That is the case where the source evicts `regValues.front()`.
- InstSelector.ReleaseArgRegsFrees: states that r0 to r3 are free after a call and that no binding is added. It does not state that the other registers are untouched; `InstSelector.FreeRegStep` states that for each single release.
- ArmArrays.CalcArrayAddrComputes requires, for an element size other than 1, 4 and 8, a `tmp` other than the base and the index register, and ArmArrays.MultiArrayAddrComputes requires `rs` and `tmp1` to differ from the base and from the later index registers. Otherwise the records overwrite an input before reading it; what they then compute is not stated.
- ArmVars.LoadVarComputes and ArmVars.StoreVarComputes require a global's symbol to be known to the machine, and a far frame offset to go through a register other than the slot's base (and, for a store, other than the source). The source gives no meaning to the other cases.
- `showLinearIR` and the other logging switches only add comments or trace output. They are modelled as the comment records they append, or left out.
- Floating point, the front end, the AST builder and the linear IR's printing (`toString` of each instruction) are not part of this model. A copy's printed form is reduced to `IR.MoveText`.

## Findings

| source | as written | input that shows it | evidently intended | confidence | as-written member | corrected member |
|---|---|---|---|---|---|---|
| backend/arm32/InstSelectorArm32.cpp:344-404 | `Allocate(arg)` is called before `load_var(reg, arg)`; `Allocate` records the register as the operand's load register, so `load_var` finds the value "already loaded" and emits nothing, and `store_var` of the result likewise emits nothing | `t = a + b` with `a`, `b` and `t` frame variables that hold no register: the whole rule is the single `add` | each frame operand is loaded from its slot and the result stored to its slot | not executed | InstSelector.TwoOperatorAsWrittenSkipsMemory | InstSelector.CorrectedOperandLoad, InstSelector.CorrectedLoadOfFrameVariable, InstSelector.CorrectedResultStore, InstSelector.CorrectedStoreOfFrameVariable |
| backend/arm32/InstSelectorArm32.cpp:197-199 | the conditional goto also calls `Allocate(condition)` before `load_var(rC, condition)`, so `load_var` emits nothing for a condition that is not a constant, and `cmp rC,#0` tests whatever `rC` last held | `if (x) ...`: the condition is the fresh bool local made for `x`, which lives in a frame slot and holds no register, so the branch is `cmp`, `bne`, `b` with no load | the condition is loaded from its location and then compared with 0 | not executed | InstSelector.CondGotoAsWrittenSkipsLoad | InstSelector.CorrectedCondGoto, InstSelector.CorrectedCondGotoLoadsSlot |
| backend/arm32/InstSelectorArm32.cpp:349-354 | a constant operand is set with one `movw #:lower16:k`, which keeps only the low 16 bits and clears the rest | `k = 65536` reads as 0; `k = -1` reads as 65535 | the full 32-bit constant, as `load_imm` sets it (`movw` then `movt`) | not executed | InstSelector.MovwAsWrittenTruncates | InstSelector.CorrectedLoadOfConstant |
| ir/Function.cpp:426-461 | an array is given the base 4 bytes below the running offset, and its elements are reached upward from the base | `int a[3]` as the first local: base fp-8, last element at fp+0, outside the frame | the base at the lowest address of the array's block, so that every element lies inside the frame and no two arrays overlap | not executed | Frame.ArrayBaseAsWrittenLeavesFrame | Frame.CorrectedArraysInsideFrame |
| ir/Generator/IRGenerator.cpp:1434-1439 | when the then-branch of `if` fails, the failure is dropped and the statement succeeds | `if (1) break;` outside a loop lowers to a branch around nothing | the `if` fails when its then-branch fails, as `if`/`else` and `while` do | not executed | IRGen.LowerIfAsWritten, IRGen.IfDropsFailedThen, IRGen.IfSwallowsFailedThen | IRGen.LowerIf, IRGen.LowerGood |
| backend/arm32/ILocArm32.cpp:640-662 and ir/Generator/IRGenerator.cpp:2274-2304 | each step of the index loop multiplies the running index by the product of all later dimensions | `a[1][0][0]` in `int a[2][2][2]`: linear index 8 (byte offset 32) where row-major order gives 4 (offset 16) | the row-major offset the comment at ILocArm32.cpp:640 writes out, by multiplying by the next dimension alone | not executed | ArmCode.MultiArrayThreeDimensionalNotRowMajor, ArmArrays.MultiArrayAddrComputes, IRGenExec.AccessThreeDimensionalNotRowMajor | ArmCode.CorrectedMultiArrayIsRowMajor, IRGenExec.CorrectedGeneralIsRowMajor |
