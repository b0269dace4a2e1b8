# Verified model of the hook engine and of the bot's packet-driven state

This project models, in Dafny 4.11, the parts of the repository whose correctness rests on state and arithmetic, and
proves what they keep over every run.  `dafny verify dfyconfig.toml` checks all of it.

* **Hooking code** (`loader_dll/detours/disasm.cpp`, `detours.cpp`). `Disasm` says what one x86 instruction is to the
  copy tables and what its relocated copy is; `CopyTables` holds the tables; `Copier` is the code that copies inside
  memory. `Relocation` is about the loops that move code out and back, `Patching` and `Restoring` are those loops on
  memory. `Trampolines` is the pool of 64K regions, `DoubleFree` what returning trampolines does to its free lists.
  `HookList` and `HookSteps` say what a sound process with hooks is and what each step does to it; `Pending` what
  operations do to the hooks, `Rollback` what an unfinished transaction has changed, `Carrying` what the loops of a
  commit write, `ThreadFix` where suspended threads go on. `HookFacts` connects these to the code, and `Hooks` is the
  transactions. `HookRoundTrip` is about hooks apart from each other, `HookStacks` and `HookLayers` about hooks on code
  that is hooked already, `HookRuns` about any list of them, `HookThreads` about threads. Memory is one array of bytes;
  addresses and offsets wrap at 32 bits. The state of the hook engine has three invariants. `Valid` holds after any
  attaches and detaches that begin in a valid state, of any code and through any pointer, and it is all that an abort
  needs. `Tidy` adds that every hook is on known code apart from the others, and every operation is about a hook;
  `Orderly` adds that no two operations are about the same one.
* **Images** (`image.cpp`).  `ImageData` is the store of payloads by GUID, `ImportList` the editing of the import list,
  `ImportTable` the emitted table and its reader, `OutputBuffer` and `ImportWriter` the allocator and the loop that
  writes, `DetourSection` the section as a whole, written and read back.
* **Injected imports** (`creatwth.cpp`).  `ImportBlock` is the layout of the new import block, `Checksum` the
  one's-complement sum (the arithmetic of section 2 of RFC 1071) and its repair.
* **The bot** (`bot/src`, `client_manager`).  `Proxy`: reassembly and forwarding.  `Commands`: the skill command
  queues. `Experience`, `Items` and `Waypoints`: level normalisation, item movements, splitting of long movements.
  `ClientLaunch`: starting clients and learning of their deaths across two processes.
* `Bytes`, `Alignment`, `Options`: little-endian memory, rounding up, missing values.

Code that works step by step is imperative here too, each method proved against functions of the values it reads; code
that only computes is functions.  What the system answers (memory, page protection, imports, contexts of threads,
processes that exit) is a parameter.

## Where the code does not do what one would expect

Each of these is proved, with the exact condition under which the expected property holds.

* The copy of an unknown opcode leaves what the trampoline held, so attach and detach restore code if and only if the
  tables know its opcodes, and the drastic-error branch is reachable (`Restoring.RestoresIfKnown`,
  `Restoring.DrasticCount`).
* A pointer is resolved to where its jumps lead if and only if there is no EB that leads to an E9; the E9 is then
  followed to five bytes before its target (`Patching.LongJumpFallsShort`, `Patching.LongJumpMissed`).
* The copier counts an instruction as long as the processor does if and only if its opcode is not 82, not 0F C2, not one
  after 0F without operands such as RDTSC, CPUID or BSWAP, and neither 0F 0F nor a prefix 67 makes it read another
  addressing form (`OpcodeMap.LengthMatches`, `OpcodeMap.TooShort`, `OpcodeMap.TooLong`).
* LOOPNE ends a function for the attach loop, and so does JECXZ with FF 25 behind it; far returns and most jumps do not
  (`OpcodeMap.EndsWrongly`, `OpcodeMap.FarReturn`).
* A region hands out slots 3 to 2047; slots 1 and 2 are never used (`Trampolines.FreePlusLive`).
* A hook that is detached twice in one transaction is accepted twice.  After the commit the pool is sound if and only
  if the detaches name different trampolines; otherwise a free list has no end (`Hooks.Detours.Commit`,
  `DoubleFree.SoundIffNoRepeats`, `DoubleFree.ReturnedTwice`).
* A hook on hooked code saves the jump of the first hook.  Hooks that overlap give the code back if and only if at each
  byte the first hook is taken back last, up to bytes that a jump has in common with the code; taken back in the order
  in which they came, two hooks on one function leave a jump to the first detour (`HookStacks.UnhookedIff`,
  `HookStacks.RestoredIffFirstLast`, `HookStacks.StaleJump`, `HookLayers.HookTwice`, `HookRuns.HookAndUnhook`).
* Of two attaches to one function in one transaction the first one stays in place (`HookLayers.LastWrittenStays`).
* A thread suspended in a trampoline that a commit returns is moved back to the function if and only if it is among the
  first four bytes, the size of a pointer; otherwise it goes on in cleared memory (`HookThreads.CommitMoves`,
  `HookThreads.FifthByteStays`).
* A payload is lost when `Set` runs out of memory, if and only if there was one for the GUID; `Set` runs out of memory
  if and only if the buffer has to grow and cannot (`ImageData.CImageData.Set`, `ImageData.PayloadLost`).
* The checksum of an image comes back after its headers have been edited if and only if the word of the NT header that
  lies on e_res[0] is 0 modulo 65535; an image whose NT header starts at 4 ends with another one
  (`Checksum.RemoteModule.InstallHeaders`, `Checksum.SmallImageFails`).
* A list of one file without symbols is written without `OriginalFirstThunk`, and is read back empty
  (`ImportTable.ImportsBack`).
* A `.detour` section that is not the last one survives a read, and the last section is dropped instead
  (`DetourSection.DetourMustBeLast`, `DetourSection.LastSectionDropped`).
* A reset does not restore a symbol that the image imports by ordinal 0 (`ImportList.ResetUnchanged`).
* Items are lost by a transfer into a taken slot, by a sale into a full buyback queue, and by putting stacks together
  with an amount that does not fit, and made up by a sale of more than there is; each quantity is kept if and only if
  every movement is fair (`Items.FairRunKeeps`, `Items.GainedNothing`, `Items.TransferLoses`, `Items.StacksLose`,
  `Items.SaleLoses`).
* After a heartbeat, a client whose process has exited is reported dead if and only if it was not killed for missed
  heartbeats (`ClientLaunch.System.StepHandle`, `ClientLaunch.KilledIsSilent`, `ClientLaunch.KilledUnreported`).

## Model

| member | source | states |
|---|---|---|
| `Checksum.FoldStep` | loader_dll/detours/creatwth.cpp:133-141 | one round of the summing loop keeps the running sum in 16 bits, and keeps it the canonical representative of the total: zero only while every word was zero |
| `Checksum.RemoteModule.SumData` | loader_dll/detours/creatwth.cpp:133-141 | the sum over one page is the canonical representative of the total so far plus the words of the page |
| `Checksum.RemoteModule.ChkSumRange` | loader_dll/detours/creatwth.cpp:154-167 | a range of pages of one protection adds exactly its readable pages; the first unreadable page ends it |
| `Checksum.RemoteModule.ComputeChkSum` | loader_dll/detours/creatwth.cpp:169-205 | the checksum does not depend on how VirtualQueryEx cuts the module into regions |
| `Checksum.SumMinusIs` | loader_dll/detours/creatwth.cpp:120-125 | the wrapped subtraction is the difference, plus 65535 when it borrows; equal words give 0 |
| `Checksum.SumFinalMod` | loader_dll/detours/creatwth.cpp:143-152 | the two words of the CheckSum field are left out: added to the checksum they give the running sum modulo 65535 |
| `Checksum.RepairIsExact` | loader_dll/detours/creatwth.cpp:635 | for all nonzero totals before and during the edit and any CheckSum words, adding the repair word brings the running sum back exactly, not only modulo 65535 |
| `Checksum.PatchedSum` | loader_dll/detours/creatwth.cpp:621-635 | storing e_res[0] moves the total of every prefix of pages by the change of that word |
| `Checksum.NonzeroImage` | loader_dll/detours/creatwth.cpp:398 | an image that starts with a nonzero word has a nonzero total, so zero is never confused with 0xffff |
| `Checksum.RemoteModule.InstallHeaders` | loader_dll/detours/creatwth.cpp:385-665 | wherever the NT header starts, also inside the DOS header: memory ends with the changed CLR flag, both headers and the patched word, and nothing else new; the checksum equals the one before as a 16-bit number if and only if the word of the NT header that lies on e_res[0] is 0 modulo 65535, so always when that header starts at 30 or later |
| `Checksum.HeaderSums` | loader_dll/detours/creatwth.cpp:621-651 | that condition for any module, any edited directories and any CheckSum words: the sum that the repair is computed from lacks exactly that word |
| `Checksum.SmallImageFails` | loader_dll/detours/creatwth.cpp:621-651 | an input: one page with e_lfanew 4, whose Magic 0x010b lies on e_res[0], does not get its checksum back |
| `Disasm.ModRmMatchesIntel` | loader_dll/detours/disasm.cpp:481-498 | for every ModR/M and SIB byte the table gives the displacement and SIB bytes of 32-bit addressing (Tables 2-2 and 2-3 of section 2.1.5 of the Intel SDM, Volume 2) |
| `CopyTables.X86WellFormed` | loader_dll/detours/disasm.cpp:500-1037 | every entry of both opcode tables is one that the copier handles: sizes, operand places and prefixes are consistent |
| `OpcodeMap.LengthMatches` | loader_dll/detours/disasm.cpp:218-1037 | behind any prefixes, the length of any instruction that the tables know is that of the opcode maps, addressing forms and operand sizes of the Intel SDM, if and only if the opcode is none of a short list: 82, those after 0F without operands, 0F C2, 0F 0F with another form one byte on, and forms that 67 or a control register makes shorter |
| `OpcodeMap.KindMatches` | loader_dll/detours/disasm.cpp:218-1037 | exactly E8, E9, EB, 70-7F, E0-E3 and 0F 80-8F have a relative operand, their last byte, or last four bytes, or two after 66; the unknown opcodes, the dynamic and indirect targets and the branches that cannot be enlarged are those listed by number |
| `OpcodeMap.TestAndNot` | loader_dll/detours/disasm.cpp:409-447 | inputs: TEST byte [ebp + 8], 1 is four bytes long, NOT dl two |
| `OpcodeMap.TooShort` | loader_dll/detours/disasm.cpp:651 | inputs: 82 C0 05 is counted as two bytes instead of three, 0F C2 C1 00 as three instead of four; covers line 976 too |
| `OpcodeMap.TooLong` | loader_dll/detours/disasm.cpp:831 | inputs: 0F 31 is counted as three bytes, with the RET behind it, and 0F 0F C0 9E as eight; covers line 797 too |
| `OpcodeMap.EndsWrongly` | loader_dll/detours/detours.cpp:131-154 | the instructions that are taken for the end of a function without being one are exactly LOOPNE and JECXZ with FF 25 behind it; those that end one and are missed are listed too |
| `OpcodeMap.RetStub` | loader_dll/detours/detours.cpp:1149-1173 | an input: of a function that is one RET, one byte can be moved |
| `OpcodeMap.FivePushes` | loader_dll/detours/detours.cpp:1149-1173 | an input: of single-byte instructions five are moved, however many follow |
| `OpcodeMap.FarReturn` | loader_dll/detours/detours.cpp:1149-1173 | an input: behind a far return the code that follows is moved too |
| `Disasm.DecodeStable` | loader_dll/detours/disasm.cpp:218-302 | the shape of an instruction depends on its bytes other than the relative operand only |
| `Disasm.CopyDecodes` | loader_dll/detours/disasm.cpp:218-377 | after any prefix chain, the copy of a known instruction decodes to the same shape at its new place, whatever follows |
| `Disasm.TargetPreserved` | loader_dll/detours/disasm.cpp:324-377 | the copy branches to the address, modulo 2^32, that the original branches to, if and only if *plExtra is 0, for offsets of 1, 2 and 4 bytes |
| `Disasm.CopyBack` | loader_dll/detours/disasm.cpp:324-377 | an exact copy, copied back, is the original byte for byte, and needs no growth on the way back |
| `Copier.InstructionCopier.CopyInstruction` | loader_dll/detours/disasm.cpp:218-235 | memory changes by the relocated instruction at the destination and nowhere else; the returned source pointer, *plExtra and the target are those of the decoded instruction, for FF 15 and FF 25 the address that memory held before their copy |
| `Copier.InstructionCopier.CopyPrefixed` | loader_dll/detours/disasm.cpp:304-322 | a prefix followed by the rest is the whole instruction; 66 and 67 set the overrides for the rest; covers lines 397-407 too |
| `Copier.InstructionCopier.CopyEscaped` | loader_dll/detours/disasm.cpp:389-395 | 0F by the second table, with only the escape byte copied before an unknown second byte |
| `Copier.InstructionCopier.CopyGroup` | loader_dll/detours/disasm.cpp:409-479 | F6, F7 and FF by their ModR/M byte, with the target that FF reports: the address read through the operand, a dynamic one, or none |
| `Copier.InstructionCopier.CopyBytes` | loader_dll/detours/disasm.cpp:237-302 | length by entry, overrides, ModR/M and SIB; operand re-aimed; growth negated for a branch that cannot be enlarged; `OpcodeMap.LengthMatches` says what the length is |
| `Copier.InstructionCopier.AdjustTarget` | loader_dll/detours/disasm.cpp:324-377 | the operand becomes the two's-complement difference, the target is counted from the next instruction, the growth is 0 exactly when the new offset fits |
| `Relocation.BackRestores` | loader_dll/detours/detours.cpp:773-797 | for code whose opcodes the tables know, the copy loop of a detach restores every byte and ends with the count cbTarget |
| `Relocation.RoundTrip` | loader_dll/detours/detours.cpp:1151-1198 | moving code out and back is the identity if and only if the tables know every opcode in it; in that case the drastic-error branch is not taken |
| `Relocation.DrasticErrorReached` | loader_dll/detours/detours.cpp:786-792 | with the unknown opcode 0F 04 the count on the way back is 8 instead of 5: the drastic-error branch is reachable |
| `Relocation.MovedTargets` | loader_dll/detours/detours.cpp:1151-1173 | every relative branch in the moved code goes where it went before |
| `Relocation.X86KnowsBrk` | loader_dll/detours/disasm.cpp:725 | the byte that fills a fresh trampoline is a known opcode in both tables, which the condition above rests on |
| `Relocation.PrologueWindow` | loader_dll/detours/detours.cpp:1149-1173 | the usual prologue of a Windows function is code that an attach can move, in five bytes of known opcodes |
| `HookList.JmpLeads` | loader_dll/detours/detours.cpp:75-81 | the generated five bytes are a near jump that leads, counted from the next instruction and modulo 2^32, to the address asked for |
| `HookList.JmpBytes` | loader_dll/detours/detours.cpp:75-81 | an input: the jump at 0x401000 to 0x501000 is E9 FB FF 0F 00 |
| `Patching.LeadsBy` | loader_dll/detours/detours.cpp:75-81 | decoded by the copy tables, that jump leads there too |
| `Patching.LongJumpFallsShort` | loader_dll/detours/detours.cpp:99-127 | a pointer is resolved to where its decoded jumps lead if and only if there is no EB leading to an E9; then the result is five bytes before the target of the E9 |
| `Patching.LongJumpMissed` | loader_dll/detours/detours.cpp:116-126 | an input: eight bytes of memory in which the jumps lead to 24 and the pointer is resolved to 19 |
| `Trampolines.TrampolinePool.Return` | loader_dll/detours/detours.cpp:599-607 | masking the low 16 bits finds the owning region; the slot, in use or not, is zeroed and heads the free list |
| `Trampolines.TrampolinePool.Free` | loader_dll/detours/detours.cpp:599-607 | returning a trampoline that is in use keeps all lists sound |
| `DoubleFree.SoundIffNoRepeats` | loader_dll/detours/detours.cpp:938-955 | trampolines in use are returned one after the other: afterwards the region list is sound with some free lists if and only if no two of them are the same, and then with those that have the returned slots in front |
| `DoubleFree.ReturnedTwice` | loader_dll/detours/detours.cpp:599-607 | an input: a trampoline returned twice in a row heads its free list and links to itself, so no finite list starts there |
| `DoubleFree.SlotCleared` | loader_dll/detours/detours.cpp:599-607 | a returned slot holds zeros but for the link to the slot that was first before, the region names it, and no other byte changes |
| `Trampolines.TrampolinePool.Alloc` | loader_dll/detours/detours.cpp:441-597 | a trampoline is returned exactly when a region, or the one just mapped, has its first free slot within reach; it is that slot; a region is mapped only when none was; all lists stay acyclic, aligned, disjoint |
| `Trampolines.RoomIff` | loader_dll/detours/detours.cpp:441-597 | there is a trampoline if and only if the first free slot of some region is in reach, or slot 3 of the region that the system would map |
| `Trampolines.ReachIs` | loader_dll/detours/detours.cpp:446-452 | a trampoline is in reach exactly within 0x7ff80000 bytes of the target, below 0xfff80000 and, for a target in the lower half, from 0x10000 on |
| `Trampolines.TrampolinePool.Search` | loader_dll/detours/detours.cpp:476-485 | the search finds a region if and only if one has its first free slot in reach |
| `Trampolines.TrampolinePool.TakeFirst` | loader_dll/detours/detours.cpp:464-474 | the first free slot is taken and filled with int 3, or refused because it is out of reach, with nothing changed |
| `Trampolines.TrampolinePool.NewRegion` | loader_dll/detours/detours.cpp:521-545 | the free list of a new region runs through slots 3 to 2047 in order, and the region heads the list |
| `Trampolines.FreePlusLive` | loader_dll/detours/detours.cpp:441-607 | in each region free and live slots together are always 2045 |
| `Trampolines.LiveInSlots` | loader_dll/detours/detours.cpp:464-474 | the trampolines in use are exactly the live slots of that count, by region and place |
| `Trampolines.FreeMeaning` | loader_dll/detours/detours.cpp:599-607 | freeing makes exactly that trampoline not live, and leaves the bytes of every other live one and of everything outside the pool |
| `Trampolines.TakeMeaning` | loader_dll/detours/detours.cpp:464-474 | a slot that is handed out was not live, is live afterwards, and no other live trampoline changes |
| `Trampolines.GrownMeaning` | loader_dll/detours/detours.cpp:521-545 | mapping a region changes nothing that was live and nothing outside it |
| `Patching.MoveCode` | loader_dll/detours/detours.cpp:1149-1173 | for code of known and unknown opcodes: the attach loop moves exactly the bytes that its stopping rules allow, writes inside the trampoline only, and with five bytes or more has moved the whole window exactly |
| `Patching.FillTrampoline` | loader_dll/detours/detours.cpp:1196-1250 | the trampoline gets pbRemain, pbDetour, cbTarget and the padding, behind the moved code a jump that leads behind the hooked code, and nothing else changes |
| `Patching.FilledOk` | loader_dll/detours/detours.cpp:1196-1250 | a filled trampoline serves its hook: moved code, jump to the rest, padding, fields |
| `Patching.BackLeads` | loader_dll/detours/detours.cpp:1240-1250 | in memory with such a trampoline, the end of the moved code leads to target + cbTarget |
| `Patching.WriteJump` | loader_dll/detours/detours.cpp:828-831 | committing an attach writes a jump that leads to pbDetour as it was read, and int 3 up to pbRemain as it reads after the jump |
| `Patching.JumpedIs` | loader_dll/detours/detours.cpp:828-831 | when the trampoline is apart from the window, that covers exactly the window |
| `Patching.RestoreCode` | loader_dll/detours/detours.cpp:773-792 | committing a detach, for any trampoline whose loop stays in memory: memory and count are those of the loop that reads cbTarget anew in each round |
| `Restoring.RestoredIsBack` | loader_dll/detours/detours.cpp:773-797 | on memory that loop is the one on the bytes of trampoline and target, whatever their opcodes |
| `Restoring.RestoresIfKnown` | loader_dll/detours/detours.cpp:773-797 | what the attach loop moved is restored in memory if and only if the tables know every opcode in it, and then the count is cbTarget |
| `Restoring.RestoresKnown` | loader_dll/detours/detours.cpp:773-797 | the trampoline of a hook on known code restores its saved code byte for byte, with the count cbTarget |
| `Restoring.DrasticCount` | loader_dll/detours/detours.cpp:786-792 | an input: with 0F 04 in the code the count that the loop ends with is 8 while cbTarget is 5 |
| `HookSteps.SoundOn` | loader_dll/detours/detours.cpp:828-831 | writing the jump of a hook leads from a sound process to a sound process in which it is on |
| `HookSteps.SoundOff` | loader_dll/detours/detours.cpp:773-797 | writing the saved code back leads to a sound process in which the hook is off |
| `HookSteps.SoundFree` | loader_dll/detours/detours.cpp:599-607 | returning an unused trampoline keeps all hooks and the code |
| `HookSteps.SoundTake` | loader_dll/detours/detours.cpp:464-474 | taking a trampoline keeps all hooks and the code; no hook uses it |
| `HookSteps.SoundSlot` | loader_dll/detours/detours.cpp:1149-1250 | filling a trampoline touches no free list, no hook and no code |
| `Hooks.Detours.Begin` | loader_dll/detours/detours.cpp:679-700 | one transaction at a time; a new one starts without operations, threads and error |
| `Rollback.SinceTaken` | loader_dll/detours/detours.cpp:464-474 | since a transaction began, one more trampoline has been taken, and nothing else that was in use or outside the pool has changed |
| `Rollback.SinceDropped` | loader_dll/detours/detours.cpp:702-722 | dropping an attach gives its trampoline back, and leaves what the other operations have done since the transaction began |
| `Hooks.Detours.UpdateThread` | loader_dll/detours/detours.cpp:980-1018 | suspends the thread and remembers it, or records the error; does nothing after an error or for the caller itself |
| `Hooks.Detours.Attach` | loader_dll/detours/detours.cpp:1029-1304 | on any code in use, of known or unknown opcodes, hooked, pending or in a trampoline: each refusal and each error with its code, pending error and failed pointer; success adds one pending operation whose trampoline, not in use before and in reach, holds the moved code; nothing else that was in use or outside the pool changes; on plain code the process stays sound |
| `Hooks.Detours.AttachTo` | loader_dll/detours/detours.cpp:1131-1304 | from the allocation on: on any failure the trampoline goes back and no operation is added |
| `Hooks.Detours.Detach` | loader_dll/detours/detours.cpp:1306-1392 | through any pointer to memory: each refusal and each error by the fields found there; success adds one pending operation for the target they name, a second time as well as the first; nothing else changes |
| `Hooks.Detours.Abort` | loader_dll/detours/detours.cpp:702-744 | after any attaches and detaches: every byte outside the pool, every trampoline that was in use and its bytes, every pointer and the suspension of every thread are as when the transaction began, and nothing more is in use; the owner is cleared; in an orderly process exactly the hooks that are on remain |
| `Hooks.Detours.Commit` | loader_dll/detours/detours.cpp:751-978 | with a pending error it is the abort, for any attaches and detaches; otherwise memory, error and failed pointer are those of the two loops, pointers lead to trampolines or targets, threads are moved and resumed once; the pool is sound afterwards if and only if the detaches name different trampolines; in an orderly process no error arises and exactly the hooks that are to be on remain |
| `Hooks.Detours.TidyCommits` | loader_dll/detours/detours.cpp:770-860 | in a process whose operations are all about hooks, repeated or not, a commit stays in memory, leaves the lists of the pool alone and meets no error |
| `Carrying.SoundCarryAll` | loader_dll/detours/detours.cpp:770-860 | the first loop, on any operations about hooks, leads from a sound process to the sound process in which their hooks are switched one by one |
| `Carrying.SoundReturned` | loader_dll/detours/detours.cpp:938-955 | returning the trampolines of hooks that are off keeps the process sound and drops exactly those hooks |
| `Hooks.Detours.WriteOperations` | loader_dll/detours/detours.cpp:770-860 | for any operations that stay in memory, the first loop carries them out in list order, with the drastic error and its pointer when a count comes out different |
| `Hooks.Detours.WriteBack` | loader_dll/detours/detours.cpp:772-803 | one detach: the code copied back, ERROR_INVALID_DATA and the failed pointer if the count is not cbTarget, the pointer set to the target |
| `Hooks.Detours.MoveThreads` | loader_dll/detours/detours.cpp:862-936 | every suspended thread whose context is to be had is moved by every operation in list order |
| `HookThreads.CommitMoves` | loader_dll/detours/detours.cpp:883-930 | in an orderly process a thread at byte k of code that is being hooked goes on at byte k of the trampoline; one at byte k of a trampoline that is being returned goes on at byte k of the function if and only if k is below the size of a pointer |
| `HookThreads.CommitLeaves` | loader_dll/detours/detours.cpp:883-930 | a thread that is in no code that is being hooked, and not among the first four bytes of a trampoline that is being returned, goes on where it is |
| `HookThreads.CommitMovesOnce` | loader_dll/detours/detours.cpp:862-936 | a thread that was suspended more than once goes on where it would if it had been suspended once |
| `HookThreads.ThreadsFixed` | loader_dll/detours/detours.cpp:862-936 | each thread is moved as often as it is in the list of suspended threads, and no other thread is |
| `HookThreads.FifthByteStays` | loader_dll/detours/detours.cpp:883-905 | an input: of a trampoline that is returned, a thread at the fourth byte is moved and one at the fifth is not |
| `Hooks.Detours.FreeRemoved` | loader_dll/detours/detours.cpp:938-955 | exactly the trampolines of the detaches are returned, in list order, as often as they are named |
| `Pending.TurnedStep` | loader_dll/detours/detours.cpp:770-860 | carrying out the first operation switches exactly its own hook and leaves the rest to do |
| `Pending.DroppedStep` | loader_dll/detours/detours.cpp:938-955 | one more freed trampoline drops exactly its own hook, and none for an attach |
| `Pending.AbortedHooks` | loader_dll/detours/detours.cpp:702-722 | freeing the trampolines of the attaches one by one drops exactly the hooks that are off |
| `Pending.CommittedSteps` | loader_dll/detours/detours.cpp:751-978 | switching the hooks one by one and freeing the trampolines of the detaches one by one gives the hooks after the commit |
| `Pending.CommittedOn` | loader_dll/detours/detours.cpp:751-978 | a commit leaves only hooks that are in place |
| `HookRoundTrip.HookVisible` | loader_dll/detours/detours.cpp:828-831 | in every reachable state, while a hook is on, its target leads to the detour, with int 3 behind the jump, and holds the original code while it is not; its trampoline holds the moved code, whose end leads behind the hooked code |
| `HookRoundTrip.NoHooks` | loader_dll/detours/detours.cpp:751-978 | without hooks every byte outside the pool is what it was before the first hook, and no trampoline is in use |
| `HookRoundTrip.LiveIsHooked` | loader_dll/detours/detours.cpp:441-607 | the trampolines in use are exactly those of the hooks |
| `HookRoundTrip.AttachAndDetach` | loader_dll/detours/detours.cpp:1023-1392 | on plain code attach, commit, detach, commit is the identity on code and on the set of trampolines in use, and leaves the pointer at the resolved target; it attaches whenever there is a trampoline in reach and the code fits it; a failed attach leaves the pointer too |
| `HookRoundTrip.AttachOne` | loader_dll/detours/detours.cpp:1023-1304 | on plain code attach and commit adds one hook that is on; the target then leads to the detour, and the trampoline back; the attach is given a trampoline if and only if there is one in reach, and one that was not in use |
| `HookStacks.UnhookedIff` | loader_dll/detours/detours.cpp:770-860 | hooks attached one after the other, overlapping or not, and taken back in any order: the code is as before if and only if at each byte the hook taken back last had been put on the code itself, or on a jump with the same byte |
| `HookStacks.RestoredIffFirstLast` | loader_dll/detours/detours.cpp:770-860 | when no jump has a byte in common with the code it covers: if and only if over each byte the hook that came first goes last |
| `HookStacks.OverlapsReversed` | loader_dll/detours/detours.cpp:770-860 | if every two hooks that overlap go in the reverse of the order in which they came, the code is given back; hooks apart may go in any order |
| `HookStacks.ReverseRestores` | loader_dll/detours/detours.cpp:770-860 | hooks that go in the reverse order give the code back, however they overlap |
| `HookStacks.TwoInOrder` | loader_dll/detours/detours.cpp:770-860 | two hooks that go in the order in which they came give the code back if and only if the jump of the first has the bytes of the code wherever both are |
| `HookStacks.FirstJumpStays` | loader_dll/detours/detours.cpp:770-860 | two hooks on one function that go in the order in which they came leave the jump of the first one there |
| `HookStacks.NotOnlyReversed` | loader_dll/detours/detours.cpp:770-860 | of three hooks on one function the last two may go in the order in which they came, so the reverse order is not necessary |
| `HookStacks.StaleJump` | loader_dll/detours/detours.cpp:770-860 | an input: two hooks on mov edi, edi; push ebp; mov ebp, esp end as a jump to the first detour |
| `HookStacks.TogetherRestores` | loader_dll/detours/detours.cpp:770-860 | hooks of one transaction all save the same code, so any order of taking them back restores it; while they are there each byte is that of the last one written |
| `HookLayers.CarriedWrites` | loader_dll/detours/detours.cpp:770-860 | for any operations on known code outside the pool, overlapping and repeated ones included, the first loop writes the jumps and the saved code in list order, without an error, and leaves the lists of the pool sound |
| `HookLayers.LastWrittenStays` | loader_dll/detours/detours.cpp:770-860 | two attaches to one function in one transaction leave the jump of the first one, which is last in the list |
| `HookLayers.HookOnce` | loader_dll/detours/detours.cpp:1029-1304 | attach and commit on known code outside the pool, hooked or not: a trampoline is given if and only if there is one in reach; then the target leads to the detour and the trampoline back, one more trampoline is in use, every other hook keeps its own |
| `HookLayers.UnhookOnce` | loader_dll/detours/detours.cpp:1306-1392 | detach and commit, in any order: what the attach had found is written back, its trampoline alone is no longer in use, every other hook keeps its own |
| `HookLayers.KeptOn` | loader_dll/detours/detours.cpp:770-860 | runs compose: what holds outside the pool after some hooks holds after one more, as if each had been written on the code of before |
| `HookLayers.KeptOff` | loader_dll/detours/detours.cpp:770-860 | the same for one more hook taken back |
| `HookLayers.HookTwice` | loader_dll/detours/detours.cpp:1023-1392 | two hooks on one function through two pointers, taken back in the order in which they came: both attaches succeed if and only if the code fits a trampoline, the system allows it and the pool has a trampoline in reach each time; then both pointers lead to the function again, no trampoline is left, and the function still jumps to the first detour |
| `HookRuns.RunSteps` | loader_dll/detours/detours.cpp:679-1392 | any list of attaches and detaches, each committed on its own, on overlapping and hooked code, mapping regions or not: memory outside the pool is what the jumps and saved codes write in that order, and the pool is what the allocations make of it; the run ends early only at an attach that is refused |
| `HookRuns.HookAndUnhook` | loader_dll/detours/detours.cpp:679-1392 | any number of hooks, attached one after the other and then all detached in any order: outside the pool a byte is as before if and only if the last hook over it to go was put on the code itself, or on a jump with the same byte; pointers and trampolines in use are as before |
| `HookRuns.Finished` | loader_dll/detours/detours.cpp:770-860 | such a run is a stack of hooks in the sense of `HookStacks.UnhookedIff`: each saved what it found, and those taken off are those put on |
| `ImageData.CImageData.Find` | loader_dll/detours/image.cpp:534-571 | finds a payload exactly when the map has its GUID, at its bytes and size |
| `ImageData.CImageData.Delete` | loader_dll/detours/image.cpp:573-599 | map removal, true exactly when the GUID was there; the other records close up |
| `ImageData.CImageData.Set` | loader_dll/detours/image.cpp:601-634 | map update with the payload zero-padded to 8; growth keeps the contents; fails if and only if memory is refused and what remains without the old payload does not fit together with the new record; then the old payload is gone, so that the map is unchanged if and only if there was none |
| `ImageData.PayloadLost` | loader_dll/detours/image.cpp:601-634 | an input: an image read with one payload loses it when it is set again without memory |
| `ImageData.CImageData.SizeTo` | loader_dll/detours/image.cpp:443-470 | grows only when needed, copies the contents, replaces the caller's buffer once |
| `ImageData.CImageData.Enumerate` | loader_dll/detours/image.cpp:505-532 | from the place of the k-th record it returns the k-th record and the place of the next, and ends behind the last |
| `ImageData.CImageData.All` | loader_dll/detours/image.cpp:505-532 | enumerating from 0 yields each record exactly once, in order, and ends |
| `ImageData.DecodeEncode` | loader_dll/detours/image.cpp:481-503 | a buffer of well-formed records stands for one list of records only |
| `ImageData.ContentsWithout` | loader_dll/detours/image.cpp:573-599 | on distinct GUIDs, taking out a record is map removal and keeps them distinct |
| `ImageData.ContentsAppend` | loader_dll/detours/image.cpp:601-634 | appending a record under a new GUID is map update and keeps them distinct |
| `ImportList.CImports.EditImports` | loader_dll/detours/image.cpp:1439-1582 | for any callbacks that end their insertions the edit ends, with the list, context and result of the edit function, also when a callback stops it; m_nImportFiles is the length of the list |
| `ImportList.EditKeepsOrigins` | loader_dll/detours/image.cpp:1439-1582 | whatever the callbacks answer, the image's own imports stay in the list in order, with all that the image said of them |
| `ImportList.DllAdded` | loader_dll/detours/image.cpp:1439-1582 | a client that wants one DLL more gets it before all others, by its name and without symbols, and nothing else changes |
| `ImportList.FilesRenamed` | loader_dll/detours/image.cpp:1491-1547 | with callbacks that rename, every file and symbol gets the name or the ordinal that was answered, and keeps all else |
| `ImportList.CImports.ResetImports` | loader_dll/detours/image.cpp:2096-2148 | ends with success, without byways, every file and symbol reset, and the count right |
| `ImportList.ResetUnchanged` | loader_dll/detours/image.cpp:1341-1402 | after a reset CheckImportsNeeded returns FALSE if and only if each file has an original name and each symbol an original name, a nonzero original ordinal, or no name |
| `ImportList.OrdinalZeroStays` | loader_dll/detours/image.cpp:1516-1541 | a symbol imported by ordinal 0 keeps a client's name through a reset |
| `ImportList.ResetTwice` | loader_dll/detours/image.cpp:2096-2148 | resetting again changes nothing |
| `ImportList.CImports.CheckImportsNeeded` | loader_dll/detours/image.cpp:1352-1402 | TRUE exactly when there is a byway or a changed name; counts tables, thunks and name bytes of the whole list |
| `ImportTable.SizesPredicted` | loader_dll/detours/image.cpp:1352-1402 | for any list the emission uses exactly the counted name bytes and lookup thunks, at most as many bound thunks, and five double words for each file |
| `ImportTable.BywayThunks` | loader_dll/detours/image.cpp:1800-1815 | a byway imports ordinal 1 and nothing else, by both tables that its descriptor names |
| `ImportWriter.Writer.AddFiles` | loader_dll/detours/image.cpp:1787-1844 | no Allocate fails, both tables are used up exactly, and the buffer holds the emitted tables with every other block intact |
| `ImportTable.ImportsBack` | loader_dll/detours/image.cpp:1136-1274 | a reader of the table finds every file with its name, kind, forwarder chain, first thunk and symbols, in order, if and only if the lookup table does not come to one thunk |
| `ImportTable.LoneFileLost` | loader_dll/detours/image.cpp:659-667 | one file without symbols gets no OriginalFirstThunk, and the reader finds an empty list |
| `OutputBuffer.Output.AllocateOutput` | loader_dll/detours/image.cpp:915-932 | the next block, rounded up to 8 and cleared, or none when the buffer is used up |
| `OutputBuffer.Output.SizeOutputBuffer` | loader_dll/detours/image.cpp:886-913 | at least the asked size, the old bytes kept, the length a multiple of the file alignment |
| `OutputBuffer.CImageThunks.Allocate` | loader_dll/detours/image.cpp:669-680 | one thunk at the next place, or nothing when the table is full |
| `OutputBuffer.CImageChars.Allocate` | loader_dll/detours/image.cpp:710-762 | hint, name and NUL at the next even place, or nothing when the table is full |
| `OutputBuffer.BlocksApart` | loader_dll/detours/image.cpp:1752-1785 | the seven blocks of a section do not meet and lie within it |
| `DetourSection.CImage.AlignFileData` | loader_dll/detours/image.cpp:1026-1042 | clears the output buffer only when the file address is not aligned |
| `DetourSection.CImage.LayOut` | loader_dll/detours/image.cpp:1765-1785 | every allocation of the section succeeds, and head, saved headers and payload are in place |
| `DetourSection.CImage.WriteSection` | loader_dll/detours/image.cpp:1598-1905 | a section is written exactly when an import changed or there is a payload; it fails if and only if one is due, the output buffer is too small for it and there is no memory; the last AlignFileData leaves the filled buffer alone; the section holds every block, and the headers name it; SizeOfImage is the least multiple of the section alignment that the new section is within, its raw data the least whole number of file blocks |
| `DetourSection.HeaderMarked` | loader_dll/detours/image.cpp:1693-1732 | the written header starts with its size and the signature, and keeps the CLR flags |
| `DetourSection.Read` | loader_dll/detours/image.cpp:1276-1324 | the two loops over the section headers compute the restored headers; covers lines 1112-1133 too |
| `DetourSection.ReadWritten` | loader_dll/detours/image.cpp:1276-1332 | reading what was written gives back the section list, import, bound-import and IAT entries and SizeOfImage, the saved headers and the payload byte for byte, and no .detour section remains |
| `DetourSection.ImportsWritten` | loader_dll/detours/image.cpp:1787-1844 | the import directory of the written headers leads a reader to the list that was written, if and only if it is not one file without symbols |
| `DetourSection.DetourMustBeLast` | loader_dll/detours/image.cpp:1276-1310 | a .detour section is removed on reading if and only if it is the last section |
| `DetourSection.LastSectionDropped` | loader_dll/detours/image.cpp:1276-1310 | an input: of .detour and a section behind it, the other one is dropped |
| `DetourSection.ParsedNone` | loader_dll/detours/image.cpp:1276-1324 | an image without a .detour section is read with its headers as they are |
| `ImportBlock.BuildBlock` | loader_dll/detours/creatwth.cpp:468-550 | no copy of a name fails, the final obStr is cbNew, and the block has all its parts |
| `ImportBlock.CopyString` | loader_dll/detours/creatwth.cpp:64-92 | fails exactly when string and NUL do not fit, and then leaves a truncated, terminated copy |
| `ImportBlock.PartsInOrder` | loader_dll/detours/creatwth.cpp:468-477 | new descriptors, old descriptors, thunks and names follow one another without meeting, the thunks 8-aligned |
| `ImportBlock.BlockReads` | loader_dll/detours/creatwth.cpp:520-550 | for any DLL names: the old descriptors are intact, and each new descriptor leads to its NUL-terminated name and to two thunk tables of ordinal 1 |
| `Proxy.Proxy.ReceivePacketsFromServer` | bot/src/proxy.cpp:398-584 | over all runs the processor has got, for each End, one packet with all that was collected, and every other packet once; the client has got the stream in order minus blocked packets that were not injected; the server gets one patch request for each state request dealt with while clientless and before the agent server, and nothing else; a run ends with a login if and only if a successful login response is queued, and throws if and only if a client is missing that a queued packet is for |
| `Proxy.AnswerCount` | bot/src/proxy.cpp:470-481 | there are as many patch requests as packets with the opcode 0x6005 |
| `Proxy.ClientGets` | bot/src/proxy.cpp:575-582 | packet by packet: nothing without a client, the login response with the bot's address, an injected packet whatever is blocked, any other unless its opcode is blocked |
| `Proxy.ThreePieces` | bot/src/proxy.cpp:483-571 | by opcode numbers: Begin, Data and End of each of the four families are delivered as one packet with the opcode of Data |
| `Proxy.Proxy.HandleLogin` | bot/src/proxy.cpp:422-468 | a successful login response is handed on rewritten, both connections close, the processor still gets it |
| `Proxy.Proxy.Dispatch` | bot/src/proxy.cpp:483-571 | one packet changes exactly its family's container and what the processor gets |
| `Proxy.BracketCollects` | bot/src/proxy.cpp:483-571 | with any other packets and families in between, what has been collected is the Begin packet under the Data opcode with all payloads of the bracket in order |
| `Proxy.BracketDelivers` | bot/src/proxy.cpp:483-571 | an End delivers exactly that one packet |
| `Proxy.BlockingUnseen` | bot/src/proxy.cpp:412-416 | what is blocked makes no difference to the processor |
| `Proxy.Proxy.ReceivePacketsFromClient` | bot/src/proxy.cpp:318-375 | every packet goes to the processor once; to the server go, in order, all but blocked ones that were not injected and client identifications; in clientless mode all injected ones |
| `Proxy.ServerGets` | bot/src/proxy.cpp:352-372 | packet by packet: 0x2001 never, an injected packet whatever is blocked, any other unless its opcode is blocked |
| `Proxy.Proxy.Inject` | bot/src/proxy.cpp:60-80 | into the incoming queue of the source, or the clientless queue, or nowhere without a connection |
| `Commands.SkillEngine.CommandResponse` | bot/src/packetProcessor.cpp:1339-1411 | queued, failed and ended commands; CommandSkipped at an end exactly when the popped front is a cast that was not executed; an end without an accepted command pops a pending cancel |
| `Commands.SkillEngine.CommandRequested` | bot/src/packetProcessor.cpp:1329-1337 | a request joins the pending commands |
| `Commands.SkillEngine.SkillBegin` | bot/src/packetProcessor.cpp:1557-1650 | the last matching command is marked; exactly its predecessors are discarded unless it can be executed beside them, in which case exactly it goes; the cast is remembered when its end is expected, unless its id is known already |
| `Commands.SkillEngine.FindSkill` | bot/src/packetProcessor.cpp:1557-1576 | the search from the back finds the last match and nothing when there is none |
| `Commands.SkillEngine.KnockedBackOrDown` | bot/src/packetProcessor.cpp:1881-1894 | every accepted command is interrupted, the pending ones stay, no cast is awaited |
| `Commands.SkillEngine.Reset` | bot/src/state/skillEngine.cpp:61-65 | every command that is pending or accepted is forgotten, no cast is awaited |
| `Commands.QueuesInOrder` | bot/src/packetProcessor.cpp:1329-1411 | in every reachable state the accepted commands followed by the pending ones are a subsequence of the requests, in order |
| `Commands.LastMatch` | bot/src/packetProcessor.cpp:1557-1576 | the place it names matches and none behind it does; without one nothing matches |
| `Commands.ChainAndAttack` | bot/src/packetProcessor.cpp:1557-1576 | an input: the second piece of a chain is matched with the cast of the first, a common attack with the attack command |
| `Experience.SelfEntity.UpdateExperience` | bot/src/packetProcessor.cpp:1294-1321 | terminates; fails exactly when the new total is outside the level table; otherwise 0 <= exp < exp_C(level) and the total changes by exactly the gain |
| `Experience.TotalDetermines` | bot/src/packetProcessor.cpp:1300-1314 | a total belongs to one level and experience only |
| `Experience.SelfEntity.GainAndLose` | bot/src/packetProcessor.cpp:1294-1321 | a gain followed by an equal loss returns the same level and experience |
| `Items.Storage.MoveItem` | bot/src/storage/storage.cpp:46-101 | slot by slot: a split leaves the rest in its slot and puts exactly the amount into the free one; a whole move and a swap keep the items; a stack gets as much as fits; every other slot is as before; it throws exactly for a source out of range, or for an item whose destination is; stacks that are put together change the sum by exactly what is added minus what is taken away |
| `Items.GainedNothing` | bot/src/storage/storage.cpp:62-78 | putting stacks together keeps the sum if and only if the amount is within both the source stack and the space left, or the source stack is as large as the space and the amount larger; for a stack onto itself, if and only if the amount is within the space or the stack is empty |
| `Items.BuybackQueue.AddItem` | bot/src/storage/buybackQueue.cpp:32-40 | the item comes last; the oldest of five goes |
| `Items.BuybackQueue.DestroyItem` | bot/src/storage/buybackQueue.cpp:59-65 | the later items move up in order |
| `Items.SelfEntity.DoTransfer` | bot/src/packetProcessor.cpp:841-860 | the containers are those of the pure step; the quantity of every item stays as it is, except that an item whose destination is taken or out of range is lost after it has been withdrawn |
| `Items.TransferredSlots` | bot/src/packetProcessor.cpp:841-860 | slot by slot: the item itself goes to the free slot of the other container |
| `Items.SelfEntity.DoSell` | bot/src/packetProcessor.cpp:900-924 | the containers and the queue are those of the pure step; the quantity of every item stays as it is, up to the oldest item of a full buyback queue and the 16-bit wrap when more is sold than there is |
| `Items.SoldSlots` | bot/src/packetProcessor.cpp:900-924 | slot by slot: the amount sold is the newest in the queue, the rest stays in its slot |
| `Items.WrappedNothing` | bot/src/packetProcessor.cpp:906-913 | a sale makes nothing up if and only if it is at most the stack |
| `Items.SelfEntity.DoBuyback` | bot/src/packetProcessor.cpp:925-959 | nothing is gained or lost, whatever quantity is asked for |
| `Items.BoughtSlots` | bot/src/packetProcessor.cpp:925-959 | slot by slot: part of a stack comes out of the queue and leaves the rest there, or the whole item comes back and the later ones move up |
| `Items.NothingTraded` | bot/src/packetProcessor.cpp:900-959 | when there is nothing to sell or to buy back, or no room for it, nothing changes; exactly a place that does not exist throws |
| `Items.StepChanges` | bot/src/packetProcessor.cpp:822-1013 | each movement changes the quantity of a reference id by exactly what a transfer to a taken slot loses, stacks gain or lose, a sale wraps and a full queue drops |
| `Items.FairKeeps` | bot/src/packetProcessor.cpp:822-1013 | a movement keeps the quantity of every reference id if and only if it is fair, which a caller sees beforehand: a transfer goes to a free slot, an amount fits both stacks, a sale is at most the stack and the queue has room |
| `Items.FairRunKeeps` | bot/src/packetProcessor.cpp:822-1013 | over any list of movements, the quantity of every reference id is the same after each of them if and only if each is fair when it comes up |
| `Items.TransferLoses` | bot/src/packetProcessor.cpp:841-860 | an input: the only sword goes to a taken slot and is gone |
| `Items.StacksLose` | bot/src/storage/storage.cpp:62-78 | an input: 50 put onto 90 of at most 100 leave 100; 50 of 60 put onto themselves leave 50 |
| `Items.SaleLoses` | bot/src/packetProcessor.cpp:900-924 | an input: three sold of two leave 65535; a sale into a queue of five drops the oldest |
| `Items.SelfEntity.ApplyAll` | bot/src/packetProcessor.cpp:822-1013 | over any list of movements, up to the first that throws, the containers are those of the pure steps; when each movement is fair as it comes up, the quantity of every reference id over all containers and the queue is as before |
| `Waypoints.BreakUpLongMovements` | bot/src/bot.cpp:771-802 | terminates for any waypoints, with the points that belong between each pair, and every neighbouring pair within 1920 on both axes |
| `Waypoints.BetweenCount` | bot/src/bot.cpp:793-801 | a segment of larger axis offset M gets ceil(M/1920)-1 points, none when M = 0 |
| `Waypoints.BetweenOnSegment` | bot/src/bot.cpp:779-792 | every inserted point lies strictly inside its segment |
| `Waypoints.BetweenWalkable` | bot/src/bot.cpp:793-801 | within a segment each pair is within 1920 on both axes |
| `Waypoints.BetweenSpaced` | bot/src/bot.cpp:779-801 | from the end of a segment on, the inserted points are exactly 1920 apart on the larger axis |
| `Waypoints.BrokenKeeps` | bot/src/bot.cpp:793-801 | all original waypoints are there in order, the first first and the last last |
| `Waypoints.BrokenBetween` | bot/src/bot.cpp:793-801 | between two original neighbours lie exactly the points inserted for them |
| `ClientLaunch.ClientManager.ReapDeadClients` | client_manager/clientManager.cpp:238-251 | reports exactly the known clients whose process has exited, each once, and forgets exactly those |
| `ClientLaunch.ClientManager.SaveProcessInformation` | client_manager/clientManager.cpp:230-236 | the new id was never used |
| `ClientLaunch.ClientManager.HandleRequest` | client_manager/clientManager.cpp:59-113 | a start is answered with the new client's id, a heartbeat with the clients that died |
| `ClientLaunch.ClientManagerInterface.Wake` | bot/src/clientManagerInterface.cpp:152-190 | stop first, then the oldest start request, then a heartbeat |
| `ClientLaunch.ClientManagerInterface.Receive` | bot/src/clientManagerInterface.cpp:109-150 | the promise of the request in hand is fulfilled, or each death published |
| `ClientLaunch.System.StepHandle` | client_manager/clientManager.cpp:59-113 | keeps the protocol's invariant; after a heartbeat a client whose process has exited has been reported if and only if it was not killed |
| `ClientLaunch.System.StepPush` | bot/src/clientManagerInterface.cpp:40-61 | keeps the protocol's invariant when a caller that has found the thread running gets the mutex, even if the thread has stopped since |
| `ClientLaunch.System.StepReceive` | bot/src/clientManagerInterface.cpp:63-150 | keeps the protocol's invariant; all reported deaths are now published |
| `ClientLaunch.WhatTheBotSees` | bot/src/clientManagerInterface.cpp:40-61 | in every reachable state starts are fulfilled in FIFO order with different ids, each for its own request, and a death is published at most once and only for a client whose caller has its id |
| `ClientLaunch.KilledIsSilent` | client_manager/clientManager.cpp:253-269 | in every reachable state, the clients whose process has exited and which have not been reported are exactly those that were killed and those that the next heartbeat will find |
| `ClientLaunch.KilledUnreported` | client_manager/clientManager.cpp:253-269 | an input: a client that is killed and exits is not reported by the next heartbeat |

## Left out

- Hooks.Detours.Attach: asks that the code at the target be whole instructions of at most 15 bytes each, as the
  processor does, that it and the two bytes after it not be free memory of the pool, and that what is read for it be
  memory.
- Hooks.Detours.Detach: asks that the pointer lead to 32 bytes of memory.
- Hooks.Detours.Commit: asks that the pending operations read and write memory only; `Hooks.Detours.TidyCommits` and
  `HookLayers.CarriedWrites` say when they do.  Page protection is an answer of the system.
- Hooks.Detours.Abort: the marker that an attach stamps into the DOS header of the image is not modelled; the code
  leaves it there.
- Hooks.Detours.UpdateThread: does not look at the owner, as the code does not; what is suspended before a transaction
  begins is not resumed by it.
- HookLayers.HookTwice: the second attach needs no new region, and neither detour starts with a short jump.
- HookRuns.RunSteps: the code is whole instructions that the tables know, outside the pool; functions and detours start
  with no short jump and are no imports; regions that the system maps during the run are apart from each other and from
  that code.
- Trampolines.TrampolinePool.Alloc: the search for free address space is an answer of the system.
- Patching.SkipJmp: whether a jump goes through an import table is an answer of the system.
- Copier.InstructionCopier.CopyGroup: when the operand of FF 15 or FF 25 does not lead to memory, any address is
  reported.
- The trace output.
- OpcodeMap.LengthMatches: VEX, EVEX and XOP encodings, XBEGIN, and opcodes that the tables do not know are not
  considered.  Copy properties are relative to the tables.
- Checksum.RemoteModule.InstallHeaders: no call on the process fails, and e_lfanew is not negative.
- Out of memory for operations, list nodes and strings in `image.cpp`, except for the output buffer and the payload
  buffer.
- ImageData.CImageData.Find: asks for well-formed records with different GUIDs in a buffer that can be written; on
  others it can fail to advance.
- ImageData.CImageData.Set: sizes stay below 2^32.
- ImportTable.ImportsBack: the section is read at its own address; the search of RvaToVa through the other sections,
  and the names that Read takes from the original import table, are not modelled.  An ordinal is read back by its low
  16 bits.
- ImportList.CImports.EditImports: a byway callback that inserts without end does not end the edit, so an edit that
  ends is asked for.
- DetourSection.CImage.WriteSection: sizes stay within 31 bits, saved headers are a multiple of 8 long, and there is
  room for one more section header, which the code does not check.  Copying headers and sections to the file, and the
  fix-ups of extra data, of the debug directory and of the CLR header, are not modelled.
- DetourSection.ReadWritten: saved headers of no bytes are not recognised by Read, so at least one byte is asked for.
- Proxy.Proxy.ReceivePacketsFromServer: asks that Data and End follow a Begin of their family; the code reads an empty
  container otherwise.  What packet handlers do during a run (injecting, blocking) is not modelled, nor are sockets,
  encryption and keepalives.
- Commands.SkillEngine.SkillBegin: cooldown timers, the events it publishes, and the later packets about the end of a
  cast are not modelled.
- Experience.SelfEntity.UpdateExperience: experience stays within 64 bits; a packet without a gain does not normalise,
  as in the code.
- Items.Storage.MoveItem: the largest stack of an item is below 2^16, as its quantity is.
- Items.SelfEntity.ApplyAll: buying, picking up, dropping and items added by the server change quantities by design and
  are not modelled, nor are gold and the events.
- Waypoints.BreakUpLongMovements: exact numbers instead of floating point; positions on an absolute plane instead of
  regions.
- ClientLaunch.System.StepHandle: a launch does not fail and no message is malformed, so that there are no error
  replies; ids stay below 2^31.  The loops of both processes are modelled by their iterations, and the mutex by the
  phases in which it is free.  Fulfilment of every start in the end is not stated; one that is pushed after the stop is
  never fulfilled.
- The other Qt, configuration, logging, pathfinding, PK2, encryption and reinforcement-learning code: it would add
  nothing to these properties.
