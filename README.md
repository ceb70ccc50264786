# A verified model of the ART quick-compiler x86 assembler and its neighbours

This project models, in Dafny, four pieces of the Android runtime (ART) and its
quick compiler:

- **The x86 assembler of the quick compiler back end**
  (`compiler/dex/quick/x86/assemble_x86.cc`). It covers:
  - the `EncodingMap` table, one row per modelled opcode, each with its
    prefixes, opcode bytes, ModR/M extension, AX short form and immediate
    width;
  - the size predictor (`ComputeSize`, `GetInsnSize`);
  - every `Emit*` routine, as a method of the class `X86Mir2Lir` that
    appends to the byte buffer `codeBuffer`;
  - the offset walk (`AssignInsnOffsets`, `AssignOffsets`) over an array of
    LIR records;
  - the assembly pass (`AssembleInstructions`): branch relaxation, load
    fixups and the two CHECKs around each emission;
  - the retry loop of `AssembleLIR`.

  What each emitter appends is stated as a function of the table row and
  the operands (module `X86Encoding`). The pass and the loop are stated as
  functions over the LIR list (module `X86Fixup`). The methods in
  `X86Assembler` are proved to do exactly that.
- **`RegStorage`** (`compiler/dex/reg_storage.h`). This is the 16-bit
  packed register descriptor:
  - its shape, type and number fields;
  - the solo and pair constructors and the factories;
  - the conversions between doubles and singles;
  - `StorageSize`;
  - the three setters that overwrite `reg_` in place.
- **Three self-contained parts of `runtime/runtime.cc`:**
  - the callee-save spill masks and frame sizes of `CreateCalleeSaveMethod`;
  - the dex2oat argument list built by
    `AddCurrentRuntimeFeaturesAsDex2OatArguments`, including its
    `-implicit-checks` string;
  - the routing of statistics kinds in `ResetStats` and `GetStat`.
- **The mapping-table and vmap-table accessors of `OatFile::OatMethod`**
  (`runtime/oat_file-inl.h`).

The headline property is the assembler's run-time size check. The source
as written fails that check in five places, each listed under
"## Findings" with a member that exhibits it:
- 32-bit data;
- the 8- and 16-bit immediate moves, in both the emitter and the size rule;
- the 8- and 16-bit shifts by CL;
- LOCK CMPXCHG8B;
- the padding of an Align4 pseudo instruction.

The model uses the corrected table rows, emitters, kMovRegImm size rule
and pass. The properties below are proved of that corrected assembler:
- For every modelled opcode, the bytes the emitter appends number exactly
  what `GetInsnSize` predicts (`X86Encoding.InsnBytesLength`).
- From laid-out offsets and Align4 pads, no pass of the assembler can fail
  either CHECK (`X86Fixup.AssemblyNeverFailsCheck`).
- A successful assembly leaves every instruction at its own offset. The
  buffer then holds exactly the bytes of the live instructions and pads,
  in order (`X86Fixup.AssembledLayout`).

Bytes are `bv8`, the register descriptor is `bv16` and spill masks are
`bv32`. Addresses and counters are unbounded integers. Where the source
truncates, the truncation is written out: the `uint32_t` table offsets and
the `int32_t` statistics. The source pushes only the low byte of a data
word; `X86Encoding.DataBytesAsWritten` models that, while the model's
emitter pushes all four bytes.

## Model

| member | source | states |
|---|---|---|
| X86Encoding.EncodingMap | compiler/dex/quick/x86/assemble_x86.cc:25-377 | Each opcode is looked up to the table row that carries that opcode. |
| X86Encoding.TableWellFormed | compiler/dex/quick/x86/assemble_x86.cc:25-377 | Every row satisfies what its kind's size rule and emitter take for granted: no extra opcode bytes where the emitter writes one, an immediate width of 0, 1, 2 or 4, and so on. |
| X86Encoding.Sub32RIRow | compiler/dex/quick/x86/assemble_x86.cc:1128-1141 | The Sub32RI row the StartOfMethod macro encodes with is the table's own Sub32RI row. |
| X86Encoding.RegBits | compiler/dex/quick/x86/assemble_x86.cc:608-619 | A register operand written into a ModR/M field is its register number, below 32. |
| X86Encoding.ModrmForDisp | compiler/dex/quick/x86/assemble_x86.cc:583-592 | mod is 0 exactly when disp is 0 and the base is not BP; it is 1 exactly when an explicit displacement is needed and fits a signed byte; otherwise it is 2. |
| X86Encoding.ComputeSize | compiler/dex/quick/x86/assemble_x86.cc:379-408 | The size adds up, in order: the prefixes, the opcode bytes and the ModR/M byte; a SIB byte when asked for or when the base is SP; the displacement bytes ModrmForDisp calls for; and the immediate. It is at least 2. |
| X86Encoding.EntryInsnSize | compiler/dex/quick/x86/assemble_x86.cc:412-549 | The size rule of each encoding kind (no contract of its own). X86Encoding.InsnBytesLength and the per-kind BytesLength lemmas state that it counts exactly the emitted bytes, and X86Fixup.X86BranchSizesFixed and X86Fixup.X86LayoutFree state that it ignores branch displacements and layout. |
| X86Encoding.GetInsnSize | compiler/dex/quick/x86/assemble_x86.cc:410-550 | GetInsnSize: EntryInsnSize on the opcode's table row (no contract of its own). Its properties are those of EntryInsnSize. |
| X86Encoding.PrefixAndOpcodeBytes | compiler/dex/quick/x86/assemble_x86.cc:578-581 | The prefixes and opcode bytes are never empty. |
| X86Encoding.ModrmFields | compiler/dex/quick/x86/assemble_x86.cc:608-633 | mod, reg and rm (and likewise scale, index and base) are read back unchanged from the byte `mod<<6 \| reg<<3 \| rm`. |
| X86Encoding.DispBytes | compiler/dex/quick/x86/assemble_x86.cc:594-606 | EmitDisp appends 0, 1 or 4 bytes exactly when ModrmForDisp gives mod 0, 1 or 2. |
| X86Encoding.ModrmDispBytes | compiler/dex/quick/x86/assemble_x86.cc:608-619 | A memory operand is the ModR/M byte, one SIB byte for an SP base, then the displacement. |
| X86Encoding.ModrmSibDispBytes | compiler/dex/quick/x86/assemble_x86.cc:621-633 | An array operand is the ModR/M byte, the SIB byte, then the displacement. |
| X86Encoding.ImmBytes | compiler/dex/quick/x86/assemble_x86.cc:635-657 | The immediate takes exactly the row's immediate width. |
| X86Encoding.AddToLast | compiler/dex/quick/x86/assemble_x86.cc:659-669 | Adding to the last byte changes that byte by v and leaves the length and every earlier byte alone. |
| X86Encoding.OpRegOpcodeBytes | compiler/dex/quick/x86/assemble_x86.cc:659-669 | The +r opcode form is one byte shorter than ComputeSize (it has no ModR/M byte). |
| X86Encoding.OpRegBytes | compiler/dex/quick/x86/assemble_x86.cc:671-683 | The bytes plus the immediate width are ComputeSize for a register operand. |
| X86Encoding.OpMemBytes | compiler/dex/quick/x86/assemble_x86.cc:685-694 | The bytes plus the immediate width are ComputeSize for the memory operand [base + disp]. |
| X86Encoding.OpArrayBytes | compiler/dex/quick/x86/assemble_x86.cc:696-702 | The bytes plus the immediate width are ComputeSize with a SIB byte. |
| X86Encoding.MemRegBytes | compiler/dex/quick/x86/assemble_x86.cc:704-723 | The bytes plus the immediate width are ComputeSize for the memory operand; register-to-memory and memory-to-register give the same bytes. |
| X86Encoding.RegArrayBytes | compiler/dex/quick/x86/assemble_x86.cc:725-738 | The bytes plus the immediate width are ComputeSize with a SIB byte. |
| X86Encoding.ArrayImmBytes | compiler/dex/quick/x86/assemble_x86.cc:740-746 | The bytes, immediate included, are ComputeSize with a SIB byte. |
| X86Encoding.RegThreadBytes | compiler/dex/quick/x86/assemble_x86.cc:748-766 | A thread-local operand is sized as a 32-bit displacement. |
| X86Encoding.RegRegBytes | compiler/dex/quick/x86/assemble_x86.cc:768-777 | The bytes plus the immediate width are ComputeSize for a register pair. |
| X86Encoding.RegRegImmBytes | compiler/dex/quick/x86/assemble_x86.cc:779-794 | The bytes, immediate included, are ComputeSize for a register pair. |
| X86Encoding.RegMemImmBytes | compiler/dex/quick/x86/assemble_x86.cc:796-810 | The bytes, immediate included, are ComputeSize for the memory operand. |
| X86Encoding.RegImmBytes | compiler/dex/quick/x86/assemble_x86.cc:812-829 | The bytes are ComputeSize, less the opcode bytes when the register is AX and the row has an AX short form. |
| X86Encoding.MemImmBytes | compiler/dex/quick/x86/assemble_x86.cc:831-836 | The bytes, immediate included, are ComputeSize for the memory operand. |
| X86Encoding.ThreadImmBytes | compiler/dex/quick/x86/assemble_x86.cc:838-848 | The bytes, immediate included, are ComputeSize with a 32-bit displacement. |
| X86Encoding.MovRegImmBytes | compiler/dex/quick/x86/assemble_x86.cc:850-857 | The corrected B0+r / B8+r move takes ComputeSize less the opcode bytes (no ModR/M byte). |
| X86Encoding.ShiftRegImmBytes | compiler/dex/quick/x86/assemble_x86.cc:859-883 | A shift by one takes the short form with no immediate byte; any other count adds one byte. |
| X86Encoding.ShiftMemImmBytes | compiler/dex/quick/x86/assemble_x86.cc:913-931 | As for the register form, plus the memory operand's SIB and displacement bytes. |
| X86Encoding.ShiftRegClBytes | compiler/dex/quick/x86/assemble_x86.cc:885-897 | A shift by CL is the prefixes, the opcode and the ModR/M byte only. |
| X86Encoding.ShiftMemClBytes | compiler/dex/quick/x86/assemble_x86.cc:899-911 | A shift of memory by CL is the prefixes, the opcode and the memory operand only. |
| X86Encoding.RegCondBytes | compiler/dex/quick/x86/assemble_x86.cc:933-952 | SETcc on a register is the prefixes, 0F, 90\|cc and the ModR/M byte. |
| X86Encoding.MemCondBytes | compiler/dex/quick/x86/assemble_x86.cc:954-971 | SETcc on memory is the prefixes, 0F, 90\|cc and the memory operand. |
| X86Encoding.RegRegCondBytes | compiler/dex/quick/x86/assemble_x86.cc:973-996 | CMOVcc between registers is the opcode bytes with cc added, then the ModR/M byte. |
| X86Encoding.RegMemCondBytes | compiler/dex/quick/x86/assemble_x86.cc:998-1014 | CMOVcc from memory is the opcode bytes with cc added, then the memory operand. |
| X86Encoding.JmpBytes | compiler/dex/quick/x86/assemble_x86.cc:1016-1039 | JMP rel32 is 5 bytes; JMP rel8, JECXZ and an indirect JMP are 2. |
| X86Encoding.JccBytes | compiler/dex/quick/x86/assemble_x86.cc:1041-1056 | Jcc rel8 is 2 bytes and Jcc rel32 is 6. |
| X86Encoding.CallImmediateBytes | compiler/dex/quick/x86/assemble_x86.cc:1065-1073 | A direct call is the opcode and a 4-byte displacement. |
| X86Encoding.CallThreadBytes | compiler/dex/quick/x86/assemble_x86.cc:1075-1086 | A call through a thread-local slot is sized as a 32-bit displacement operand. |
| X86Encoding.PcRelBytes | compiler/dex/quick/x86/assemble_x86.cc:1088-1126 | A switch-table load is 3 bytes plus the prefixes and a 4-byte table offset; a table address is 1 byte plus the 4-byte offset. |
| X86Encoding.UnimplementedBytes | compiler/dex/quick/x86/assemble_x86.cc:1143-1149 | An encoding without an emitter fills its predicted size with int3 (0xCC). |
| X86Encoding.MacroBytes | compiler/dex/quick/x86/assemble_x86.cc:1128-1141 | The StartOfMethod macro: call +0, pop reg, and sub reg with the offset + 5 (no contract of its own; X86Encoding.MacroBytesLength gives its length). |
| X86Encoding.EntryInsnBytes | compiler/dex/quick/x86/assemble_x86.cc:1298-1443 | The emission switch: the bytes each kind's emitter appends (no contract of its own; X86Encoding.EntryInsnBytesLength ties it to the size rule). |
| X86Encoding.InsnBytes | compiler/dex/quick/x86/assemble_x86.cc:1298-1443 | The emission switch on the opcode's table row (no contract of its own; X86Encoding.InsnBytesLength ties it to GetInsnSize). |
| X86Encoding.InsnBytesLength | compiler/dex/quick/x86/assemble_x86.cc:1445-1447 | The CHECK after each emission holds for every modelled opcode: the bytes appended number exactly GetInsnSize. This holds with the corrected kMovRegImm size rule, which counts the prefixes (see Findings). |
| X86Encoding.EntryInsnBytesLength | compiler/dex/quick/x86/assemble_x86.cc:1294-1447 | On any well-formed row, the emission switch appends as many bytes as GetInsnSize's switch predicts. For kMovRegImm that prediction is the corrected one, prefixes included. |
| X86Encoding.PlainKindsBytesLength | compiler/dex/quick/x86/assemble_x86.cc:414-425 | The size check holds for kData, kNop, kNullary, kPrefix2Nullary, kRegOpcode and kReg. |
| X86Encoding.MemoryKindsBytesLength | compiler/dex/quick/x86/assemble_x86.cc:426-447 | The size check holds for the kinds with a memory, array or thread operand. |
| X86Encoding.ImmediateKindsBytesLength | compiler/dex/quick/x86/assemble_x86.cc:448-472 | The size check holds for the kinds with an immediate. kMovRegImm is checked against the corrected size rule (prefixes + 1 + immediate width). |
| X86Encoding.ShiftKindsBytesLength | compiler/dex/quick/x86/assemble_x86.cc:473-489 | The size check holds for the shifts. |
| X86Encoding.BranchKindsBytesLength | compiler/dex/quick/x86/assemble_x86.cc:490-545 | The size check holds for the conditional forms, jumps, calls, switch-table loads and the method-address macro. |
| X86Encoding.DataBytesLength | compiler/dex/quick/x86/assemble_x86.cc:414-415 | kData: the corrected emitter appends the 4 bytes predicted. |
| X86Encoding.NopBytesLength | compiler/dex/quick/x86/assemble_x86.cc:416-417 | kNop: the bytes appended number the nop's length operand. |
| X86Encoding.NullaryBytesLength | compiler/dex/quick/x86/assemble_x86.cc:418-419 | kNullary: one byte predicted, one appended. |
| X86Encoding.Prefix2NullaryBytesLength | compiler/dex/quick/x86/assemble_x86.cc:420-421 | kPrefix2Nullary: three bytes predicted, three appended. |
| X86Encoding.RegOpcodeBytesLength | compiler/dex/quick/x86/assemble_x86.cc:422-423 | kRegOpcode: the +r form appends ComputeSize less one. |
| X86Encoding.RegBytesLength | compiler/dex/quick/x86/assemble_x86.cc:424-425 | kReg: the bytes appended number what GetInsnSize predicts. |
| X86Encoding.MemBytesLength | compiler/dex/quick/x86/assemble_x86.cc:426-427 | kMem: the bytes appended number what GetInsnSize predicts. |
| X86Encoding.ArrayBytesLength | compiler/dex/quick/x86/assemble_x86.cc:428-429 | kArray: the bytes appended number what GetInsnSize predicts. |
| X86Encoding.MemRegBytesLength | compiler/dex/quick/x86/assemble_x86.cc:430-431 | kMemReg: the bytes appended number what GetInsnSize predicts. |
| X86Encoding.MemRegImmBytesLength | compiler/dex/quick/x86/assemble_x86.cc:432-433 | kMemRegImm: the bytes appended number what GetInsnSize predicts. |
| X86Encoding.ArrayRegBytesLength | compiler/dex/quick/x86/assemble_x86.cc:434-435 | kArrayReg: the bytes appended number what GetInsnSize predicts. |
| X86Encoding.ThreadRegBytesLength | compiler/dex/quick/x86/assemble_x86.cc:436-437 | kThreadReg (no emitter, int3 fill): the bytes appended number what GetInsnSize predicts. |
| X86Encoding.RegRegBytesLength | compiler/dex/quick/x86/assemble_x86.cc:438-439 | kRegReg: the bytes appended number what GetInsnSize predicts. |
| X86Encoding.RegRegStoreBytesLength | compiler/dex/quick/x86/assemble_x86.cc:440-441 | kRegRegStore: the bytes appended number what GetInsnSize predicts. |
| X86Encoding.RegMemBytesLength | compiler/dex/quick/x86/assemble_x86.cc:442-443 | kRegMem: the bytes appended number what GetInsnSize predicts. |
| X86Encoding.RegArrayBytesLength | compiler/dex/quick/x86/assemble_x86.cc:444-445 | kRegArray: the bytes appended number what GetInsnSize predicts. |
| X86Encoding.RegThreadBytesLength | compiler/dex/quick/x86/assemble_x86.cc:446-447 | kRegThread: the bytes appended number what GetInsnSize predicts. |
| X86Encoding.RegImmBytesLength | compiler/dex/quick/x86/assemble_x86.cc:448-457 | kRegImm: the bytes appended number what GetInsnSize predicts, the AX short form included. |
| X86Encoding.MemImmBytesLength | compiler/dex/quick/x86/assemble_x86.cc:458-459 | kMemImm: the bytes appended number what GetInsnSize predicts. |
| X86Encoding.ArrayImmBytesLength | compiler/dex/quick/x86/assemble_x86.cc:460-461 | kArrayImm: the bytes appended number what GetInsnSize predicts. |
| X86Encoding.ThreadImmBytesLength | compiler/dex/quick/x86/assemble_x86.cc:462-463 | kThreadImm: the bytes appended number what GetInsnSize predicts. |
| X86Encoding.RegRegImmBytesLength | compiler/dex/quick/x86/assemble_x86.cc:464-466 | kRegRegImm: the bytes appended number what GetInsnSize predicts. |
| X86Encoding.RegRegImmRevBytesLength | compiler/dex/quick/x86/assemble_x86.cc:465-466 | kRegRegImmRev: the bytes appended number what GetInsnSize predicts. |
| X86Encoding.RegMemImmBytesLength | compiler/dex/quick/x86/assemble_x86.cc:467-468 | kRegMemImm: the bytes appended number what GetInsnSize predicts. |
| X86Encoding.RegArrayImmBytesLength | compiler/dex/quick/x86/assemble_x86.cc:469-470 | kRegArrayImm (no emitter, int3 fill): the bytes appended number what GetInsnSize predicts. |
| X86Encoding.MovRegImmBytesLength | compiler/dex/quick/x86/assemble_x86.cc:471-472 | kMovRegImm: the corrected emitter appends exactly the corrected prediction, which is the prefixes, one opcode byte and the immediate (ComputeSize less the ModR/M byte). That is 2 for Mov8RI, 4 for Mov16RI and 5 for Mov32RI. Line 472's 1 + immediate width agrees with it except when the row has a prefix. |
| X86Encoding.ShiftRegImmBytesLength | compiler/dex/quick/x86/assemble_x86.cc:473-475 | kShiftRegImm: the bytes appended number what GetInsnSize predicts, with the shift-by-one short form. |
| X86Encoding.ShiftMemImmBytesLength | compiler/dex/quick/x86/assemble_x86.cc:476-479 | kShiftMemImm: the bytes appended number what GetInsnSize predicts. |
| X86Encoding.ShiftArrayImmBytesLength | compiler/dex/quick/x86/assemble_x86.cc:480-483 | kShiftArrayImm (no emitter, int3 fill): the bytes appended number what GetInsnSize predicts. |
| X86Encoding.ShiftRegClBytesLength | compiler/dex/quick/x86/assemble_x86.cc:484-485 | kShiftRegCl: on the corrected rows, the bytes appended number what GetInsnSize predicts. |
| X86Encoding.ShiftMemClBytesLength | compiler/dex/quick/x86/assemble_x86.cc:486-487 | kShiftMemCl: on the corrected rows, the bytes appended number what GetInsnSize predicts. |
| X86Encoding.ShiftArrayClBytesLength | compiler/dex/quick/x86/assemble_x86.cc:488-489 | kShiftArrayCl (no emitter, int3 fill): the bytes appended number what GetInsnSize predicts. |
| X86Encoding.RegCondBytesLength | compiler/dex/quick/x86/assemble_x86.cc:490-491 | kRegCond: the bytes appended number what GetInsnSize predicts. |
| X86Encoding.MemCondBytesLength | compiler/dex/quick/x86/assemble_x86.cc:492-493 | kMemCond: the bytes appended number what GetInsnSize predicts. |
| X86Encoding.ArrayCondBytesLength | compiler/dex/quick/x86/assemble_x86.cc:494-495 | kArrayCond (no emitter, int3 fill): the bytes appended number what GetInsnSize predicts. |
| X86Encoding.RegRegCondBytesLength | compiler/dex/quick/x86/assemble_x86.cc:496-497 | kRegRegCond: the bytes appended number what GetInsnSize predicts. |
| X86Encoding.RegMemCondBytesLength | compiler/dex/quick/x86/assemble_x86.cc:498-499 | kRegMemCond: the bytes appended number what GetInsnSize predicts. |
| X86Encoding.JccBytesLength | compiler/dex/quick/x86/assemble_x86.cc:500-506 | kJcc: 2 bytes predicted and appended for Jcc8, 6 for Jcc32. |
| X86Encoding.JmpBytesLength | compiler/dex/quick/x86/assemble_x86.cc:507-517 | kJmp: the bytes appended number what GetInsnSize predicts, for every jump form. |
| X86Encoding.JmpThreadBytesLength | compiler/dex/quick/x86/assemble_x86.cc:507-517 | A jump through a thread-local slot appends the size predicted for a 32-bit displacement operand. |
| X86Encoding.CallBytesLength | compiler/dex/quick/x86/assemble_x86.cc:518-531 | kCall: the bytes appended number what GetInsnSize predicts, for every call form. |
| X86Encoding.CallImmediateBytesLength | compiler/dex/quick/x86/assemble_x86.cc:520 | CallI: 5 bytes predicted and appended. |
| X86Encoding.CallMemBytesLength | compiler/dex/quick/x86/assemble_x86.cc:522-523 | CallM: the memory operand's size predicted and appended. |
| X86Encoding.CallThreadBytesLength | compiler/dex/quick/x86/assemble_x86.cc:526-527 | CallT: the thread-slot operand's size predicted and appended. |
| X86Encoding.CallOtherBytesLength | compiler/dex/quick/x86/assemble_x86.cc:521-525 | CallR and CallA (no emitter case, int3 fill): the bytes appended number what GetInsnSize predicts. |
| X86Encoding.PcRelBytesLength | compiler/dex/quick/x86/assemble_x86.cc:532-539 | kPcRel: the bytes appended number what GetInsnSize predicts. |
| X86Encoding.PcRelLoadBytesLength | compiler/dex/quick/x86/assemble_x86.cc:532-539 | The switch-table load appends the size predicted for it. |
| X86Encoding.PcRelAdrBytesLength | compiler/dex/quick/x86/assemble_x86.cc:532-539 | The table-address move appends the size predicted for it. |
| X86Encoding.MacroBytesLength | compiler/dex/quick/x86/assemble_x86.cc:540-544 | kMacro: call, pop and sub take the 5 + 1 + ComputeSize predicted. |
| X86Encoding.MemOperandLayout | compiler/dex/quick/x86/assemble_x86.cc:608-619 | The ModR/M byte carries ModrmForDisp's mod, the register and the base. An SP base is followed by the SIB byte 0x24. A BP base never gets mod 0. The length is 1 + SIB + displacement. |
| X86Encoding.SpSibFields | compiler/dex/quick/x86/assemble_x86.cc:614-617 | The SIB byte written for an SP base is `0<<6 \| 4<<3 \| 4`: no index, base SP. |
| X86Encoding.DispRoundTrip | compiler/dex/quick/x86/assemble_x86.cc:594-606 | A 32-bit displacement is read back from its bytes; an omitted displacement was 0. |
| X86Encoding.ImmRoundTrip | compiler/dex/quick/x86/assemble_x86.cc:635-657 | An immediate within its row's width (IS_SIMM8, IS_SIMM16 or int32) is read back from its bytes. |
| X86Encoding.ConditionNibble | compiler/dex/quick/x86/assemble_x86.cc:1041-1056 | A condition code below 16 sits in the low nibble of 70\|cc and 80\|cc; the high nibble stays the opcode. |
| X86Encoding.ShortJccRoundTrip | compiler/dex/quick/x86/assemble_x86.cc:1041-1056 | Jcc8 is 70\|cc then the 8-bit displacement, and both cc and the displacement are read back. |
| X86Encoding.DataBytesAsWritten | compiler/dex/quick/x86/assemble_x86.cc:1298-1300 | As written, kData pushes one byte: the operand's low byte. |
| X86Encoding.DataSizeMismatchAsWritten | compiler/dex/quick/x86/assemble_x86.cc:414-415 | 32-bit data is predicted to take 4 bytes, but as written 1 byte is pushed. |
| X86Encoding.DataRoundTrip | compiler/dex/quick/x86/assemble_x86.cc:1298-1300 | The corrected kData appends the 4 predicted bytes, and they read back as the int32 operand. |
| X86Encoding.MovRegImmSizeAsWritten | compiler/dex/quick/x86/assemble_x86.cc:471-472 | As written, kMovRegImm is sized 1 + the row's immediate width. |
| X86Encoding.MovRegImmBytesAsWritten | compiler/dex/quick/x86/assemble_x86.cc:850-857 | As written, EmitMovRegImm emits B8+r and four immediate bytes whatever the row. |
| X86Encoding.MovRegImmMismatchAsWritten | compiler/dex/quick/x86/assemble_x86.cc:149-161 | Mov8RI and Mov16RI are predicted at 2 and 3 bytes, yet 5 are emitted, and the first is not Mov8RI's B0+r. |
| X86Encoding.Mov8RIEncoding | compiler/dex/quick/x86/assemble_x86.cc:149 | The corrected Mov8RI is B0+r and one immediate byte, 2 bytes as predicted, with the immediate read back. |
| X86Encoding.MovRegImmPrefixAsWritten | compiler/dex/quick/x86/assemble_x86.cc:471-472 | As written, the kMovRegImm size rule counts no prefix. Mov16RI (row at line 161, prefix 66) is predicted at 3, one byte short of its prefix, B8+r and two immediate bytes. |
| X86Encoding.Mov16RIEncoding | compiler/dex/quick/x86/assemble_x86.cc:161 | The corrected Mov16RI is 66, B8+r and two immediate bytes: 4 bytes, as the corrected size rule predicts, with the immediate read back. |
| X86Encoding.Mov32RIEncoding | compiler/dex/quick/x86/assemble_x86.cc:173 | Mov32RI is B8+r and four immediate bytes: 5 bytes as predicted, with the immediate read back. |
| X86Encoding.ShiftClRowAsWritten | compiler/dex/quick/x86/assemble_x86.cc:190-198 | The 8RC, 8MC, 16RC and 16MC rows as declared: the same kind, with an immediate width of 1. |
| X86Encoding.ShiftClMismatchAsWritten | compiler/dex/quick/x86/assemble_x86.cc:190-198 | Those rows as declared are not well formed: their predicted size is one byte more than EmitShiftRegCl/EmitShiftMemCl append. |
| X86Encoding.ShiftClSizeMismatch | compiler/dex/quick/x86/assemble_x86.cc:484-487 | Any shift-by-CL row with a one-byte opcode that declares a one-byte immediate is predicted one byte longer than emitted. |
| X86Encoding.ShiftClRegRows | compiler/dex/quick/x86/assemble_x86.cc:190 | The corrected 8RC and 16RC rows declare no immediate and are well formed. Their predicted size equals exactly what EmitShiftRegCl appends. |
| X86Encoding.ShiftClMemRows | compiler/dex/quick/x86/assemble_x86.cc:191 | The corrected 8MC and 16MC rows declare no immediate and are well formed. Their predicted size equals exactly what EmitShiftMemCl appends. |
| X86Encoding.OpMemBytesAsWritten | compiler/dex/quick/x86/assemble_x86.cc:685-694 | As written, EmitOpMem writes the prefixes, only the first opcode byte, then the memory operand. |
| X86Encoding.LockCmpxchg8bMismatchAsWritten | compiler/dex/quick/x86/assemble_x86.cc:349 | LOCK CMPXCHG8B m64 (opcode 0F C7, kind kMem) as written comes out one byte short of its predicted size. |
| X86Encoding.LockCmpxchg8bEncoding | compiler/dex/quick/x86/assemble_x86.cc:349 | The corrected kMem emitter writes F0 0F C7 before the memory operand. |
| X86Assembler.RoundUp4 | compiler/dex/quick/x86/assemble_x86.cc:1486 | RoundUp(x, 4) is the least multiple of 4 that is at least x. |
| X86Assembler.X86Mir2Lir.constructor | compiler/dex/quick/x86/assemble_x86.cc:1510 | The model's own initial state, from which AssembleLIR starts (the source's constructor is not part of this model): an empty code buffer, data offset 0 and no stored method address. |
| X86Assembler.X86Mir2Lir.Emit32 | compiler/dex/quick/x86/assemble_x86.cc:1120-1123 | Four bytes are appended, least significant first. |
| X86Assembler.X86Mir2Lir.EmitPrefix | compiler/dex/quick/x86/assemble_x86.cc:552-561 | The buffer grows by exactly the row's prefixes. |
| X86Assembler.X86Mir2Lir.EmitOpcode | compiler/dex/quick/x86/assemble_x86.cc:563-576 | The buffer grows by exactly the row's opcode bytes. |
| X86Assembler.X86Mir2Lir.EmitPrefixAndOpcode | compiler/dex/quick/x86/assemble_x86.cc:578-581 | The buffer grows by the prefixes and then the opcode bytes. |
| X86Assembler.X86Mir2Lir.EmitDisp | compiler/dex/quick/x86/assemble_x86.cc:594-606 | The buffer grows by exactly DispBytes. |
| X86Assembler.X86Mir2Lir.EmitModrmDisp | compiler/dex/quick/x86/assemble_x86.cc:608-619 | The buffer grows by the ModR/M byte, SIB-for-SP and displacement of ModrmDispBytes. |
| X86Assembler.X86Mir2Lir.EmitModrmSibDisp | compiler/dex/quick/x86/assemble_x86.cc:621-633 | The buffer grows by the ModR/M, SIB and displacement of ModrmSibDispBytes. |
| X86Assembler.X86Mir2Lir.EmitImm | compiler/dex/quick/x86/assemble_x86.cc:635-657 | The buffer grows by the immediate at the row's width. |
| X86Assembler.X86Mir2Lir.AddToLastByte | compiler/dex/quick/x86/assemble_x86.cc:659-669 | `code_buffer_.back() += v`: only the last byte changes. |
| X86Assembler.X86Mir2Lir.EmitOpRegOpcode | compiler/dex/quick/x86/assemble_x86.cc:659-669 | The buffer grows by OpRegOpcodeBytes. |
| X86Assembler.X86Mir2Lir.EmitOpReg | compiler/dex/quick/x86/assemble_x86.cc:671-683 | The buffer grows by OpRegBytes. |
| X86Assembler.X86Mir2Lir.EmitOpMem | compiler/dex/quick/x86/assemble_x86.cc:685-694 | The buffer grows by OpMemBytes, both opcode bytes included. |
| X86Assembler.X86Mir2Lir.EmitOpArray | compiler/dex/quick/x86/assemble_x86.cc:696-702 | The buffer grows by OpArrayBytes. |
| X86Assembler.X86Mir2Lir.EmitMemReg | compiler/dex/quick/x86/assemble_x86.cc:704-717 | The buffer grows by MemRegBytes. |
| X86Assembler.X86Mir2Lir.EmitRegMem | compiler/dex/quick/x86/assemble_x86.cc:719-723 | The buffer grows by the same bytes as EmitMemReg with the operands swapped. |
| X86Assembler.X86Mir2Lir.EmitRegArray | compiler/dex/quick/x86/assemble_x86.cc:725-732 | The buffer grows by RegArrayBytes. |
| X86Assembler.X86Mir2Lir.EmitArrayReg | compiler/dex/quick/x86/assemble_x86.cc:734-738 | The buffer grows by the same bytes as EmitRegArray. |
| X86Assembler.X86Mir2Lir.EmitArrayImm | compiler/dex/quick/x86/assemble_x86.cc:740-746 | The buffer grows by ArrayImmBytes. |
| X86Assembler.X86Mir2Lir.EmitRegThread | compiler/dex/quick/x86/assemble_x86.cc:748-766 | The buffer grows by RegThreadBytes. |
| X86Assembler.X86Mir2Lir.EmitRegReg | compiler/dex/quick/x86/assemble_x86.cc:768-777 | The buffer grows by RegRegBytes. |
| X86Assembler.X86Mir2Lir.EmitRegRegImm | compiler/dex/quick/x86/assemble_x86.cc:779-789 | The buffer grows by RegRegImmBytes. |
| X86Assembler.X86Mir2Lir.EmitRegRegImmRev | compiler/dex/quick/x86/assemble_x86.cc:791-794 | The buffer grows by RegRegImmBytes with the registers swapped. |
| X86Assembler.X86Mir2Lir.EmitRegMemImm | compiler/dex/quick/x86/assemble_x86.cc:796-805 | The buffer grows by RegMemImmBytes. |
| X86Assembler.X86Mir2Lir.EmitMemRegImm | compiler/dex/quick/x86/assemble_x86.cc:807-810 | The buffer grows by the same bytes as EmitRegMemImm. |
| X86Assembler.X86Mir2Lir.EmitRegImm | compiler/dex/quick/x86/assemble_x86.cc:812-829 | The buffer grows by RegImmBytes, the AX short form included. |
| X86Assembler.X86Mir2Lir.EmitMemImm | compiler/dex/quick/x86/assemble_x86.cc:831-836 | The buffer grows by MemImmBytes. |
| X86Assembler.X86Mir2Lir.EmitThreadImm | compiler/dex/quick/x86/assemble_x86.cc:838-848 | The buffer grows by ThreadImmBytes. |
| X86Assembler.X86Mir2Lir.EmitMovRegImm | compiler/dex/quick/x86/assemble_x86.cc:850-857 | The buffer grows by the corrected MovRegImmBytes. |
| X86Assembler.X86Mir2Lir.EmitShiftRegImm | compiler/dex/quick/x86/assemble_x86.cc:859-883 | The buffer grows by ShiftRegImmBytes. |
| X86Assembler.X86Mir2Lir.EmitShiftRegCl | compiler/dex/quick/x86/assemble_x86.cc:885-897 | The buffer grows by ShiftRegClBytes. |
| X86Assembler.X86Mir2Lir.EmitShiftMemCl | compiler/dex/quick/x86/assemble_x86.cc:899-911 | The buffer grows by ShiftMemClBytes. |
| X86Assembler.X86Mir2Lir.EmitShiftMemImm | compiler/dex/quick/x86/assemble_x86.cc:913-931 | The buffer grows by ShiftMemImmBytes. |
| X86Assembler.X86Mir2Lir.EmitRegCond | compiler/dex/quick/x86/assemble_x86.cc:933-952 | The buffer grows by RegCondBytes. |
| X86Assembler.X86Mir2Lir.EmitMemCond | compiler/dex/quick/x86/assemble_x86.cc:954-971 | The buffer grows by MemCondBytes. |
| X86Assembler.X86Mir2Lir.EmitRegRegCond | compiler/dex/quick/x86/assemble_x86.cc:973-996 | The buffer grows by RegRegCondBytes. |
| X86Assembler.X86Mir2Lir.EmitRegMemCond | compiler/dex/quick/x86/assemble_x86.cc:998-1014 | The buffer grows by RegMemCondBytes. |
| X86Assembler.X86Mir2Lir.EmitJmp | compiler/dex/quick/x86/assemble_x86.cc:1016-1039 | The buffer grows by JmpBytes. |
| X86Assembler.X86Mir2Lir.EmitJcc | compiler/dex/quick/x86/assemble_x86.cc:1041-1056 | The buffer grows by JccBytes. |
| X86Assembler.X86Mir2Lir.EmitCallMem | compiler/dex/quick/x86/assemble_x86.cc:1058-1063 | The buffer grows by OpMemBytes. |
| X86Assembler.X86Mir2Lir.EmitCallImmediate | compiler/dex/quick/x86/assemble_x86.cc:1065-1073 | The buffer grows by CallImmediateBytes. |
| X86Assembler.X86Mir2Lir.EmitCallThread | compiler/dex/quick/x86/assemble_x86.cc:1075-1086 | The buffer grows by CallThreadBytes. |
| X86Assembler.X86Mir2Lir.EmitPcRel | compiler/dex/quick/x86/assemble_x86.cc:1088-1126 | The buffer grows by PcRelBytes, with the table offset taken from operand 4 (load) or operand 1 (address). |
| X86Assembler.X86Mir2Lir.EmitMacro | compiler/dex/quick/x86/assemble_x86.cc:1128-1141 | The buffer grows by call +0, pop reg and sub reg, offset + 5. |
| X86Assembler.X86Mir2Lir.EmitUnimplemented | compiler/dex/quick/x86/assemble_x86.cc:1143-1149 | The buffer grows by one int3 per predicted byte. |
| X86Assembler.X86Mir2Lir.EmitEntry | compiler/dex/quick/x86/assemble_x86.cc:1294-1442 | The emission switch appends exactly EntryInsnBytes of the row and operands. |
| X86Assembler.X86Mir2Lir.AssembleInstructions | compiler/dex/quick/x86/assemble_x86.cc:1157-1450 | One pass returns the outcome EmitFrom specifies; a completed pass leaves the list as FixedList and the buffer as the outcome's. |
| X86Assembler.X86Mir2Lir.AssembleLive | compiler/dex/quick/x86/assemble_x86.cc:1166-1448 | One live instruction's step: its fixup, then (while the status is Success) its emission between the two CHECKs; after RetryAll nothing is appended. |
| X86Assembler.X86Mir2Lir.FixupLir | compiler/dex/quick/x86/assemble_x86.cc:1173-1283 | The in-place fixup of instruction i leaves the list one step further fixed; the instruction and the retry flag are those FixedInsn specifies. |
| X86Assembler.X86Mir2Lir.EmitChecked | compiler/dex/quick/x86/assemble_x86.cc:1291-1447 | The CHECKs pass exactly when the instruction starts at the buffer's end and its bytes number its predicted size; then those bytes are appended. |
| X86Assembler.X86Mir2Lir.AssignInsnOffsets | compiler/dex/quick/x86/assemble_x86.cc:1454-1475 | The list becomes AssignedOffsets of the old list, and the returned offset is the walk's end. |
| X86Assembler.X86Mir2Lir.PlaceInsn | compiler/dex/quick/x86/assemble_x86.cc:1459-1472 | One step of the walk: the instruction as Placed leaves it (offset set, Align4's padding mark set), and the next offset as Advance gives it. |
| X86Assembler.X86Mir2Lir.AssignOffsets | compiler/dex/quick/x86/assemble_x86.cc:1482-1498 | Offsets are assigned, and the data offset is the code's end rounded up to 4. |
| X86Assembler.X86Mir2Lir.DropMethodAddress | compiler/dex/quick/x86/assemble_x86.cc:1509-1513 | When the method address was stored but never used, its two setup instructions become nops, and nothing else changes. |
| X86Assembler.X86Mir2Lir.RetryPass | compiler/dex/quick/x86/assemble_x86.cc:1520-1536 | One turn of the retry loop agrees with AssembleRetries: it finishes with its result, or leaves a state whose loop result is the same one retry later. |
| X86Assembler.X86Mir2Lir.RetryLoop | compiler/dex/quick/x86/assemble_x86.cc:1520-1536 | The loop's outcome is AssembleRetries from zero retries; on success the list, buffer and data offset are the assembled ones. |
| X86Assembler.X86Mir2Lir.AssembleLIR | compiler/dex/quick/x86/assemble_x86.cc:1506-1553 | The outcome is AssembleRetries on the offsets assigned after the method-address drop; on success the array, buffer and data offset match it. |
| X86Assembler.MethodAddressDropped | compiler/dex/quick/x86/assemble_x86.cc:1509-1513 | Only the two setup instructions change, and only their is_nop flag; branch targets stay in the list. |
| X86Fixup.FixupInsn | compiler/dex/quick/x86/assemble_x86.cc:1166-1283 | A fixup only relaxes an instruction: Jcc8/Jmp8 become the 32-bit form, never back, and only a Jmp8 can become a nop (under safe optimisations). It reports a retry exactly when the opcode, is_nop or size changed. Every displacement is the target's offset less the end of the branch, and a load gets the target's offset. |
| X86Fixup.PredictedSize | compiler/dex/quick/x86/assemble_x86.cc:410-550 | GetInsnSize, with pseudo instructions taking no space (no contract of its own; X86Fixup.X86SizesMatch ties it to EncodedBytes). |
| X86Fixup.EncodedBytes | compiler/dex/quick/x86/assemble_x86.cc:1298-1443 | The bytes the emitters append, none for a pseudo instruction (no contract of its own; see X86Fixup.X86SizesMatch). |
| X86Fixup.PartlyFixed | compiler/dex/quick/x86/assemble_x86.cc:1161-1283 | The list after the pass has dealt with its first i instructions keeps its length; X86Fixup.PartlyFixedAt gives each element. |
| X86Fixup.PadBytes | compiler/dex/quick/x86/assemble_x86.cc:1464-1470 | A skipped instruction appends 2 bytes (a two-byte nop) exactly when it is an Align4 the walk marked as padding, and none otherwise. |
| X86Fixup.EmitFromAsWritten | compiler/dex/quick/x86/assemble_x86.cc:1161-1165 | The emission walk as written, in which pseudo instructions append nothing (no contract of its own; X86Fixup.AlignPadMismatchAsWritten shows it failing a CHECK). |
| X86Fixup.EmitFrom | compiler/dex/quick/x86/assemble_x86.cc:1157-1450 | The corrected emission walk of a pass, with Align4 pads appended (no contract of its own). X86Fixup.PassSuccess, PassRetry, EmitFromNeverFails and PassNeverFailsCheck state its properties. |
| X86Fixup.AlignExampleLaidOut | compiler/dex/quick/x86/assemble_x86.cc:1454-1475 | The walk places ret, ret, Align4, ret at offsets 0, 1, 2 and 4, marking the Align4 as padding. |
| X86Fixup.AlignPadMismatchAsWritten | compiler/dex/quick/x86/assemble_x86.cc:1161-1165 | On that laid-out list (offsets, pads and sizes as the walk and size rule give them), the pass as written fails the offset CHECK at the third ret. The corrected pass completes with C3 C3 66 90 C3. |
| X86Fixup.FixupPredicts | compiler/dex/quick/x86/assemble_x86.cc:1166-1283 | After a fixup, a live instruction still stores its predicted size. |
| X86Fixup.FixedInsn | compiler/dex/quick/x86/assemble_x86.cc:1166-1283 | Instruction i is fixed up against its target's offset; without a fixup it is unchanged. |
| X86Fixup.FixedAt | compiler/dex/quick/x86/assemble_x86.cc:1157-1170 | A pass leaves pseudo instructions and nops untouched. |
| X86Fixup.FixedList | compiler/dex/quick/x86/assemble_x86.cc:1157-1450 | A pass keeps the list's length and keeps every branch target inside the list. |
| X86Fixup.FixedListAt | compiler/dex/quick/x86/assemble_x86.cc:1157-1450 | Instruction j after the pass is that instruction fixed up on its own. |
| X86Fixup.FixedListRelaxed | compiler/dex/quick/x86/assemble_x86.cc:1173-1283 | Across a whole pass, every instruction is only relaxed, never shrunk. |
| X86Fixup.PassSuccess | compiler/dex/quick/x86/assemble_x86.cc:1157-1450 | A pass that ends in Success changed no opcode, is_nop or size, and appended exactly the bytes of the live instructions in order. |
| X86Fixup.PassSuccessEnd | compiler/dex/quick/x86/assemble_x86.cc:1157-1450 | A successful pass leaves the end of the code where the offset walk put it. |
| X86Fixup.PassRetry | compiler/dex/quick/x86/assemble_x86.cc:1173-1283 | A pass that ends in RetryAll promoted, nopped or resized some live instruction. |
| X86Fixup.OffsetsMonotone | compiler/dex/quick/x86/assemble_x86.cc:1454-1475 | With non-negative sizes, offsets never decrease along the list. |
| X86Fixup.AlignPads | compiler/dex/quick/x86/assemble_x86.cc:1464-1470 | Align4 adds 2 exactly when `offset & 2`, so the next instruction starts at a multiple of 4 (from an even offset). |
| X86Fixup.Advance | compiler/dex/quick/x86/assemble_x86.cc:1459-1472 | The offset after one instruction (no contract of its own; X86Fixup.AlignPads and OffsetsMonotone state its properties). |
| X86Fixup.OffsetBefore | compiler/dex/quick/x86/assemble_x86.cc:1454-1475 | The running offset of the walk (no contract of its own; X86Fixup.OffsetsMonotone and OffsetBeforeSame state its properties). |
| X86Fixup.SkippedAdvance | compiler/dex/quick/x86/assemble_x86.cc:1459-1472 | On marked pads, a pseudo instruction or nop advances the walk by exactly the bytes it appends. |
| X86Fixup.EmitFromNeverFails | compiler/dex/quick/x86/assemble_x86.cc:1291-1447 | From laid-out offsets and Align4 pads and predicted sizes, the rest of a pass never fails a CHECK. Align4 lists are included. |
| X86Fixup.PassNeverFailsCheck | compiler/dex/quick/x86/assemble_x86.cc:1291-1447 | A pass from laid-out offsets and pads, predicted sizes and an empty buffer never fails a CHECK, Align4 included. |
| X86Fixup.FixedListPredicted | compiler/dex/quick/x86/assemble_x86.cc:1173-1283 | A pass keeps every live instruction storing its predicted size. |
| X86Fixup.OffsetBeforeSame | compiler/dex/quick/x86/assemble_x86.cc:1454-1475 | Two lists that agree on opcode, is_nop and size get the same offsets. |
| X86Fixup.AssignedOffsets | compiler/dex/quick/x86/assemble_x86.cc:1454-1475 | The offset walk keeps the list's length and its branch targets. |
| X86Fixup.AssignedOffsetsAt | compiler/dex/quick/x86/assemble_x86.cc:1454-1475 | Instruction j after the walk is placed at the offset the walk reached. |
| X86Fixup.Placed | compiler/dex/quick/x86/assemble_x86.cc:1459-1472 | One instruction as the walk leaves it (no contract of its own; X86Fixup.AssignedOffsetsKeeps states what it changes). |
| X86Fixup.AssignedOffsetsKeeps | compiler/dex/quick/x86/assemble_x86.cc:1454-1475 | The walk gives each instruction the running offset. It changes nothing else but an Align4's padding mark, which it sets exactly when offset & 2. |
| X86Fixup.AssignedOffsetsLaidOut | compiler/dex/quick/x86/assemble_x86.cc:1454-1475 | The walk's result is laid out: re-running the walk on it gives the same offsets. |
| X86Fixup.AssignedOffsetsPredicted | compiler/dex/quick/x86/assemble_x86.cc:1454-1475 | Placing instructions, Align4 included, does not disturb their predicted sizes. |
| X86Fixup.AssembleRetries | compiler/dex/quick/x86/assemble_x86.cc:1520-1536 | The retry loop from `retries` on: a success reports a retry count within MAX_ASSEMBLER_RETRIES and a list of the same length. |
| X86Fixup.AssembleRetriesStep | compiler/dex/quick/x86/assemble_x86.cc:1520-1536 | One turn of the loop. A CHECK failure ends assembly; so does Success. On RetryAll, more than MAX_ASSEMBLER_RETRIES (50) retries gives up; otherwise the offsets are reassigned and the buffer cleared. |
| X86Fixup.AssembledLayout | compiler/dex/quick/x86/assemble_x86.cc:1520-1536 | A successful assembly from laid-out offsets leaves a laid-out list (with its pads marked, when they were) and a buffer that is exactly the bytes of its live instructions and pads in order. |
| X86Fixup.AssemblyNeverFailsCheck | compiler/dex/quick/x86/assemble_x86.cc:1445-1447 | From laid-out offsets and pads and predicted sizes, no pass of the whole loop fails a CHECK, Align4 included, and the result keeps sizes predicted. |
| X86Fixup.EmittedLength | compiler/dex/quick/x86/assemble_x86.cc:1454-1475 | The bytes of the live instructions and marked pads from i on span the rest of the offset walk. |
| X86Fixup.X86SizesMatch | compiler/dex/quick/x86/assemble_x86.cc:1445-1447 | The x86 encoder's bytes always number its predicted size. For kMovRegImm the prediction is the corrected one, prefixes included. |
| X86Fixup.X86BranchSizesFixed | compiler/dex/quick/x86/assemble_x86.cc:500-517 | A branch's predicted size does not depend on its displacement. |
| X86Fixup.BranchSizeIgnoresDisplacement | compiler/dex/quick/x86/assemble_x86.cc:500-517 | GetInsnSize of a branch is the same whatever displacement it holds. |
| X86Fixup.BranchRowKind | compiler/dex/quick/x86/assemble_x86.cc:330-340 | The rows of the relaxable branches are of kind kJcc or kJmp. |
| X86Fixup.EntrySizeIgnoresDisplacement | compiler/dex/quick/x86/assemble_x86.cc:500-517 | For kJcc and kJmp rows the size does not read the displacement operand. |
| X86Fixup.X86LayoutFree | compiler/dex/quick/x86/assemble_x86.cc:410-550 | No predicted size depends on an instruction's offset or stored size. |
| X86Fixup.EntrySizeIgnoresLayout | compiler/dex/quick/x86/assemble_x86.cc:410-550 | Moving an instruction or changing its stored size leaves its predicted size alone. |
| Bytes.LittleEndianRoundTrip | compiler/dex/quick/x86/assemble_x86.cc:635-657 | Reading back the n bytes written least significant first gives x mod 256^n. |
| Bytes.SignedRoundTrip | compiler/dex/quick/x86/assemble_x86.cc:635-657 | A value in the signed n-byte range is recovered exactly from its n bytes. |
| Bytes.ImmediateRoundTrips | compiler/dex/quick/x86/assemble_x86.cc:635-657 | IS_SIMM8 values survive one byte, IS_SIMM16 values two, and int32 values four. |
| Bytes.LittleEndian4 | compiler/dex/quick/x86/assemble_x86.cc:647-650 | The four bytes are `x & 0xFF`, `(x >> 8) & 0xFF`, `(x >> 16) & 0xFF` and `(x >> 24) & 0xFF`. |
| Bytes.LittleEndian2 | compiler/dex/quick/x86/assemble_x86.cc:643-644 | The two bytes are `x & 0xFF` and `(x >> 8) & 0xFF`. |
| RegStorage.RegStorage.Valid | compiler/dex/reg_storage.h:132-134 | The valid bit test (no contract of its own). RegStorage.Solo, RegStorage.Pair and the Solo32/Solo64 constructors ensure Valid, RegStorage.InvalidReg ensures !Valid, and RegStorage.RegStorage.GetReg's contract splits on it. |
| RegStorage.RegStorage.Is32Bit | compiler/dex/reg_storage.h:136-138 | The 32-bit solo shape test (no contract of its own). RegStorage.RegStorage.StorageSize states that it gives size 4, and GetLow, GetHigh and Solo32 ensure it. |
| RegStorage.RegStorage.Is64Bit | compiler/dex/reg_storage.h:140-142 | Is64Bit holds exactly for the shapes k64BitSolo and k64BitPair. |
| RegStorage.RegStorage.IsPair | compiler/dex/reg_storage.h:144-146 | The pair shape test (no contract of its own). RegStorage.Pair and MakeRegPair ensure it, Solo and Solo64 ensure its negation, and GetReg requires its negation as the source's DCHECK does. |
| RegStorage.RegStorage.IsFloat | compiler/dex/reg_storage.h:148-151 | The floating-point bit test, defined for valid storage as the DCHECK demands (no contract of its own). RegStorage.RegStorage.IsDouble and IsSingle state the doubles and singles in terms of it. |
| RegStorage.RegStorage.IsDouble | compiler/dex/reg_storage.h:153-156 | A double is floating point and 64-bit. |
| RegStorage.RegStorage.IsSingle | compiler/dex/reg_storage.h:158-161 | A single is floating point, and its shape is not 64-bit. |
| RegStorage.RegStorage.GetReg | compiler/dex/reg_storage.h:176-179 | An invalid value gives kInvalidRegVal (0x1ff). A valid one gives its shape, type and number bits and nothing more. |
| RegStorage.RegStorage.WithReg | compiler/dex/reg_storage.h:182-186 | SetReg's new value: bits 0-8 replaced by reg (for reg < 0x200), the rest kept; a solo shape reads back through GetReg. |
| RegStorage.RegStorage.WithLowReg | compiler/dex/reg_storage.h:189-192 | SetLowReg's new value: only bits 0-5 change, it stays a pair with the same validity, the low register reads back and the high one is untouched. |
| RegStorage.RegStorage.GetLowReg | compiler/dex/reg_storage.h:195-198 | The low register of a pair is a 32-bit solo with the pair's low type and number. |
| RegStorage.RegStorage.GetLow | compiler/dex/reg_storage.h:201-204 | GetLow is a valid 32-bit solo whose GetReg is GetLowReg. |
| RegStorage.RegStorage.GetHighReg | compiler/dex/reg_storage.h:207-210 | The high register of a pair is a 32-bit solo with bits 9-14 as its type and number. |
| RegStorage.RegStorage.GetHigh | compiler/dex/reg_storage.h:213-216 | GetHigh is a valid 32-bit solo whose GetReg is GetHighReg. |
| RegStorage.RegStorage.WithHighReg | compiler/dex/reg_storage.h:218-221 | SetHighReg's new value: only bits 9-14 change, it stays a pair, the high register reads back and the low one is untouched. |
| RegStorage.RegStorage.GetRegNum | compiler/dex/reg_storage.h:224-226 | The register number is below 32. |
| RegStorage.RegStorage.DoubleToLowSingle | compiler/dex/reg_storage.h:229-232 | A double's low half is a valid single numbered 2n (mod 32). |
| RegStorage.RegStorage.DoubleToHighSingle | compiler/dex/reg_storage.h:235-238 | A double's high half is a valid single numbered 2n+1 (mod 32). |
| RegStorage.RegStorage.SingleToDouble | compiler/dex/reg_storage.h:241-244 | A single belongs to the valid 64-bit double numbered n/2. |
| RegStorage.RegStorage.StorageSize | compiler/dex/reg_storage.h:305-318 | It is 0 exactly for kInvalid, 4 for 32-bit and 8 for 64-bit (solo or pair). It is 16, 32, 64 and 128 for the 128-, 256-, 512- and 1024-bit solos. |
| RegStorage.RegStorage.GetRawBits | compiler/dex/reg_storage.h:301-303 | The raw 16 bits, unchanged (no contract of its own; every other accessor reads these bits through a mask). |
| RegStorage.Solo | compiler/dex/reg_storage.h:111-115 | A valid non-pair value with shape rs_kind, low six bits `reg & 0x3f` and a zero high-register field. |
| RegStorage.Pair | compiler/dex/reg_storage.h:116-120 | A valid 64-bit pair whose low and high registers read back as the arguments' type and number. |
| RegStorage.MakeRegPair | compiler/dex/reg_storage.h:257-263 | For valid 32-bit solos, GetLowReg is low.GetReg() and GetHighReg is high.GetReg(). |
| RegStorage.Solo32 | compiler/dex/reg_storage.h:274-276 | A valid 32-bit solo holding the number and type given. |
| RegStorage.FloatSolo32 | compiler/dex/reg_storage.h:279-281 | A valid single with the number given. |
| RegStorage.Solo64 | compiler/dex/reg_storage.h:284-286 | A valid 64-bit non-pair solo holding the number and type given. |
| RegStorage.FloatSolo64 | compiler/dex/reg_storage.h:289-291 | A valid double with the number given. |
| RegStorage.InvalidReg | compiler/dex/reg_storage.h:293-295 | Not valid, shape kInvalid, GetReg kInvalidRegVal, storage size 0. |
| RegStorage.RegNum | compiler/dex/reg_storage.h:297-299 | `raw & 0x1f` is the register number: in 0..31 and congruent to raw modulo 32. |
| RegStorage.DoubleSingleRoundTrip | compiler/dex/reg_storage.h:229-244 | A double n < 16 splits into singles 2n and 2n+1, and each maps back to the double. |
| RegStorage.PairHalvesRoundTrip | compiler/dex/reg_storage.h:196-263 | MakeRegPair of two 32-bit solos gives them back through GetLow and GetHigh. |
| RegStorage.RegStorageVar.constructor | compiler/dex/reg_storage.h:122 | A default-constructed value is the invalid one. |
| RegStorage.RegStorageVar.SetReg | compiler/dex/reg_storage.h:182-186 | reg_ becomes WithReg(reg): bits above 8 are kept for reg < 0x200. |
| RegStorage.RegStorageVar.SetLowReg | compiler/dex/reg_storage.h:189-192 | reg_ becomes WithLowReg(reg): only bits 0-5 change. |
| RegStorage.RegStorageVar.SetHighReg | compiler/dex/reg_storage.h:218-221 | reg_ becomes WithHighReg(reg): only bits 9-14 change. |
| CalleeSave.RoundUp | runtime/runtime.cc:1025-1027 | RoundUp(x, n) is the least multiple of n that is at least x. |
| CalleeSave.CalleeSaveFrame | runtime/runtime.cc:995-1119 | Every instruction set has a callee-save frame except an unknown one, which is a fatal error. |
| CalleeSave.FrameSize | runtime/runtime.cc:1025-1111 | The frame size of each instruction set and frame type (no contract of its own; CalleeSave.FrameHoldsSpills bounds it). |
| CalleeSave.CoreSpills | runtime/runtime.cc:1006-1090 | The core spill mask: reference registers and the return register always, arguments in kRefsAndArgs, and the kSaveAll-only registers on ARM and MIPS (no contract of its own). The five SpillMasks lemmas state it per instruction set. |
| CalleeSave.FpSpills | runtime/runtime.cc:1013-1108 | The fp spill mask of each instruction set and frame type (no contract of its own). The five SpillMasks lemmas state it exactly per instruction set. |
| CalleeSave.FrameHoldsSpills | runtime/runtime.cc:1025-1111 | For every instruction set and frame type, the frame size is a multiple of kStackAlignment and at least (popcount(core) + popcount(fp) + 1) × pointer size. |
| CalleeSave.SlotsHoldSpills | runtime/runtime.cc:1039-1041 | The slots counted include every spilled register and the Method*, MIPS's three extra slots included. |
| CalleeSave.ArmSpillMasks | runtime/runtime.cc:1006-1030 | ARM/Thumb2: argument registers are spilled exactly in kRefsAndArgs frames, R4 and R9 exactly in kSaveAll, reference registers and LR always, and fp registers S0-S31 only in kSaveAll. |
| CalleeSave.MipsSpillMasks | runtime/runtime.cc:1031-1044 | MIPS: argument registers are spilled exactly in kRefsAndArgs, S0 and S1 exactly in kSaveAll, reference registers and RA always, and no fp register. |
| CalleeSave.X86SpillMasks | runtime/runtime.cc:1045-1054 | x86: argument registers are spilled exactly in kRefsAndArgs, reference registers and the fake return-address slot always, and no fp register. |
| CalleeSave.X86_64SpillMasks | runtime/runtime.cc:1055-1074 | x86-64: as x86 for the core registers, and XMM0-XMM7 exactly in kRefsAndArgs. |
| CalleeSave.Arm64SpillMasks | runtime/runtime.cc:1075-1114 | ARM64: argument registers exactly in kRefsAndArgs; reference registers, FP, X18 and LR always. D8-D15 are always spilled, D0-D7 are added in kRefsAndArgs, and all 32 in kSaveAll. |
| Dex2OatArgs.InstructionSetArg | runtime/runtime.cc:1286-1296 | There is an --instruction-set argument exactly when the build architecture is one of the five known ones. |
| Dex2OatArgs.CheckString | runtime/runtime.cc:1253-1281 | The -implicit-checks argument (no contract of its own; Dex2OatArgs.CheckStringRoundTrip and NoneExactlyWhenAllExplicit state its properties). |
| Dex2OatArgs.Dex2OatFeatureArgs | runtime/runtime.cc:1246-1301 | The arguments appended, in order (no contract of its own; Dex2OatArgs.ArgumentPositions and FilterOnlyWhenInterpreting state its properties). |
| Dex2OatArgs.ArgumentVector.constructor | runtime/runtime.cc:1246 | The argument vector starts empty. |
| Dex2OatArgs.ArgumentVector.PushBack | runtime/runtime.cc:1249 | push_back appends one argument and keeps the rest. |
| Dex2OatArgs.ImplicitChecksArgument | runtime/runtime.cc:1253-1280 | The string built step by step with checksep and nchecks is CheckString: "-implicit-checks", then ":" and the implicit checks joined by "," in the order null, suspend, stack, or ":none" when there is none. |
| Dex2OatArgs.AddCurrentRuntimeFeaturesAsDex2OatArguments | runtime/runtime.cc:1246-1301 | Exactly Dex2OatFeatureArgs is appended to argv, and the earlier arguments are kept. |
| Dex2OatArgs.Split | runtime/runtime.cc:1258-1276 | Splitting at commas always gives at least one field (the reader side of the check list). |
| Dex2OatArgs.SplitJoin | runtime/runtime.cc:1258-1276 | Splitting the comma-joined names gives back the names. |
| Dex2OatArgs.CheckStringRoundTrip | runtime/runtime.cc:1253-1281 | The check string is read back as exactly the set of implicit checks, so distinct settings give distinct strings. |
| Dex2OatArgs.ParseImplicitCheckNames | runtime/runtime.cc:1258-1276 | Reading the listed names gives back which checks are implicit. |
| Dex2OatArgs.NoneExactlyWhenAllExplicit | runtime/runtime.cc:1278-1280 | The string is "-implicit-checks:none" exactly when all three checks are explicit. |
| Dex2OatArgs.ArgumentPositions | runtime/runtime.cc:1248-1300 | The interpret-only filter comes first when present. --runtime-arg comes immediately before the check string. The instruction set follows when the build has one. --instruction-set-features= plus the default features comes last. |
| Dex2OatArgs.FilterOnlyWhenInterpreting | runtime/runtime.cc:1248-1250 | --compiler-filter=interpret-only is among the arguments exactly in interpret-only mode. |
| RuntimeStats.ToInt32 | runtime/runtime.cc:824-825 | The conversion to int32_t keeps the value modulo 2^32, and keeps it unchanged when it already fits. |
| RuntimeStats.StatOf | runtime/runtime.cc:809-832 | Each counted kind reads its counter. Class-init time reads in microseconds (ns / 1000) as int32. The four legacy kinds read 0. Any other kind is the fatal error. |
| RuntimeStats.RoutedStat | runtime/runtime.cc:802-809 | The record a kind is read from (no contract of its own; RuntimeStats.Runtime.GetStat and ResetThenGetStat state the routing). |
| RuntimeStats.Cleared | runtime/runtime.cc:796-800 | A record with the flagged counters zeroed (no contract of its own; RuntimeStats.ClearedStat states its effect). |
| RuntimeStats.Stats.constructor | runtime/runtime.cc:796-800 | A new statistics record has every counter at 0. |
| RuntimeStats.Stats.Clear | runtime/runtime.cc:796-800 | Exactly the counters whose kind bit is set are zeroed. |
| RuntimeStats.Runtime.constructor | runtime/runtime.cc:796-800 | The runtime's own record is distinct from the current thread's. |
| RuntimeStats.Runtime.ResetStats | runtime/runtime.cc:796-800 | The global record is cleared with `kinds & 0xffff` and the thread's with `kinds >> 16`. |
| RuntimeStats.Runtime.GetStat | runtime/runtime.cc:802-832 | Kinds below 1 << 16 read the global record; larger kinds read the thread's at `kind >> 16`. |
| RuntimeStats.ClearedStat | runtime/runtime.cc:796-832 | After a clear, a cleared counted kind reads 0 and an uncleared one reads as before. |
| RuntimeStats.ResetThenGetStat | runtime/runtime.cc:796-832 | After ResetStats(kinds), a counted kind reads 0 from the global record exactly when `kinds & 0xffff` names it, and 0 from the thread's exactly when `kinds >> 16` names it; everything else reads as before. |
| RuntimeStats.LowHalfKind | runtime/runtime.cc:797 | A kind below 1 << 16 is in `kinds & 0xffff` exactly when it is in kinds. |
| OatMethod.TableBeforeCode | runtime/oat_file-inl.h:34-44 | The table is null exactly when there is no code or the offset is the 0 sentinel; otherwise it lies offset bytes before the code. |
| OatMethod.TableOffset | runtime/oat_file-inl.h:24-27 | A null table gives 0; otherwise the result is the pointer difference truncated to 32 bits. |
| OatMethod.GetMappingTable | runtime/oat_file-inl.h:34-44 | Null exactly for no code or a 0 mapping_table_offset_; otherwise code - mapping_table_offset_. |
| OatMethod.GetVmapTable | runtime/oat_file-inl.h:46-56 | Null exactly for no code or a 0 vmap_table_offset_; otherwise code - vmap_table_offset_. |
| OatMethod.GetMappingTableOffset | runtime/oat_file-inl.h:24-27 | 0 when there is no mapping table. |
| OatMethod.GetVmapTableOffset | runtime/oat_file-inl.h:29-32 | 0 when there is no vmap table. |
| OatMethod.TableOffsetLocates | runtime/oat_file-inl.h:24-32 | A table within 4 GiB after begin_ is found again at begin_ + offset; the offset is 0 exactly for no table or a table at begin_. |
| OatMethod.MappingTableOffsetLocates | runtime/oat_file-inl.h:24-44 | The mapping table within 4 GiB is at begin_ + GetMappingTableOffset. The offset is 0 exactly for no code, the 0 sentinel or a table at begin_. |
| OatMethod.VmapTableOffsetLocates | runtime/oat_file-inl.h:29-56 | The same for the vmap table and GetVmapTableOffset. |
| OatMethod.TableOffsetWraps | runtime/oat_file-inl.h:24-27 | The 32-bit truncation: a table 4 GiB further on gets the same offset. |

## Left out

- Each accessor in `runtime/oat_file-inl.h` is `const`. The model's accessors are functions on an `OatMethod` value, so no accessor can change state.
- Literal pools, switch tables, fill-array data, the mapping and GC maps, and the timing splits at the end of `AssembleLIR` are left out. These are installed by code that is not part of this model. The model stops once the retry loop returns.
- `EmitPcRel`'s cast of operand 4 (or 1) to an embedded-data record is not modelled. The table offset that cast yields is an operand of the model.
- Logging is left out: `DumpLIRInsn`, the verbose listing and `EmitUnimplemented`'s diagnostic text.
- `SetupResourceMasks` and `NopLIR` are calls into code that is not part of this model. They are modelled only by their effect here: the opcode changes, or is_nop is set. The model also has `SetupResourceMasks` store the promoted branch's new predicted size (X86Fixup.FixupInsn sets the size when it promotes a branch, at lines 1191 and 1255). The offset walk and the size CHECK rely on that; X86Fixup.FixupPredicts and X86Fixup.AssemblyNeverFailsCheck depend on it.
- The table is a representative subset of `EncodingMap`: 83 rows covering every encoding kind. Opcodes are numbered by the model in table order, not by the X86OpCode enumeration.
- `IS_SIMM8`, `IS_SIMM16`, the register numbers of SP, BP and AX, and `THREAD_PREFIX` (the fs: segment, 0x64) come from headers that are not part of this model. They are named constants.
- X86Mir2Lir.EmitShiftRegCl and X86Mir2Lir.EmitShiftMemCl do not model the CL operand, because the source only DCHECKs that it is rCX.
- X86Mir2Lir.EmitImm is defined only for immediate widths 0, 1, 2 and 4. The source's fatal error on any other width is the requires ImmediateWidth, which every row in the table meets.
- Operands and offsets are unbounded integers. The source's `int` overflow on huge methods is not modelled. A displacement that does not fit 32 bits is written as its low 32 bits, as the source writes it.
- InsnBytesLength, EntryInsnBytesLength, ImmediateKindsBytesLength, X86SizesMatch and MovRegImmBytesLength check kMovRegImm against the corrected size rule, which counts prefixes, not against line 472's `1 + immediate_bytes`. That line and the intended encoding disagree for Mov16RI (see Findings).
- The two pad bytes an Align4 marked as padding appends are the model's choice, the two-byte nop 66 90; the source writes none (see Findings). Only their number matters to the offsets and the CHECKs.
- X86Encoding.InsnBytesLength requires a nop's length operand to be non-negative. The source never creates a negative one.
- `Thread::Current()` is an input: the `Runtime` object holds the current thread's record.
- The statistics header is not part of this model. The `KIND_*` codes are named constants, and `RuntimeStats::Clear` is taken to zero exactly the counters whose kind bit is set.
- Only the spill masks and the frame size of `CreateCalleeSaveMethod` are modelled. Allocating the ArtMethod and setting its declaring class, dex index and entry points are runtime plumbing.
- CalleeSave.FrameHoldsSpills proves the bounds for every instruction set and frame type, but the model states no concrete frame sizes.
- The `#if` choice of instruction set in `AddCurrentRuntimeFeaturesAsDex2OatArguments` happens at compile time. It is the `BuildArch` parameter. The instrumentation's interpret-only flag, the three explicit-check settings and the default instruction-set features are also inputs.
- Dex2OatArgs.ImplicitChecksArgument is a separate method. The source builds the check string inline in `AddCurrentRuntimeFeaturesAsDex2OatArguments`, with the same steps.
- `runtime/dex_file_verifier.h` is not part of this model, because it holds only declarations. `runtime/mirror/stack_trace_element.h` is not part of this model either; it holds managed-heap accessors.
- The rest of `runtime/runtime.cc` is runtime plumbing and is not modelled: start-up and shutdown, threads, signals, JNI, GC roots, the profiler and transactions.

## Findings

| source | as written | input that shows it | evidently intended | confidence | as-written member | corrected member |
|---|---|---|---|---|---|---|
| compiler/dex/quick/x86/assemble_x86.cc:1298-1300 | kData is predicted at 4 bytes (line 415), but one byte (the operand's low byte) is pushed | any `X8632BitData` instruction, e.g. operand 0x12345678: 4 predicted, 1 emitted, so the size CHECK fails | push the four little-endian bytes of the operand | high; not executed | X86Encoding.DataSizeMismatchAsWritten | X86Encoding.DataRoundTrip |
| compiler/dex/quick/x86/assemble_x86.cc:850-857 | EmitMovRegImm always writes B8+r and a 4-byte immediate; kMovRegImm is predicted at 1 + immediate_bytes (line 472) | `Mov8RI` (row at line 149): 2 predicted, 5 emitted, and the opcode is B8+r, not B0+r. `Mov16RI` (line 161): 3 predicted, 5 emitted | write the row's prefix, its opcode + r and an immediate of the row's width | high; not executed | X86Encoding.MovRegImmMismatchAsWritten | X86Encoding.Mov8RIEncoding |
| compiler/dex/quick/x86/assemble_x86.cc:471-472 | kMovRegImm is predicted at 1 + immediate_bytes, which leaves out the row's prefix | `Mov16RI` (row at line 161, prefix 66): 3 predicted, while the intended 66, B8+r and 2-byte immediate is 4 bytes | count the prefixes too: ComputeSize less the ModR/M byte | high; not executed | X86Encoding.MovRegImmPrefixAsWritten | X86Encoding.Mov16RIEncoding |
| compiler/dex/quick/x86/assemble_x86.cc:190-198 | the 8RC, 8MC, 16RC and 16MC shift rows declare immediate_bytes 1, but EmitShiftRegCl and EmitShiftMemCl emit no immediate | `Sal8RC` on any register: ComputeSize counts an immediate byte that is never written, one byte more than emitted | immediate_bytes 0, as in the 32-bit CL rows, so that the prediction equals the bytes emitted | high; not executed | X86Encoding.ShiftClMismatchAsWritten | X86Encoding.ShiftClRegRows |
| compiler/dex/quick/x86/assemble_x86.cc:685-694 | EmitOpMem writes only the first opcode byte, yet the kMem row LockCmpxchg8bM (line 349) has the two-byte opcode 0F C7 | `LockCmpxchg8bM` on any base and displacement: F0 0F and the operand are written, one byte short of the prediction, and the C7 is lost | write every opcode byte of the row, as EmitPrefixAndOpcode does | medium (a debug build stops at the DCHECK instead); not executed | X86Encoding.LockCmpxchg8bMismatchAsWritten | X86Encoding.LockCmpxchg8bEncoding |
| compiler/dex/quick/x86/assemble_x86.cc:1163-1165 | AssembleInstructions skips every pseudo instruction and writes nothing for it, but AssignInsnOffsets (lines 1464-1470) advances the offset by 2 past an Align4 it marks as padding | ret, ret, Align4, ret: the walk places the last ret at offset 4, but the buffer holds 3 bytes when it is reached, so the offset CHECK at line 1294 fails | write a two-byte pad (here the nop 66 90) for a marked Align4 | medium (the x86 back end may never create an Align4); not executed | X86Fixup.AlignPadMismatchAsWritten | X86Fixup.AssemblyNeverFailsCheck |
