# Brainfuck JIT front end, modelled in Dafny

This project models the core of `BrainFckJIT`, the class that translates a
Brainfuck program into an LLVM module. The module has:

- a global byte `tape` of `TAPE_SIZE = 655360` zeroed cells;
- a global `i32` `head`;
- a function `brain` that holds the translated program;
- a function `main` that calls `brain` and returns 0.

The class reads the program text one character at a time. It keeps an
open-bracket counter, `numBrackets`. It builds `brain` block by block through
the recursive scanner `InsertBrainIR_r`:

- the six straight-line commands append an operation to the current block;
- `[` creates `loop.header`, `loop.body` and `loop.end` and scans the body
  one level deeper;
- `]` closes the body into a fresh `loop.cond` block that tests the cell again.

Compilation aborts with one of two messages:

- "']' found without a pair", for a `]` at the top level;
- "Incorrect number of pair brackets", when the text ends with brackets open.

The model has these modules:

- `Machine`: the runtime state (tape, head, input and output byte streams),
  the constants, and 8-bit and 32-bit wrap-around.
- `IR`: abstract operations and basic blocks with at most one terminator,
  the semantics of each emitted operation, and an executor for the `brain`
  block graph. `RunMain` is the host running `main`.
- `Reference`: the source language as a command tree. `ParseBlock` is the
  scanner's recursion written as a function, with its two errors. It is tied
  back to the text by a round trip: the commands it returns, written out
  again, are exactly the text's command characters. Bracket
  balance is defined by counting. `RunSeq`/`RunLoop` is a reference
  interpreter for `while (tape[head] != 0) body`.
- `Layout`: what it means for a block graph to lay out a command sequence
  (`Walk`). It proves that executing such blocks is running the commands
  (`WalkExec`, `TestExec`), and so that a compiled module runs its program
  (`CompiledProgramRuns`).
- `Scan`: the invariant of the scanner's loop and how each character
  preserves it.
- `Compiler`: the class `BrainFckJIT`. It has fields for the program text,
  the cursor, `numBrackets`, the two globals and the two block lists.
  - The scanner methods (`InsertBrainIR`, `InsertBrainIR_r`, its
    per-character step `InsertCharIR`, `InsertStartLoopIR`) are proved
    against `ParseBlock`, `Walk` and `LoopBuilt`.
  - `InsertBrainFunction` and `Compile` are proved against `ParseBlock` and
    `Walk` through `Implements`.
  - The remaining methods state their new state exactly: the constructor,
    `InitializeModule`, `AllocateTape`, `AllocateHeadPosition`,
    `InsertMainFunction`, the four emitters, `InsertCondBranchIR` and
    `InsertLoopExitCondIR`.
  - While `brain` is built, the class invariant `Valid` also says that no
    block returns yet. So the one `ret` that `InsertBrainFunction` inserts is
    the function's only return.
  - `NewBlock`, `Append`, `Seal` and `InsertRet` stand for
    `BasicBlock::Create`, the builder's inserts and `ReturnInst::Create`. They
    have no C++ method of their own.

Where the code and its comments disagree, the model follows the code:

- The comments on `InsertBrainIR` say the head is initialised to 0. The code
  stores `HEAD_POS = TAPE_SIZE / 2 = 327680`, so the `init` block stores
  `HEAD_POS`. The global `head` itself is zero-initialised.
- The comment on `AllocateTape` shows 30000 cells. The code uses `TAPE_SIZE`,
  which is 655360.
- The comments on `DeclareExternFunctions` say `getchar`/`putchar` take and
  return `i32`. The code declares them with `i8`. So the model truncates the
  byte read to 8 bits, and EOF (-1) is stored as 255.

## Model

| member | source | states |
|---|---|---|
| Compiler.BrainFckJIT.constructor | src/llvm/jit/brainfck.cpp:89-99 | A new compiler reads the text from its start (cursor 0), with no brackets open and an empty module. |
| Compiler.BrainFckJIT.Compile | src/llvm/jit/brainfck.cpp:125-142 | Compilation succeeds exactly when the text's brackets are balanced. A failure throws the scanner's message and never the verifier's. On success the module passes the structural check (`WellFormed`: every block has one terminator and every branch target exists) and implements the parsed program, whose commands written back as text are exactly the command characters of the source. |
| Compiler.BrainFckJIT.InitializeModule | src/llvm/jit/brainfck.cpp:176-179 | The module starts empty: no tape or head contents, and no blocks in either function. |
| Compiler.BrainFckJIT.AllocateTape | src/llvm/jit/brainfck.cpp:195-200 | The tape global is `TAPE_SIZE` zero cells. |
| Compiler.BrainFckJIT.AllocateHeadPosition | src/llvm/jit/brainfck.cpp:206-211 | The head global is zero-initialised. |
| Compiler.BrainFckJIT.InsertBrainFunction | src/llvm/jit/brainfck.cpp:220-231 | Fails exactly when the top-level scan fails, with its error. On success: every block of `brain` is sealed, block 0 is `init` and starts with the store of `HEAD_POS`, and the program is laid out from there to a block ending in `ret void`. That block is the only one in `brain` that returns. |
| Compiler.BrainFckJIT.InsertRet | src/llvm/jit/brainfck.cpp:229-230 | Seals the block the top-level scan returned with `ret void`, and changes nothing else. |
| Compiler.BrainFckJIT.InsertMainFunction | src/llvm/jit/brainfck.cpp:249-273 | `main` is one sealed block that calls `brain` and returns 0. |
| Compiler.BrainFckJIT.InsertBrainIR | src/llvm/jit/brainfck.cpp:286-293 | Creates `init` as block 0. Its first op stores `HEAD_POS` into the head, before any translated instruction. It then scans the whole text at depth 0. On success the text is used up and the returned block is the only open one. |
| Compiler.BrainFckJIT.InsertBrainIR_r | src/llvm/jit/brainfck.cpp:296-346 | The scan succeeds iff `ParseBlock` does, and fails with its error. Inside a loop the only failure is a missing `]`. An unpaired `]` is reported only at depth 0, with the counter left at 0. The recursion depth equals `numBrackets`. On success, at depth 0 the text is used up; inside a loop the scan stopped right after its `]`, the counter dropped by one, and the body's last block branches to a fresh open `loop.cond` block. The commands read are laid out in the blocks built, and no earlier block is changed. |
| Compiler.BrainFckJIT.InsertCharIR | src/llvm/jit/brainfck.cpp:300-337 | One case of the switch. A straight-line command appends exactly its op to the open block, adds the command to those read, and continues in the same block; counter and cursor stay. `[` either fails (only with an error) or continues in the new `loop.end` block, with the counter back at its value. `]` always stops: at depth 0 with the unpaired error, otherwise with the counter lowered and the new `loop.cond` block, which the open block now branches to. Any other character changes nothing: not the blocks, the open block, the counter or the commands read. The scan invariant `Scanned` is preserved. |
| Compiler.BrainFckJIT.InsertIncIR | src/llvm/jit/brainfck.cpp:357-363 | Appends `IncCell(inc)` to the open block. No other block changes. |
| Compiler.BrainFckJIT.InsertPtrIncIR | src/llvm/jit/brainfck.cpp:372-376 | Appends `MoveHead(inc)` to the open block. No other block changes. |
| Compiler.BrainFckJIT.InsertPutCharIR | src/llvm/jit/brainfck.cpp:386-393 | Appends `PutChar` to the open block. No other block changes. |
| Compiler.BrainFckJIT.InsertGetCharIR | src/llvm/jit/brainfck.cpp:403-410 | Appends `GetChar` to the open block. No other block changes. |
| Compiler.BrainFckJIT.InsertCondBranchIR | src/llvm/jit/brainfck.cpp:421-431 | Seals the block with a branch on the cell at the head: to `then` if it is non-zero, else to `else`. |
| Compiler.BrainFckJIT.InsertStartLoopIR | src/llvm/jit/brainfck.cpp:457-481 | The current block branches to a new header. The header tests the cell: non-zero goes to the body, zero to the end. The body is scanned one level deeper; its `loop.cond` block gets the same test. The counter returns to its value before `[`. The block returned is the new `loop.end`. `[ body ]` is laid out from the current block to the start of `loop.end`, the only block left open. The only failure is a missing `]`. |
| Compiler.BrainFckJIT.InsertLoopExitCondIR | src/llvm/jit/brainfck.cpp:492-498 | Creates a new, empty, open `loop.cond` block at the end of `brain` and seals the current block with a branch to it. |
| Scan.ScanEmit | src/llvm/jit/brainfck.cpp:302-319 | Appending a straight-line command's op to the open block extends the layout by that command and keeps the frame. |
| Scan.ScanSkip | src/llvm/jit/brainfck.cpp:335-336 | A character that is not a command leaves the read commands, the blocks and the open block as they were. |
| Scan.ScanLoop | src/llvm/jit/brainfck.cpp:320-324 | After a built loop, the scan goes on in `loop.end` with `Loop(body)` added to what it read. |
| Scan.ScanLoopFails | src/llvm/jit/brainfck.cpp:320-324 | A body scan that fails makes the enclosing scan fail with the same error. |
| Scan.ScanClose | src/llvm/jit/brainfck.cpp:326-333 | A `]` inside a loop ends the scan, which stops right after it; the open block now branches to the new `loop.cond`. |
| Scan.ScanCloseFails | src/llvm/jit/brainfck.cpp:326-330 | A `]` at depth 0 is the unpaired-bracket error. |
| Scan.ScanEnd | src/llvm/jit/brainfck.cpp:340-345 | At the end of the text the scan succeeds at depth 0, returning the open block. At any other depth it fails with the unbalanced-brackets error. |
| Scan.LoopWired | src/llvm/jit/brainfck.cpp:458-480 | The header, body, `loop.cond` and end blocks that `[` wires up lay out `[ body ]` and leave only `loop.end` open. |
| Reference.MessagesDistinct | src/llvm/jit/brainfck.cpp:326-343 | The three thrown texts differ, so the message alone tells which failure happened. |
| Reference.ParseBlock | src/llvm/jit/brainfck.cpp:296-346 | The scan from `i` at `depth` open brackets, as a function. On success it stops within the text. At depth 0 it reads to the end of the text; inside a loop it stops right after a `]`. |
| Reference.ParseBlockRoundTrip | src/llvm/jit/brainfck.cpp:296-346 | The commands a successful scan returns, written back as text, are exactly the command characters it read. Inside a loop they are followed by the `]` that stopped it. |
| Reference.ParseProgramRoundTrip | src/llvm/jit/brainfck.cpp:286-293 | A program that compiles, written back as text, is exactly the command characters of its source. |
| Reference.KeepSplit | src/llvm/jit/brainfck.cpp:300-337 | The command characters of a text are those of its two pieces, in order. |
| Reference.CmdOf | src/llvm/jit/brainfck.cpp:301-319 | A character denotes a straight-line command exactly when it is one of `+ - < > , .`. |
| Reference.ParseBlockCounts | src/llvm/jit/brainfck.cpp:296-346 | Characterises the scan from any position and depth by bracket counts. Inside a loop it stops right after the first `]` that closes more than it opened, or fails at the end of input. At depth 0 it fails on the first unpaired `]`, or at the end if brackets stay open. |
| Reference.ParseProgramBalanced | src/llvm/jit/brainfck.cpp:320-343 | The whole text compiles iff no prefix has more `]` than `[` and the totals match. The unpaired error occurs iff some prefix goes negative. The unbalanced error occurs iff no prefix does but the total is non-zero. Success consumes the whole text. |
| Reference.LoopExitsOnZero | src/llvm/jit/brainfck.cpp:436-455 | A loop that finishes leaves the head on a zero cell. |
| Reference.RunSeqMoreFuel | src/llvm/jit/brainfck.cpp:436-455 | The interpreter's fuel is only a bound: a run that did not run out of fuel gives the same result with more fuel. |
| Reference.RunLoopMoreFuel | src/llvm/jit/brainfck.cpp:436-455 | The same holds for a loop entered at its test. |
| Reference.NetSplit | src/llvm/jit/brainfck.cpp:321-332 | The bracket count of a text is the sum of the counts of its pieces. |
| Layout.OpForAgrees | src/llvm/jit/brainfck.cpp:302-319 | The op emitted for each straight-line command has the same effect as the reference interpreter's command. |
| Layout.WalkConcat | src/llvm/jit/brainfck.cpp:300-338 | Laying out `xs + ys` means laying out `xs`, then `ys` from where `xs` ended. |
| Layout.WalkExtends | src/llvm/jit/brainfck.cpp:300-338 | Appending ops to open blocks, sealing them or adding blocks never changes a layout already in place. |
| Layout.WalkAppendOp | src/llvm/jit/brainfck.cpp:357-410 | Appending a command's op to the block where the layout ends lays out one more command. |
| Layout.LoopLayout | src/llvm/jit/brainfck.cpp:457-481 | A branch to a test block, whose non-zero edge starts the body and whose body returns to an equal test, lays out `[ body ]` ending at the start of the zero edge's block. |
| Layout.FrameTrans | src/llvm/jit/brainfck.cpp:320-324 | Two scans in a row (outer up to `[`, then the body) compose into one frame. |
| Layout.LoopFrame | src/llvm/jit/brainfck.cpp:458-480 | After a loop is built only `loop.end` is open, the earlier blocks are unchanged, and the block before `[` keeps its ops. |
| Layout.WalkExec | src/llvm/jit/brainfck.cpp:296-346 | Executing blocks that lay out a command sequence is running that sequence in the reference interpreter, then continuing where the layout ends. This covers the same outcome, tape, head, output and remaining fuel, and undefined behaviour on the same state. |
| Layout.TestExec | src/llvm/jit/brainfck.cpp:421-481 | Executing from a loop's test block is running `while (tape[head] != 0) body`, then continuing at `loop.end`. |
| Layout.CompiledProgramRuns | src/llvm/jit/brainfck.cpp:208-273 | Running `main` of a module that implements program `p` gives exit status 0 and the final state of the reference run of `p` from a zeroed tape with the head at `HEAD_POS`. It runs out of fuel or off the tape exactly when the reference run does. |
| IR.IncCellAt | src/llvm/jit/brainfck.cpp:357-363 | `+`/`-` changes only the cell at the head, by the increment modulo 256. Head, input and output stay. |
| IR.MoveHeadBy | src/llvm/jit/brainfck.cpp:372-376 | `<`/`>` changes only the head. The new head is an `i32`, congruent to the old head plus the increment modulo 2^32, so it is the wrapped `add i32` result; without overflow it is the exact sum. Tape, input and output stay. |
| IR.GetCharAt | src/llvm/jit/brainfck.cpp:403-410 | `,` stores the next input byte, truncated to 8 bits, in the cell at the head (255 at end of input) and consumes it. Nothing else changes. |
| IR.PutCharAt | src/llvm/jit/brainfck.cpp:386-393 | `.` appends the cell at the head to the output. Tape, head and input stay. |
| IR.Apply | src/llvm/jit/brainfck.cpp:357-410 | An op is undefined exactly when it dereferences the tape while the head is outside it. |
| IR.RunMain | src/llvm/jit/brainfck.cpp:249-273 | A run of `main` that exits is a run of `brain` from the globals' initial values that returns. With the `main` the compiler builds, the exit status is 0. |
| Machine.ZeroTape | src/llvm/jit/brainfck.cpp:195-200 | The tape is `TAPE_SIZE` cells, all 0. |
| Machine.WrapI32 | src/llvm/jit/brainfck.cpp:372-376 | The `i32` add result is in range and congruent to the true sum modulo 2^32, and equals it when no overflow occurs. |

## Left out

- The optimisation pipeline (`InitializePassManager`, and running it in
  `InsertBrainFunction` when `OPT` is set). These are foreign LLVM passes
  whose internals are not visible.
- `verifyModule`: it is replaced by the structural predicate `WellFormed`,
  which `Compile` checks. The model proves that check always passes, so the
  error "Compilation was not successful" is never produced.
- `print`, `dump` and `execute`: these are output and the LLVM execution
  engine. The model runs the module through `IR.RunMain`, as the host running
  `main`; `execute` calls `brain` directly, which differs only in that the
  exit status is not used.
- The command-line options, the program's `main` and the constructors'
  file and stream opening: these are I/O. The file stream is modelled as the
  text `source` plus the `cursor` of characters read.
- `DeclareExternFunctions`: the declarations are not modelled as objects. The
  behaviour of `getchar`/`putchar` is modelled by `GetChar`/`PutChar` over an
  input and an output byte sequence.
- The naming of `main`'s parameters `argc`/`argv`: they are not used.
- The exact LLVM instruction sequences (load, GEP, add, icmp, call): each
  emitter's sequence is one abstract op, and the header and `loop.cond` tests
  are the `CondBr` terminator itself.
- The `IRBuilder` insert points: the model passes the open block index
  instead. The extra `SetInsertPoint` calls in `InsertStartLoopIR` have no
  effect on the blocks built.
- Compiler.BrainFckJIT.InsertBrainIR_r: `numBrackets` is a `uint32_t`; the
  model uses an unbounded `nat`, because overflow needs 2^32 nested `[`.
- Compiler.BrainFckJIT.InsertCharIR: the `switch` of `InsertBrainIR_r` is a
  separate method, so its loop body can be proved one character at a time.
  The control flow is unchanged.
- Out-of-range tape accesses are undefined behaviour in the compiled code.
  The model stops execution with `OffTape` instead of guessing a result.
- Loop execution uses fuel: a run that does not finish within the fuel ends
  in `OutOfFuel`, on both the compiled and the reference side alike.
