/**
 * The compiler object: it reads the program text through a cursor, keeps the
 * open-bracket counter, and builds the module's globals and the blocks of
 * `brain` and `main` in place.
 */
module Compiler {
  import opened Wrappers
  import opened Machine
  import opened IR
  import opened Reference
  import opened Layout
  import opened Scan

  /** What one character tells the scan: go on with open block `cur`, or stop with `result`. */
  datatype Step = Continue(cur: nat) | Stop(result: Result<nat, CompileError>)

  class BrainFckJIT {
    /** The program text; the C++ object streams it from a file. */
    const source: seq<char>
    /** How much of `source` has been read. */
    var cursor: nat
    /** Brackets opened and not yet closed. */
    var numBrackets: nat
    /** Initial value of the global `tape`. */
    var tape: seq<byte>
    /** Initial value of the global `head`. */
    var head: int
    /** The blocks of `brain`, in creation order; block 0 is its entry. */
    var brain: seq<Block>
    /** The blocks of `main`. */
    var main: seq<Block>

    /** While `brain` is being built: the cursor is in the text, branches name blocks, and no block returns yet. */
    ghost predicate Valid()
      reads this
    {
      cursor <= |source| && BranchesIn(brain) && NoRet(brain)
    }

    function Module(): IRModule
      reads this
    {
      IRModule(tape, head, brain, main)
    }

    constructor (text: seq<char>)
      ensures Valid() && source == text && cursor == 0 && numBrackets == 0
      ensures brain == [] && main == [] && tape == [] && head == 0
    {
      source := text;
      cursor := 0;
      numBrackets := 0;
      tape := [];
      head := 0;
      brain := [];
      main := [];
    }

    /**
     * Compiles the whole text. It fails exactly when the brackets are
     * unbalanced, throwing the scan's message; on success the module passes
     * the structural check and implements the parsed program, which holds
     * exactly the text's command characters.
     */
    method Compile() returns (r: Result<IRModule, string>)
      requires Valid() && cursor == 0 && numBrackets == 0
      modifies this
      ensures r.Ok? <==> Balanced(source)
      ensures r.Err? ==> ParseProgram(source).Err? && r.error == Message(ParseProgram(source).error)
      ensures r.Err? ==> r.error != Message(VerificationFailed)
      ensures r.Ok? ==> r.value == Module() && WellFormed(r.value)
      ensures r.Ok? ==> ParseProgram(source).Ok? && Implements(r.value, ParseProgram(source).value.cmds)
      ensures r.Ok? ==> Flatten(ParseProgram(source).value.cmds) == Keep(source, 0, |source|)
    {
      InitializeModule();
      AllocateTape();
      AllocateHeadPosition();
      ghost var p;
      var failure;
      failure, p := InsertBrainFunction();
      ParseProgramBalanced(source);
      ParseProgramRoundTrip(source);
      if failure.Some? {
        r := Err(Message(failure.value));
        return;
      }
      InsertMainFunction();
      var m := Module();
      r := if WellFormed(m) then Ok(m) else Err(Message(VerificationFailed));
    }

    /** An empty module: no globals yet, no functions. */
    method InitializeModule()
      requires Valid()
      modifies this`tape, this`head, this`brain, this`main
      ensures Valid() && tape == [] && head == 0 && brain == [] && main == []
    {
      tape := [];
      head := 0;
      brain := [];
      main := [];
    }

    /** `@tape = [TAPE_SIZE x i8] zeroinitializer`. */
    method AllocateTape()
      modifies this`tape
      ensures tape == ZeroTape()
    {
      tape := ZeroTape();
    }

    /** `@head = i32 zeroinitializer`. */
    method AllocateHeadPosition()
      modifies this`head
      ensures head == 0
    {
      head := 0;
    }

    /**
     * Creates `brain`, fills it from the text, and seals the block the top-level
     * scan returns with `ret void`.
     */
    method InsertBrainFunction() returns (failure: Option<CompileError>, ghost p: seq<Cmd>)
      requires Valid() && numBrackets == 0
      modifies this`cursor, this`numBrackets, this`brain
      ensures cursor <= |source| && BranchesIn(brain)
      ensures failure.Some? ==> Valid()
      ensures failure.None? <==> ParseBlock(source, old(cursor), 0).Ok?
      ensures failure.Some? ==> ParseBlock(source, old(cursor), 0) == Err(failure.value)
      ensures failure.None? ==> ParseBlock(source, old(cursor), 0) == Ok(Parsed(p, |source|))
      ensures failure.None? ==> Sealed(brain) && |brain| > 0 && brain[0].name == Init
      ensures failure.None? ==> |brain[0].ops| > 0 && brain[0].ops[0] == StoreHead(HEAD_POS)
      ensures failure.None? ==> Walk(brain, 0, 1, p).Some? && Returns(brain, Walk(brain, 0, 1, p).value)
      ensures failure.None? ==> forall i :: 0 <= i < |brain| && brain[i].term.Some? && brain[i].term.value.Ret? ==>
                                  i == Walk(brain, 0, 1, p).value.b
    {
      brain := [];
      var r;
      r, p := InsertBrainIR();
      if r.Err? {
        failure := Some(r.error);
        return;
      }
      ghost var before := brain;
      InsertRet(r.value);
      assert Extends(before, brain) by {
        assert Grows(before[r.value], brain[r.value]);
      }
      WalkExtends(before, brain, 0, 1, p);
      failure := None;
    }

    /** `main` is one block: call `brain`, then `ret i32 0`. */
    method InsertMainFunction()
      modifies this`main
      ensures main == [MainBlock()] && Sealed(main)
    {
      main := [Block(MainEntry, [CallBrain], Some(Ret(Some(0))))];
    }

    /**
     * Creates the entry block of `brain`, stores HEAD_POS into the head, and
     * scans the text at nesting depth 0 with that block open.
     */
    method InsertBrainIR() returns (r: Result<nat, CompileError>, ghost p: seq<Cmd>)
      requires Valid() && brain == [] && numBrackets == 0
      modifies this`cursor, this`numBrackets, this`brain
      ensures Valid()
      ensures r.Ok? <==> ParseBlock(source, old(cursor), 0).Ok?
      ensures r.Err? ==> ParseBlock(source, old(cursor), 0) == Err(r.error)
      ensures r.Ok? ==> ParseBlock(source, old(cursor), 0) == Ok(Parsed(p, |source|)) && cursor == |source|
      ensures r.Ok? ==> |brain| > 0 && brain[0].name == Init
      ensures r.Ok? ==> |brain[0].ops| > 0 && brain[0].ops[0] == StoreHead(HEAD_POS)
      ensures r.Ok? ==> r.value < |brain| && brain[r.value].term.None?
      ensures r.Ok? ==> Walk(brain, 0, 1, p) == Some(Pos(r.value, |brain[r.value].ops|))
      ensures r.Ok? ==> forall i :: 0 <= i < |brain| && i != r.value ==> brain[i].term.Some?
    {
      var init := NewBlock(Init);
      Append(init, StoreHead(HEAD_POS));
      ghost var last;
      r, p, last := InsertBrainIR_r(init, 0);
      if r.Ok? {
        ParseBlockCounts(source, old(cursor), 0);
      }
    }

    /**
     * The recursive scan. Reads characters until the input ends or a `]`
     * closes the loop this call belongs to; `depth`, the number of enclosing
     * loop calls, always equals `numBrackets`. On success it returns the open
     * block scanning ended in: at depth 0 the block where the text ended, inside
     * a loop the fresh `loop.cond` block the body's last block `last` now
     * branches to. The commands read are laid out from the end of `bb`'s old ops.
     */
    method InsertBrainIR_r(bb: nat, ghost depth: nat)
      returns (r: Result<nat, CompileError>, ghost cmds: seq<Cmd>, ghost last: nat)
      requires Valid() && bb < |brain| && brain[bb].term.None? && numBrackets == depth
      modifies this`cursor, this`numBrackets, this`brain
      decreases |source| - cursor, 0
      ensures Valid() && old(cursor) <= cursor
      ensures r.Ok? <==> ParseBlock(source, old(cursor), depth).Ok?
      ensures r.Err? ==> ParseBlock(source, old(cursor), depth) == Err(r.error)
      ensures r.Err? && depth > 0 ==> r.error == UnbalancedBrackets
      ensures r == Err(UnpairedClose) ==> depth == 0 && numBrackets == 0 && 0 < cursor && source[cursor - 1] == ']'
      ensures r.Ok? ==> numBrackets == (if depth == 0 then 0 else depth - 1)
      ensures r.Ok? ==> Closed(source, old(cursor), cursor, depth, old(brain), brain, bb, cmds, last, r.value)
    {
      var cur: nat := bb;
      cmds, last := [], bb;
      ghost var acc: seq<Cmd> := [];
      ScanStart(source, cursor, depth, brain, bb);
      while cursor < |source|
        invariant Valid() && old(cursor) <= cursor && numBrackets == depth
        invariant Scanned(source, old(cursor), cursor, depth, old(brain), brain, bb, acc, cur)
        decreases |source| - cursor
      {
        var input := source[cursor];
        cursor := cursor + 1;
        var step;
        step, acc := InsertCharIR(input, cur, old(cursor), depth, old(brain), bb, acc);
        if step.Stop? {
          r, cmds, last := step.result, acc, cur;
          return;
        }
        cur := step.cur;
      }
      ScanEnd(source, old(cursor), depth, old(brain), brain, bb, acc, cur);
      if numBrackets != 0 {
        r := Err(UnbalancedBrackets);
        return;
      }
      r, cmds, last := Ok(cur), acc, cur;
    }

    /**
     * The scanner's switch on the character `input` just read, with open
     * block `cur`: a straight-line command emits its op, `[` builds a loop and
     * goes on in its end block, `]` ends the scan of a loop body (or fails at
     * the top level), and any other character is skipped. `acc'` is what the
     * scan has read once `input` is done.
     */
    method InsertCharIR(input: char, cur: nat, ghost start: nat, ghost depth: nat,
                        ghost g0: seq<Block>, ghost bb: nat, ghost acc: seq<Cmd>)
      returns (step: Step, ghost acc': seq<Cmd>)
      requires Valid() && 0 < cursor && source[cursor - 1] == input && numBrackets == depth
      requires Scanned(source, start, cursor - 1, depth, g0, brain, bb, acc, cur)
      modifies this`cursor, this`numBrackets, this`brain
      decreases |source| - cursor, 2
      ensures Valid() && old(cursor) <= cursor
      ensures step.Continue? ==> numBrackets == depth && Scanned(source, start, cursor, depth, g0, brain, bb, acc', step.cur)
      ensures step.Stop? ==> acc' == acc
      ensures step.Stop? && step.result.Err? ==> ParseBlock(source, start, depth) == Err(step.result.error)
      ensures step.Stop? && step.result.Err? && depth > 0 ==> step.result.error == UnbalancedBrackets
      ensures step.Stop? && step.result == Err(UnpairedClose) ==>
        depth == 0 && numBrackets == 0 && 0 < cursor && source[cursor - 1] == ']'
      ensures step.Stop? && step.result.Ok? ==>
        depth > 0 && numBrackets == depth - 1 && Closed(source, start, cursor, depth, g0, brain, bb, acc, cur, step.result.value)
      ensures CmdOf(input).Some? ==>
        && step == Continue(cur) && acc' == acc + [CmdOf(input).value]
        && cursor == old(cursor) && numBrackets == old(numBrackets)
        && brain == old(brain)[cur := old(brain[cur]).(ops := old(brain[cur].ops) + [OpFor(CmdOf(input).value)])]
      ensures CmdOf(input).None? && input != '[' && input != ']' ==>
        && step == Continue(cur) && acc' == acc
        && cursor == old(cursor) && numBrackets == old(numBrackets) && brain == old(brain)
      ensures input == '[' ==> step.Stop? || (step.cur == old(|brain|) + 2 && numBrackets == old(numBrackets))
      ensures input == '[' && step.Stop? ==> step.result.Err?
      ensures input == ']' ==> step.Stop? && cursor == old(cursor)
      ensures input == ']' && step.result.Ok? ==>
        && step.result.value == old(|brain|) && numBrackets == old(numBrackets) - 1
        && brain == old(brain)[cur := old(brain[cur]).(term := Some(Br(step.result.value)))] + [Block(LoopCond, [], None)]
    {
      ghost var at := cursor - 1;
      ghost var before := brain;
      acc' := acc;
      match input {
        case '-' | '+' =>
          InsertIncIR(cur, if input == '+' then 1 else -1);
          ScanEmit(source, start, at, depth, g0, before, bb, acc, cur, CmdOf(input).value, brain);
          step, acc' := Continue(cur), acc + [CmdOf(input).value];
        case '<' | '>' =>
          InsertPtrIncIR(cur, if input == '>' then 1 else -1);
          ScanEmit(source, start, at, depth, g0, before, bb, acc, cur, CmdOf(input).value, brain);
          step, acc' := Continue(cur), acc + [CmdOf(input).value];
        case ',' =>
          InsertGetCharIR(cur);
          ScanEmit(source, start, at, depth, g0, before, bb, acc, cur, Input, brain);
          step, acc' := Continue(cur), acc + [Input];
        case '.' =>
          InsertPutCharIR(cur);
          ScanEmit(source, start, at, depth, g0, before, bb, acc, cur, Output, brain);
          step, acc' := Continue(cur), acc + [Output];
        case '[' =>
          numBrackets := numBrackets + 1;
          var loop;
          ghost var body;
          loop, body := InsertStartLoopIR(cur, depth);
          if loop.Err? {
            ScanLoopFails(source, start, at, depth, acc, loop.error);
            step := Stop(Err(loop.error));
            return;
          }
          ScanLoop(source, start, at, depth, g0, before, bb, acc, cur, brain, loop.value, body, cursor);
          step, acc' := Continue(loop.value), acc + [Loop(body)];
        case ']' =>
          if numBrackets == 0 {
            ScanCloseFails(source, start, at, acc);
            step := Stop(Err(UnpairedClose));
            return;
          }
          numBrackets := numBrackets - 1;
          var cond := InsertLoopExitCondIR(cur);
          ScanClose(source, start, at, depth, g0, before, bb, acc, cur, brain);
          step := Stop(Ok(cond));
        case _ =>
          ScanSkip(source, start, at, depth, g0, brain, bb, acc, cur);
          step := Continue(cur);
      }
    }

    /** `+`/`-`: an 8-bit add of `inc` to the cell at the head. */
    method InsertIncIR(bb: nat, inc: int)
      requires Valid() && bb < |brain| && brain[bb].term.None?
      modifies this`brain
      ensures Valid()
      ensures brain == old(brain)[bb := old(brain[bb]).(ops := old(brain[bb].ops) + [IncCell(inc)])]
    {
      Append(bb, IncCell(inc));
    }

    /** `<`/`>`: a 32-bit add of `inc` to the head. */
    method InsertPtrIncIR(bb: nat, inc: int)
      requires Valid() && bb < |brain| && brain[bb].term.None?
      modifies this`brain
      ensures Valid()
      ensures brain == old(brain)[bb := old(brain[bb]).(ops := old(brain[bb].ops) + [MoveHead(inc)])]
    {
      Append(bb, MoveHead(inc));
    }

    /** `.`: `putchar` of the cell at the head. */
    method InsertPutCharIR(bb: nat)
      requires Valid() && bb < |brain| && brain[bb].term.None?
      modifies this`brain
      ensures Valid()
      ensures brain == old(brain)[bb := old(brain[bb]).(ops := old(brain[bb].ops) + [PutChar])]
    {
      Append(bb, PutChar);
    }

    /** `,`: `getchar`, truncated to 8 bits, stored in the cell at the head. */
    method InsertGetCharIR(bb: nat)
      requires Valid() && bb < |brain| && brain[bb].term.None?
      modifies this`brain
      ensures Valid()
      ensures brain == old(brain)[bb := old(brain[bb]).(ops := old(brain[bb].ops) + [GetChar])]
    {
      Append(bb, GetChar);
    }

    /** Seals `pred` with a branch on the cell at the head: to `thenBlock` if non-zero, else to `elseBlock`. */
    method InsertCondBranchIR(pred: nat, thenBlock: nat, elseBlock: nat)
      requires Valid() && pred < |brain| && brain[pred].term.None?
      requires thenBlock < |brain| && elseBlock < |brain|
      modifies this`brain
      ensures Valid()
      ensures brain == old(brain)[pred := old(brain[pred]).(term := Some(CondBr(thenBlock, elseBlock)))]
    {
      Seal(pred, CondBr(thenBlock, elseBlock));
    }

    /**
     * On `[` (with the counter already raised): creates `loop.header`,
     * `loop.body` and `loop.end`, branches from `bb` to the header, makes the
     * header test the cell, scans the body one level deeper, makes the block
     * that scan returns test the cell again, and returns `loop.end`.
     */
    method InsertStartLoopIR(bb: nat, ghost depth: nat) returns (r: Result<nat, CompileError>, ghost body: seq<Cmd>)
      requires Valid() && bb < |brain| && brain[bb].term.None? && numBrackets == depth + 1
      modifies this`cursor, this`numBrackets, this`brain
      decreases |source| - cursor, 1
      ensures Valid() && old(cursor) <= cursor
      ensures r.Ok? <==> ParseBlock(source, old(cursor), depth + 1).Ok?
      ensures r.Err? ==> ParseBlock(source, old(cursor), depth + 1) == Err(r.error) && r.error == UnbalancedBrackets
      ensures r.Ok? ==> numBrackets == depth && r.value == old(|brain|) + 2
      ensures r.Ok? ==> LoopBuilt(source, old(cursor), depth, old(brain), brain, bb, body, cursor, r.value)
    {
      var loopHeader := NewBlock(LoopHeader);
      var loopBody := NewBlock(LoopBody);
      var loopEnd := NewBlock(LoopEnd);
      Seal(bb, Br(loopHeader));
      InsertCondBranchIR(loopHeader, loopBody, loopEnd);
      ghost var before := brain;
      var loopCond;
      ghost var last;
      loopCond, body, last := InsertBrainIR_r(loopBody, depth + 1);
      if loopCond.Err? {
        r := Err(loopCond.error);
        return;
      }
      ghost var mid := brain;
      InsertCondBranchIR(loopCond.value, loopBody, loopEnd);
      LoopWired(source, old(cursor), depth, old(brain), before, mid, brain, bb, body, cursor, last, loopCond.value);
      r := Ok(loopEnd);
    }

    /** On a matched `]`: creates `loop.cond`, branches to it from `bb`, and returns it. */
    method InsertLoopExitCondIR(bb: nat) returns (loopCond: nat)
      requires Valid() && bb < |brain| && brain[bb].term.None?
      modifies this`brain
      ensures Valid() && loopCond == old(|brain|)
      ensures brain == old(brain)[bb := old(brain[bb]).(term := Some(Br(loopCond)))] + [Block(LoopCond, [], None)]
    {
      loopCond := NewBlock(LoopCond);
      Seal(bb, Br(loopCond));
    }

    /** `BasicBlock::Create`: a new, empty, open block at the end of `brain`. */
    method NewBlock(name: Label) returns (b: nat)
      requires Valid()
      modifies this`brain
      ensures Valid() && b == old(|brain|) && brain == old(brain) + [Block(name, [], None)]
      ensures Extends(old(brain), brain)
    {
      b := |brain|;
      brain := brain + [Block(name, [], None)];
      assert forall i :: 0 <= i < |old(brain)| ==> brain[i] == old(brain)[i];
    }

    /** Inserts `op` at the end of open block `bb`. */
    method Append(bb: nat, op: Op)
      requires Valid() && bb < |brain| && brain[bb].term.None?
      modifies this`brain
      ensures Valid()
      ensures brain == old(brain)[bb := old(brain[bb]).(ops := old(brain[bb].ops) + [op])]
    {
      brain := brain[bb := brain[bb].(ops := brain[bb].ops + [op])];
    }

    /** `ReturnInst::Create(ctx, bb)`: seals open block `bb` with `ret void`. */
    method InsertRet(bb: nat)
      requires Valid() && bb < |brain| && brain[bb].term.None?
      modifies this`brain
      ensures cursor <= |source| && BranchesIn(brain)
      ensures brain == old(brain)[bb := old(brain[bb]).(term := Some(Ret(None)))]
    {
      brain := brain[bb := brain[bb].(term := Some(Ret(None)))];
    }

    /** Inserts branch `t` into open block `bb`; each block is sealed once. */
    method Seal(bb: nat, t: Terminator)
      requires Valid() && bb < |brain| && brain[bb].term.None? && TargetsIn(t, |brain|) && !t.Ret?
      modifies this`brain
      ensures Valid()
      ensures brain == old(brain)[bb := old(brain[bb]).(term := Some(t))]
    {
      brain := brain[bb := brain[bb].(term := Some(t))];
    }
  }
}
