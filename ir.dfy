/**
 * The intermediate representation the compiler builds: abstract operations on
 * the tape and head, basic blocks with at most one terminator, the two
 * functions `brain` and `main`, and an executor for the `brain` block graph.
 */
module IR {
  import opened Wrappers
  import opened Machine

  /**
   * One abstract operation, standing for the load/GEP/add/store or call
   * sequence the emitters insert.
   */
  datatype Op =
    | StoreHead(pos: int)   // store i32 pos, @head
    | IncCell(delta: int)   // tape[head] := tape[head] + delta, as an i8 add
    | MoveHead(delta: int)  // head := head + delta, as an i32 add
    | GetChar               // tape[head] := trunc(getchar())
    | PutChar               // putchar(tape[head])
    | CallBrain             // call void @brain()

  /** Block indices refer to positions in the enclosing function's block list. */
  datatype Terminator =
    | Br(target: nat)
    | CondBr(ifNonZero: nat, ifZero: nat)  // on tape[head] != 0
    | Ret(value: Option<int>)               // `ret void` is Ret(None)

  /** The labels the compiler gives its blocks. */
  datatype Label = Init | LoopHeader | LoopBody | LoopEnd | LoopCond | MainEntry

  /** A basic block: open while `term` is None, sealed once it has its one terminator. */
  datatype Block = Block(name: Label, ops: seq<Op>, term: Option<Terminator>)

  /** The module: the two globals' initial values and the two functions' blocks. */
  datatype IRModule = IRModule(tape: seq<byte>, head: int, brain: seq<Block>, main: seq<Block>)

  /** The ops that load or store `tape[head]`. */
  predicate Dereferences(op: Op) {
    op.IncCell? || op.GetChar? || op.PutChar?
  }

  /** `+`/`-`: only the cell at the head changes, by `delta` modulo 256. */
  function IncCellAt(m: State, delta: int): (m': State)
    requires InTape(m)
    ensures m'.head == m.head && m'.input == m.input && m'.output == m.output
    ensures |m'.tape| == |m.tape| && m'.tape[m.head] == Wrap8(m.tape[m.head] + delta)
    ensures forall j :: 0 <= j < |m.tape| && j != m.head ==> m'.tape[j] == m.tape[j]
  {
    m.(tape := m.tape[m.head := Wrap8(Cell(m) + delta)])
  }

  /** `<`/`>`: only the head changes, by `delta` with i32 wrap-around. */
  function MoveHeadBy(m: State, delta: int): (m': State)
    ensures m'.tape == m.tape && m'.input == m.input && m'.output == m.output
    ensures I32_MIN <= m'.head <= I32_MAX
    ensures I32_MIN <= m.head + delta <= I32_MAX ==> m'.head == m.head + delta
    ensures (m'.head - (m.head + delta)) % 0x1_0000_0000 == 0
  {
    m.(head := WrapI32(m.head + delta))
  }

  /** `,`: the byte `getchar` returns, truncated to 8 bits, lands in the cell at the head. */
  function GetCharAt(m: State): (m': State)
    requires InTape(m)
    ensures m'.head == m.head && m'.output == m.output && m'.input == Consume(m)
    ensures |m'.tape| == |m.tape| && m'.tape[m.head] == Wrap8(NextChar(m))
    ensures m.input == [] ==> m'.tape[m.head] == 255
    ensures forall j :: 0 <= j < |m.tape| && j != m.head ==> m'.tape[j] == m.tape[j]
  {
    m.(tape := m.tape[m.head := Wrap8(NextChar(m))], input := Consume(m))
  }

  /** `.`: the cell at the head is appended to the output; tape and head stay. */
  function PutCharAt(m: State): (m': State)
    requires InTape(m)
    ensures m'.tape == m.tape && m'.head == m.head && m'.input == m.input
    ensures |m'.output| == |m.output| + 1 && m'.output[..|m.output|] == m.output
    ensures m'.output[|m.output|] == m.tape[m.head]
  {
    m.(output := m.output + [Cell(m)])
  }

  /**
   * Effect of one op of `brain`; None when the op touches `tape[head]` while the
   * head is outside the tape (undefined in the compiled program).
   */
  function Apply(op: Op, m: State): (r: Option<State>)
    requires !op.CallBrain?
    ensures r.None? <==> Dereferences(op) && !InTape(m)
  {
    match op
    case StoreHead(pos) => Some(m.(head := pos))
    case MoveHead(d) => Some(MoveHeadBy(m, d))
    case IncCell(d) => if InTape(m) then Some(IncCellAt(m, d)) else None
    case GetChar => if InTape(m) then Some(GetCharAt(m)) else None
    case PutChar => if InTape(m) then Some(PutCharAt(m)) else None
  }

  /** How running a block graph ends. */
  datatype Exit =
    | Returned(m: State)  // a `ret` was reached
    | OffTape(m: State)   // tape[head] was touched with the head outside the tape
    | OutOfFuel           // more branches than the fuel allows
    | BadIR               // a missing terminator, a bad block index or a misplaced call

  /**
   * Runs the ops of block `b` from index `k` on, then its terminator; every
   * branch taken costs one unit of fuel.
   */
  function Exec(g: seq<Block>, b: nat, k: nat, m: State, fuel: nat): Exit
    decreases fuel, if b < |g| && k < |g[b].ops| then |g[b].ops| - k else 0
  {
    if b >= |g| then BadIR
    else if k < |g[b].ops| then
      var op := g[b].ops[k];
      if op.CallBrain? then BadIR
      else match Apply(op, m)
        case None => OffTape(m)
        case Some(m') => Exec(g, b, k + 1, m', fuel)
    else match g[b].term
      case None => BadIR
      case Some(Ret(_)) => Returned(m)
      case Some(Br(t)) => if fuel == 0 then OutOfFuel else Exec(g, t, 0, m, fuel - 1)
      case Some(CondBr(t, f)) =>
        if fuel == 0 then OutOfFuel
        else if !InTape(m) then OffTape(m)
        else Exec(g, if Cell(m) != 0 then t else f, 0, m, fuel - 1)
  }

  /** The single block of `main`: call `brain`, then `ret i32 0`. */
  function MainBlock(): Block {
    Block(MainEntry, [CallBrain], Some(Ret(Some(0))))
  }

  /** How a run of the whole program ends. */
  datatype Termination = Exited(status: int, m: State) | Stopped(reason: Exit)

  /**
   * The host calls `main` with the globals at their initial values; `main`
   * calls `brain` and returns its status constant.
   */
  function RunMain(mod: IRModule, input: seq<byte>, fuel: nat): (t: Termination)
    ensures t.Exited? ==> Exec(mod.brain, 0, 0, State(mod.tape, mod.head, input, []), fuel) == Returned(t.m)
    ensures mod.main == [MainBlock()] && t.Exited? ==> t.status == 0
  {
    var m0 := State(mod.tape, mod.head, input, []);
    if |mod.main| == 1 && mod.main[0].ops == [CallBrain] && mod.main[0].term.Some?
       && mod.main[0].term.value.Ret? && mod.main[0].term.value.value.Some?
    then
      match Exec(mod.brain, 0, 0, m0, fuel)
      case Returned(m) => Exited(mod.main[0].term.value.value.value, m)
      case other => Stopped(other)
    else Stopped(BadIR)
  }

  predicate TargetsIn(t: Terminator, n: nat) {
    match t
    case Br(x) => x < n
    case CondBr(x, y) => x < n && y < n
    case Ret(_) => true
  }

  /** Every branch already inserted names a block of the function. */
  predicate BranchesIn(g: seq<Block>) {
    forall i :: 0 <= i < |g| && g[i].term.Some? ==> TargetsIn(g[i].term.value, |g|)
  }

  /** No block has been given a `ret` yet. */
  predicate NoRet(g: seq<Block>) {
    forall i :: 0 <= i < |g| && g[i].term.Some? ==> !g[i].term.value.Ret?
  }

  /** Every block carries exactly one terminator, and every branch names a block of the function. */
  predicate Sealed(g: seq<Block>) {
    (forall i :: 0 <= i < |g| ==> g[i].term.Some?) && BranchesIn(g)
  }

  /** The structural check the module must pass before it is written, printed or run. */
  predicate WellFormed(mod: IRModule) {
    |mod.tape| == TAPE_SIZE && |mod.brain| > 0 && |mod.main| > 0 && Sealed(mod.brain) && Sealed(mod.main)
  }
}
