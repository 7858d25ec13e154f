/**
 * How the compiler lays a command sequence out as basic blocks, and the proof
 * that executing that block graph is the reference interpreter.
 */
module Layout {
  import opened Wrappers
  import opened Machine
  import opened IR
  import opened Reference

  /** The op each emitter inserts for a straight-line command. */
  function OpFor(c: Cmd): (op: Op)
    requires !c.Loop?
    ensures !op.CallBrain? && !op.StoreHead?
  {
    match c
    case Plus => IncCell(1)
    case Minus => IncCell(-1)
    case Left => MoveHead(-1)
    case Right => MoveHead(1)
    case Input => GetChar
    case Output => PutChar
  }

  /** Each emitted op has the effect the command has in the reference interpreter. */
  lemma OpForAgrees(c: Cmd, m: State)
    requires !c.Loop?
    ensures Apply(OpFor(c), m) == Interp(c, m)
  {
    if InTape(m) {
      var x: int := Cell(m);
      match c
      case Plus => assert Wrap8(x + 1) == if x == 255 then 0 else x + 1;
      case Minus => assert Wrap8(x - 1) == if x == 0 then 255 else x - 1;
      case Input =>
        if m.input != [] {
          assert Wrap8(m.input[0]) == m.input[0];
        }
      case _ =>
    }
  }

  /** A position inside a function: block `b`, before its op `k`. */
  datatype Pos = Pos(b: nat, k: nat)

  /** Block `h` is a loop test: no ops, and a branch to `body` on a non-zero cell, to `end` otherwise. */
  predicate IsTest(g: seq<Block>, h: nat, body: nat, end: nat) {
    h < |g| && g[h].ops == [] && g[h].term == Some(CondBr(body, end))
  }

  /**
   * Follows the layout of `cs` from position (b, k): straight-line commands
   * are consecutive ops; `[ body ]` is a branch to a test block whose
   * non-zero edge starts `body`, whose body ends in a branch to a second test
   * block with the same two edges, and whose zero edge starts the rest.
   * Returns the position where `cs` ends, or None if the blocks do not have
   * this shape.
   */
  function Walk(g: seq<Block>, b: nat, k: nat, cs: seq<Cmd>): (r: Option<Pos>)
    ensures r.Some? ==> r.value.b < |g| && r.value.k <= |g[r.value.b].ops|
    decreases cs
  {
    if cs == [] then
      if b < |g| && k <= |g[b].ops| then Some(Pos(b, k)) else None
    else if b >= |g| then None
    else match cs[0]
      case Loop(body) =>
        if k == |g[b].ops| && g[b].term.Some? && g[b].term.value.Br? then
          var h := g[b].term.value.target;
          if h < |g| && g[h].ops == [] && g[h].term.Some? && g[h].term.value.CondBr? then
            var bd := g[h].term.value.ifNonZero;
            var en := g[h].term.value.ifZero;
            match Walk(g, bd, 0, body)
            case None => None
            case Some(last) =>
              if ClosesLoop(g, last, bd, en) then Walk(g, en, 0, cs[1..]) else None
          else None
        else None
      case _ =>
        if k < |g[b].ops| && g[b].ops[k] == OpFor(cs[0]) then Walk(g, b, k + 1, cs[1..]) else None
  }

  /** The body's last block ends at `last` and branches to a test block with edges `body` and `end`. */
  predicate ClosesLoop(g: seq<Block>, last: Pos, body: nat, end: nat) {
    last.b < |g| && last.k == |g[last.b].ops| && g[last.b].term.Some? && g[last.b].term.value.Br?
    && IsTest(g, g[last.b].term.value.target, body, end)
  }

  function Bind(p: Option<Pos>, g: seq<Block>, cs: seq<Cmd>): Option<Pos> {
    match p
    case None => None
    case Some(q) => Walk(g, q.b, q.k, cs)
  }

  /** Laying out `xs + ys` is laying out `xs`, then `ys` from where `xs` ended. */
  lemma {:induction false} WalkConcat(g: seq<Block>, b: nat, k: nat, xs: seq<Cmd>, ys: seq<Cmd>)
    ensures Walk(g, b, k, xs + ys) == Bind(Walk(g, b, k, xs), g, ys)
    decreases xs
  {
    if xs == [] {
      assert xs + ys == ys;
    } else {
      assert (xs + ys)[0] == xs[0];
      assert (xs + ys)[1..] == xs[1..] + ys;
      if b < |g| {
        match xs[0]
        case Loop(body) =>
          if k == |g[b].ops| && g[b].term.Some? && g[b].term.value.Br? {
            var h := g[b].term.value.target;
            if h < |g| && g[h].ops == [] && g[h].term.Some? && g[h].term.value.CondBr? {
              WalkConcat(g, g[h].term.value.ifZero, 0, xs[1..], ys);
            }
          }
        case _ =>
          WalkConcat(g, b, k + 1, xs[1..], ys);
      }
    }
  }

  /** A block keeps its ops as a prefix, and once sealed it does not change. */
  predicate Grows(x: Block, y: Block) {
    x.name == y.name && x.ops <= y.ops && (x.term.Some? ==> y == x)
  }

  /** `g2` is `g` after appending ops to open blocks, sealing open blocks and adding blocks. */
  predicate Extends(g: seq<Block>, g2: seq<Block>) {
    |g| <= |g2| && forall i :: 0 <= i < |g| ==> Grows(g[i], g2[i])
  }

  lemma ExtendsTrans(g1: seq<Block>, g2: seq<Block>, g3: seq<Block>)
    requires Extends(g1, g2) && Extends(g2, g3)
    ensures Extends(g1, g3)
  {
    forall i | 0 <= i < |g1| ensures Grows(g1[i], g3[i]) {
      assert Grows(g1[i], g2[i]) && Grows(g2[i], g3[i]);
    }
  }

  /**
   * What a scan that started with open block `bb` of `g0` may have done to
   * reach `g` with open block `cur`: blocks other than `bb` that existed are
   * untouched, `bb` only grew, and of the blocks it added only `cur` is still
   * open (`bb` is sealed unless it is still `cur`).
   */
  ghost predicate Frame(g0: seq<Block>, g: seq<Block>, bb: nat, cur: nat) {
    && Extends(g0, g)
    && (forall i :: 0 <= i < |g0| && i != bb ==> g[i] == g0[i])
    && cur < |g| && g[cur].term.None? && (cur == bb || |g0| <= cur)
    && (forall i :: |g0| <= i < |g| && i != cur ==> g[i].term.Some?)
    && (cur != bb ==> bb < |g| && g[bb].term.Some?)
  }

  lemma FrameTrans(g0: seq<Block>, g1: seq<Block>, g2: seq<Block>, bb: nat, cur: nat, cur2: nat)
    requires Frame(g0, g1, bb, cur) && Frame(g1, g2, cur, cur2)
    ensures Frame(g0, g2, bb, cur2)
  {
    ExtendsTrans(g0, g1, g2);
    forall i | |g0| <= i < |g2| && i != cur2 ensures g2[i].term.Some? {
      if i < |g1| && i != cur {
        assert g2[i] == g1[i];
      }
    }
  }

  /** Appending an op to the open block keeps the frame. */
  lemma FrameAppend(g0: seq<Block>, g: seq<Block>, bb: nat, cur: nat, op: Op)
    requires Frame(g0, g, bb, cur)
    ensures Frame(g0, g[cur := g[cur].(ops := g[cur].ops + [op])], bb, cur)
  {
    var g2 := g[cur := g[cur].(ops := g[cur].ops + [op])];
    assert Grows(g[cur], g2[cur]);
    assert Extends(g, g2);
    ExtendsTrans(g0, g, g2);
  }

  /**
   * The frame of a whole loop: `g1` is `g0` with `bb` branching to a new
   * header (a test) followed by a new body and a new, open end block; the body
   * scan takes `g1` to `g2` and leaves `c` open, and `g3` seals `c`. Only the
   * end block is left open.
   */
  lemma LoopFrame(g0: seq<Block>, g1: seq<Block>, g2: seq<Block>, g3: seq<Block>, bb: nat, c: nat, t: Terminator)
    requires bb < |g0| && g0[bb].term.None? && |g1| == |g0| + 3
    requires g1[bb] == g0[bb].(term := Some(Br(|g0|)))
    requires forall i :: 0 <= i < |g0| && i != bb ==> g1[i] == g0[i]
    requires g1[|g0|].term.Some? && g1[|g0| + 1].term.None? && g1[|g0| + 2] == Block(LoopEnd, [], None)
    requires Frame(g1, g2, |g0| + 1, c) && |g1| <= c
    requires g3 == g2[c := g2[c].(term := Some(t))]
    ensures Frame(g0, g3, bb, |g0| + 2)
    ensures g3[|g0| + 2] == Block(LoopEnd, [], None) && g3[bb].ops == g0[bb].ops
  {
    assert Extends(g0, g1) by {
      forall i | 0 <= i < |g0| ensures Grows(g0[i], g1[i]) {
        if i == bb {
          assert Grows(g0[bb], g1[bb]);
        }
      }
    }
    assert Extends(g2, g3) by {
      assert Grows(g2[c], g3[c]);
    }
    ExtendsTrans(g0, g1, g2);
    ExtendsTrans(g0, g2, g3);
    assert g2[|g0| + 2] == g1[|g0| + 2];
    assert g2[bb] == g1[bb];
    assert g2[|g0|] == g1[|g0|];
    forall i | |g0| <= i < |g3| && i != |g0| + 2 ensures g3[i].term.Some? {
      if i != c {
        assert g3[i] == g2[i];
      }
    }
  }

  /** A layout found in a function stays valid while the function only grows. */
  lemma {:induction false} WalkExtends(g: seq<Block>, g2: seq<Block>, b: nat, k: nat, cs: seq<Cmd>)
    requires Extends(g, g2) && Walk(g, b, k, cs).Some?
    ensures Walk(g2, b, k, cs) == Walk(g, b, k, cs)
    decreases cs
  {
    if cs != [] {
      assert Grows(g[b], g2[b]);
      match cs[0]
      case Loop(body) =>
        var h := g[b].term.value.target;
        assert Grows(g[h], g2[h]);
        var bd := g[h].term.value.ifNonZero;
        var en := g[h].term.value.ifZero;
        WalkExtends(g, g2, bd, 0, body);
        var last := Walk(g, bd, 0, body).value;
        assert Grows(g[last.b], g2[last.b]);
        assert Grows(g[g[last.b].term.value.target], g2[g[last.b].term.value.target]);
        WalkExtends(g, g2, en, 0, cs[1..]);
      case _ =>
        WalkExtends(g, g2, b, k + 1, cs[1..]);
    } else {
      assert Grows(g[b], g2[b]);
    }
  }

  /** Continues a reference run from the position the layout ends at. */
  function Then(o: Outcome, g: seq<Block>, p: Pos): Exit {
    match o
    case Done(m, f) => Exec(g, p.b, p.k, m, f)
    case Undefined(m) => OffTape(m)
    case Exhausted => OutOfFuel
  }

  /**
   * Executing the blocks laid out for `cs` is running `cs` in the reference
   * interpreter and then continuing from where the layout ends, with the
   * same fuel: the equation covers finishing, undefined behaviour and
   * running out of fuel alike.
   */
  lemma {:induction false} WalkExec(g: seq<Block>, b: nat, k: nat, cs: seq<Cmd>, m: State, fuel: nat)
    requires Walk(g, b, k, cs).Some?
    ensures Exec(g, b, k, m, fuel) == Then(RunSeq(cs, m, fuel), g, Walk(g, b, k, cs).value)
    decreases fuel, cs
  {
    if cs != [] {
      match cs[0]
      case Loop(body) =>
        var h := g[b].term.value.target;
        var bd := g[h].term.value.ifNonZero;
        var en := g[h].term.value.ifZero;
        var last := Walk(g, bd, 0, body).value;
        if fuel > 0 {
          TestExec(g, h, bd, en, body, last, m, fuel - 1);
          var l := RunLoop(body, m, fuel - 1);
          if l.Done? {
            WalkExec(g, en, 0, cs[1..], l.m, l.fuel);
          }
        }
      case _ =>
        OpForAgrees(cs[0], m);
        if Interp(cs[0], m).Some? {
          WalkExec(g, b, k + 1, cs[1..], Interp(cs[0], m).value, fuel);
        }
    }
  }

  /** Executing a loop's test block is `while (tape[head] != 0) body`, continuing at the loop's end block. */
  lemma {:induction false} TestExec(g: seq<Block>, h: nat, bd: nat, en: nat, body: seq<Cmd>, last: Pos,
                                   m: State, fuel: nat)
    requires IsTest(g, h, bd, en) && Walk(g, bd, 0, body) == Some(last) && ClosesLoop(g, last, bd, en)
    ensures Exec(g, h, 0, m, fuel) == Then(RunLoop(body, m, fuel), g, Pos(en, 0))
    decreases fuel, body
  {
    if fuel > 0 && InTape(m) && Cell(m) != 0 {
      WalkExec(g, bd, 0, body, m, fuel - 1);
      var inner := RunSeq(body, m, fuel - 1);
      if inner.Done? && inner.fuel > 0 {
        TestExec(g, g[last.b].term.value.target, bd, en, body, last, inner.m, inner.fuel - 1);
      }
    }
  }

  /** Appending a command's op to the open block a layout ends in extends the layout by that command. */
  lemma WalkAppendOp(g: seq<Block>, b: nat, k: nat, acc: seq<Cmd>, e: nat, c: Cmd)
    requires !c.Loop? && e < |g| && g[e].term.None?
    requires Walk(g, b, k, acc) == Some(Pos(e, |g[e].ops|))
    ensures var g2 := g[e := g[e].(ops := g[e].ops + [OpFor(c)])];
      Extends(g, g2) && Walk(g2, b, k, acc + [c]) == Some(Pos(e, |g2[e].ops|))
  {
    var g2 := g[e := g[e].(ops := g[e].ops + [OpFor(c)])];
    assert Grows(g[e], g2[e]);
    assert Extends(g, g2);
    WalkExtends(g, g2, b, k, acc);
    WalkConcat(g2, b, k, acc, [c]);
    var n := |g[e].ops|;
    assert g2[e].ops[n] == OpFor(c);
    assert Walk(g2, e, n + 1, []) == Some(Pos(e, n + 1));
    assert [c][0] == c && [c][1..] == [];
    assert Walk(g2, e, n, [c]) == Walk(g2, e, n + 1, []);
  }

  /** The blocks `[` creates, once wired, lay out `[ body ]` from the end of `bb` to the start of `en`. */
  lemma LoopLayout(g: seq<Block>, bb: nat, h: nat, bd: nat, en: nat, body: seq<Cmd>, last: Pos)
    requires bb < |g| && g[bb].term == Some(Br(h)) && IsTest(g, h, bd, en) && en < |g|
    requires Walk(g, bd, 0, body) == Some(last) && ClosesLoop(g, last, bd, en)
    ensures Walk(g, bb, |g[bb].ops|, [Loop(body)]) == Some(Pos(en, 0))
  {
    assert [Loop(body)][0] == Loop(body) && [Loop(body)][1..] == [];
    assert Walk(g, en, 0, []) == Some(Pos(en, 0));
  }

  /** The layout ends at the end of a block that returns. */
  predicate Returns(g: seq<Block>, p: Pos) {
    p.b < |g| && p.k == |g[p.b].ops| && g[p.b].term == Some(Ret(None))
  }

  /**
   * The shape a successful compilation gives the module for program `p`:
   * a zeroed tape, a head global of 0, `main` calling `brain`, and `brain`
   * opening with the head initialisation, then `p` laid out up to a `ret`.
   */
  ghost predicate Implements(mod: IRModule, p: seq<Cmd>) {
    && mod.tape == ZeroTape() && mod.head == 0 && mod.main == [MainBlock()]
    && |mod.brain| > 0 && mod.brain[0].name == Init
    && |mod.brain[0].ops| > 0 && mod.brain[0].ops[0] == StoreHead(HEAD_POS)
    && Walk(mod.brain, 0, 1, p).Some? && Returns(mod.brain, Walk(mod.brain, 0, 1, p).value)
  }

  /** The reference run of a whole program, from a zeroed tape with the head at HEAD_POS. */
  function ReferenceRun(p: seq<Cmd>, input: seq<byte>, fuel: nat): Termination {
    match RunSeq(p, State(ZeroTape(), HEAD_POS, input, []), fuel)
    case Done(m, _) => Exited(0, m)
    case Undefined(m) => Stopped(OffTape(m))
    case Exhausted => Stopped(OutOfFuel)
  }

  /**
   * Running a module compiled from `p` — the host calls `main`, `main` calls
   * `brain` — is the reference run of `p`, for every input and every fuel.
   */
  lemma CompiledProgramRuns(mod: IRModule, p: seq<Cmd>, input: seq<byte>, fuel: nat)
    requires Implements(mod, p)
    ensures RunMain(mod, input, fuel) == ReferenceRun(p, input, fuel)
  {
    var g := mod.brain;
    var m0 := State(mod.tape, mod.head, input, []);
    var m1 := State(ZeroTape(), HEAD_POS, input, []);
    assert Apply(StoreHead(HEAD_POS), m0) == Some(m1);
    assert Exec(g, 0, 0, m0, fuel) == Exec(g, 0, 1, m1, fuel);
    WalkExec(g, 0, 1, p, m1, fuel);
  }
}
