/**
 * The source language on its own terms: the eight commands, the bracket
 * structure the compiler's recursive scan recognises (with its two error
 * messages), and a reference interpreter for `while (tape[head] != 0) body`.
 */
module Reference {
  import opened Wrappers
  import opened Machine

  /** A parsed program: the six straight-line commands and `[ body ]`. */
  datatype Cmd = Plus | Minus | Left | Right | Input | Output | Loop(body: seq<Cmd>)

  /** The ways compilation fails. */
  datatype CompileError = UnpairedClose | UnbalancedBrackets | VerificationFailed

  /** The text thrown for each failure. */
  function Message(e: CompileError): string {
    match e
    case UnpairedClose => "Error: ']' found without a pair \n"
    case UnbalancedBrackets => "Error: Incorrect number of pair brackets\n"
    case VerificationFailed => "Error: Compilation was not successful\n"
  }

  /** The three failures are told apart by their text alone. */
  lemma MessagesDistinct(e: CompileError, e': CompileError)
    ensures Message(e) == Message(e') <==> e == e'
  {
    if e != e' {
      assert Message(e)[7] != Message(e')[7];
    }
  }

  /** The straight-line command a character denotes; None for brackets and ignored characters. */
  function CmdOf(ch: char): (c: Option<Cmd>)
    ensures c.Some? ==> !c.value.Loop?
    ensures c.Some? <==> ch in "+-<>,."
  {
    match ch
    case '+' => Some(Plus)
    case '-' => Some(Minus)
    case '<' => Some(Left)
    case '>' => Some(Right)
    case ',' => Some(Input)
    case '.' => Some(Output)
    case _ => None
  }

  /** What a scan from some position produced: the commands, and where reading stopped. */
  datatype Parsed = Parsed(cmds: seq<Cmd>, next: nat)

  function Prepend(acc: seq<Cmd>, r: Result<Parsed, CompileError>): Result<Parsed, CompileError> {
    match r
    case Ok(p) => Ok(Parsed(acc + p.cmds, p.next))
    case Err(e) => Err(e)
  }

  lemma PrependNil(r: Result<Parsed, CompileError>)
    ensures Prepend([], r) == r
  {
    if r.Ok? {
      assert [] + r.value.cmds == r.value.cmds;
    }
  }

  lemma PrependAssoc(xs: seq<Cmd>, ys: seq<Cmd>, r: Result<Parsed, CompileError>)
    ensures Prepend(xs, Prepend(ys, r)) == Prepend(xs + ys, r)
  {
    if r.Ok? {
      assert xs + (ys + r.value.cmds) == (xs + ys) + r.value.cmds;
    }
  }

  /**
   * The scan of the compiler's recursive builder, read from `s[i]` on with
   * `depth` open brackets: a `]` ends the scan when `depth > 0` and is an
   * error when `depth == 0`; the end of input is an error when `depth > 0`.
   */
  function ParseBlock(s: seq<char>, i: nat, depth: nat): (r: Result<Parsed, CompileError>)
    requires i <= |s|
    ensures r.Ok? ==> i <= r.value.next <= |s|
    ensures r.Ok? && depth == 0 ==> r.value.next == |s|
    ensures r.Ok? && depth > 0 ==> i < r.value.next && s[r.value.next - 1] == ']'
    decreases |s| - i
  {
    if i == |s| then
      if depth != 0 then Err(UnbalancedBrackets) else Ok(Parsed([], i))
    else if s[i] == '[' then
      match ParseBlock(s, i + 1, depth + 1)
      case Err(e) => Err(e)
      case Ok(inner) => Prepend([Loop(inner.cmds)], ParseBlock(s, inner.next, depth))
    else if s[i] == ']' then
      if depth == 0 then Err(UnpairedClose) else Ok(Parsed([], i + 1))
    else match CmdOf(s[i])
      case Some(c) => Prepend([c], ParseBlock(s, i + 1, depth))
      case None => ParseBlock(s, i + 1, depth)
  }

  function ParseProgram(s: seq<char>): Result<Parsed, CompileError> {
    ParseBlock(s, 0, 0)
  }

  // ---------------------------------------------------------------------
  // The parse keeps exactly the text's command characters.

  /** Writes commands back as text: each command as its character, a loop between brackets. */
  function Flatten(cs: seq<Cmd>): string
    decreases cs
  {
    if cs == [] then ""
    else
      (match cs[0]
       case Plus => "+"
       case Minus => "-"
       case Left => "<"
       case Right => ">"
       case Input => ","
       case Output => "."
       case Loop(body) => "[" + Flatten(body) + "]")
      + Flatten(cs[1..])
  }

  /** The characters of `s[i..j]` that mean something to the compiler, in order. */
  function Keep(s: seq<char>, i: nat, j: nat): string
    requires i <= j <= |s|
    decreases j - i
  {
    if i == j then "" else (if s[i] in "+-<>,.[]" then [s[i]] else "") + Keep(s, i + 1, j)
  }

  lemma {:induction false} KeepSplit(s: seq<char>, i: nat, j: nat, k: nat)
    requires i <= j <= k <= |s|
    ensures Keep(s, i, k) == Keep(s, i, j) + Keep(s, j, k)
    decreases j - i
  {
    if i < j {
      KeepSplit(s, i + 1, j, k);
      var h := if s[i] in "+-<>,.[]" then [s[i]] else "";
      assert h + (Keep(s, i + 1, j) + Keep(s, j, k)) == (h + Keep(s, i + 1, j)) + Keep(s, j, k);
    }
  }

  lemma FlattenCons(c: Cmd, cs: seq<Cmd>)
    ensures Flatten([c] + cs) == Flatten([c]) + Flatten(cs)
  {
    assert ([c] + cs)[0] == c && ([c] + cs)[1..] == cs && [c][1..] == [];
  }

  /** The text a scan at `depth` stands for once it succeeds: its commands, then the `]` that stopped it, if any. */
  function Closing(cmds: seq<Cmd>, depth: nat): string {
    Flatten(cmds) + (if depth > 0 then "]" else "")
  }

  /**
   * Round trip: the commands a scan returns, written back as text, are the
   * command characters it read, ending with the `]` that stopped it inside a loop.
   */
  lemma {:induction false} ParseBlockRoundTrip(s: seq<char>, i: nat, depth: nat)
    requires i <= |s|
    ensures var r := ParseBlock(s, i, depth);
      r.Ok? ==> Closing(r.value.cmds, depth) == Keep(s, i, r.value.next)
    decreases |s| - i
  {
    var r := ParseBlock(s, i, depth);
    if i == |s| || !r.Ok? {
    } else if s[i] == '[' {
      var inner := ParseBlock(s, i + 1, depth + 1).value;
      ParseBlockRoundTrip(s, i + 1, depth + 1);
      ParseBlockRoundTrip(s, inner.next, depth);
      RoundTripLoop(s, i, depth, inner, ParseBlock(s, inner.next, depth).value);
    } else if s[i] == ']' {
      assert Keep(s, i + 1, i + 1) == "";
    } else if CmdOf(s[i]).Some? {
      ParseBlockRoundTrip(s, i + 1, depth);
      RoundTripCmd(s, i, depth, CmdOf(s[i]).value, ParseBlock(s, i + 1, depth).value);
    } else {
      ParseBlockRoundTrip(s, i + 1, depth);
    }
  }

  lemma RoundTripLoop(s: seq<char>, i: nat, depth: nat, inner: Parsed, rest: Parsed)
    requires i < |s| && s[i] == '[' && i + 1 <= inner.next <= rest.next <= |s|
    requires Closing(inner.cmds, depth + 1) == Keep(s, i + 1, inner.next)
    requires Closing(rest.cmds, depth) == Keep(s, inner.next, rest.next)
    ensures Closing([Loop(inner.cmds)] + rest.cmds, depth) == Keep(s, i, rest.next)
  {
    var body, after := Flatten(inner.cmds), Flatten(rest.cmds);
    var tail := if depth > 0 then "]" else "";
    FlattenCons(Loop(inner.cmds), rest.cmds);
    assert [Loop(inner.cmds)][1..] == [];
    assert Flatten([Loop(inner.cmds)]) == "[" + body + "]";
    KeepSplit(s, i, i + 1, rest.next);
    KeepSplit(s, i + 1, inner.next, rest.next);
    assert Keep(s, i, i + 1) == "[";
    Regroup("[", body, "]", after, tail);
  }

  lemma Regroup(x: string, y: string, z: string, u: string, v: string)
    ensures (x + y + z) + u + v == x + ((y + z) + (u + v))
  {
  }

  lemma RoundTripCmd(s: seq<char>, i: nat, depth: nat, c: Cmd, rest: Parsed)
    requires i < |s| && CmdOf(s[i]) == Some(c) && i + 1 <= rest.next <= |s|
    requires Closing(rest.cmds, depth) == Keep(s, i + 1, rest.next)
    ensures Closing([c] + rest.cmds, depth) == Keep(s, i, rest.next)
  {
    var tail := if depth > 0 then "]" else "";
    FlattenCons(c, rest.cmds);
    assert [c][1..] == [];
    assert Flatten([c]) == [s[i]];
    KeepSplit(s, i, i + 1, rest.next);
    assert Keep(s, i, i + 1) == [s[i]];
    Regroup([s[i]], "", "", Flatten(rest.cmds), tail);
  }

  /** A whole program that compiles, written back as text, is its command characters. */
  lemma ParseProgramRoundTrip(s: seq<char>)
    ensures ParseProgram(s).Ok? ==> Flatten(ParseProgram(s).value.cmds) == Keep(s, 0, |s|)
  {
    ParseBlockRoundTrip(s, 0, 0);
    if ParseProgram(s).Ok? {
      ParseBlockCounts(s, 0, 0);
      assert Closing(ParseProgram(s).value.cmds, 0) == Flatten(ParseProgram(s).value.cmds) + "";
    }
  }

  // ---------------------------------------------------------------------
  // Bracket balance, defined by counting.

  function Delta(ch: char): int {
    if ch == '[' then 1 else if ch == ']' then -1 else 0
  }

  /** Number of `[` minus number of `]` in `s[i..j]`. */
  function Net(s: seq<char>, i: nat, j: nat): int
    requires i <= j <= |s|
    decreases j - i
  {
    if i == j then 0 else Delta(s[i]) + Net(s, i + 1, j)
  }

  /** No prefix closes more brackets than it opens, and the whole text closes all it opens. */
  predicate Balanced(s: seq<char>) {
    Net(s, 0, |s|) == 0 && forall k :: 0 <= k <= |s| ==> Net(s, 0, k) >= 0
  }

  lemma {:induction false} NetSplit(s: seq<char>, i: nat, j: nat, k: nat)
    requires i <= j <= k <= |s|
    ensures Net(s, i, k) == Net(s, i, j) + Net(s, j, k)
    decreases j - i
  {
    if i < j {
      NetSplit(s, i + 1, j, k);
    }
  }

  /**
   * What the scan from `i` at nesting `depth` returns, in terms of bracket
   * counts: inside a loop it stops just after the `]` that first brings the
   * count below zero, or fails at the end of input; at the top level it
   * fails on the first unpaired `]`, or at the end of input if brackets stay open.
   */
  ghost predicate CountsAgree(s: seq<char>, i: nat, depth: nat)
    requires i <= |s|
  {
    var r := ParseBlock(s, i, depth);
    && (r.Err? ==> r.error != VerificationFailed)
    && (depth > 0 && r.Ok? ==>
          i < r.value.next && s[r.value.next - 1] == ']' && Net(s, i, r.value.next) == -1
          && forall k :: i <= k < r.value.next ==> Net(s, i, k) >= 0)
    && (depth > 0 && r.Err? ==>
          r.error == UnbalancedBrackets && forall k :: i <= k <= |s| ==> Net(s, i, k) >= 0)
    && (depth == 0 && r.Ok? ==>
          r.value.next == |s| && Net(s, i, |s|) == 0 && forall k :: i <= k <= |s| ==> Net(s, i, k) >= 0)
    && (depth == 0 && r == Err(UnpairedClose) ==> exists k :: i <= k <= |s| && Net(s, i, k) < 0)
    && (depth == 0 && r == Err(UnbalancedBrackets) ==>
          Net(s, i, |s|) != 0 && forall k :: i <= k <= |s| ==> Net(s, i, k) >= 0)
  }

  lemma {:induction false} ParseBlockCounts(s: seq<char>, i: nat, depth: nat)
    requires i <= |s|
    ensures CountsAgree(s, i, depth)
    decreases |s| - i
  {
    if i == |s| {
      assert Net(s, i, i) == 0;
    } else if s[i] == '[' {
      ParseBlockCounts(s, i + 1, depth + 1);
      var inner := ParseBlock(s, i + 1, depth + 1);
      if inner.Ok? {
        ParseBlockCounts(s, inner.value.next, depth);
        CountsAfterLoop(s, i, depth);
      } else {
        CountsLoopFails(s, i, depth);
      }
    } else if s[i] == ']' {
      assert Net(s, i, i + 1) == -1;
      assert Net(s, i, i) == 0;
    } else {
      ParseBlockCounts(s, i + 1, depth);
      CountsSkip(s, i, depth);
    }
  }

  /** Reading one non-`[` character shifts every count from `i + 1` by its own delta. */
  lemma CountsShift(s: seq<char>, i: nat)
    requires i < |s|
    ensures Net(s, i, i) == 0
    ensures forall k :: i + 1 <= k <= |s| ==> Net(s, i, k) == Delta(s[i]) + Net(s, i + 1, k)
  {
    forall k | i + 1 <= k <= |s| ensures Net(s, i, k) == Delta(s[i]) + Net(s, i + 1, k) {
      NetSplit(s, i, i + 1, k);
    }
  }

  lemma CountsLoopFails(s: seq<char>, i: nat, depth: nat)
    requires i < |s| && s[i] == '[' && ParseBlock(s, i + 1, depth + 1).Err?
    requires CountsAgree(s, i + 1, depth + 1)
    ensures CountsAgree(s, i, depth)
  {
    CountsShift(s, i);
  }

  lemma CountsAfterLoop(s: seq<char>, i: nat, depth: nat)
    requires i < |s| && s[i] == '[' && ParseBlock(s, i + 1, depth + 1).Ok?
    requires CountsAgree(s, i + 1, depth + 1)
    requires CountsAgree(s, ParseBlock(s, i + 1, depth + 1).value.next, depth)
    ensures CountsAgree(s, i, depth)
  {
    var inner := ParseBlock(s, i + 1, depth + 1);
    var j := inner.value.next;
    CountsShift(s, i);
    assert Net(s, i, j) == 0;
    forall k | j <= k <= |s| ensures Net(s, i, k) == Net(s, j, k) {
      NetSplit(s, i, j, k);
    }
    var rest := ParseBlock(s, j, depth);
    assert ParseBlock(s, i, depth) == Prepend([Loop(inner.value.cmds)], rest);
    if depth == 0 && rest == Err(UnpairedClose) {
      var k :| j <= k <= |s| && Net(s, j, k) < 0;
      assert Net(s, i, k) < 0;
    }
  }

  lemma CountsSkip(s: seq<char>, i: nat, depth: nat)
    requires i < |s| && s[i] != '[' && s[i] != ']'
    requires CountsAgree(s, i + 1, depth)
    ensures CountsAgree(s, i, depth)
  {
    CountsShift(s, i);
    var rest := ParseBlock(s, i + 1, depth);
    if depth == 0 && rest == Err(UnpairedClose) {
      var k :| i + 1 <= k <= |s| && Net(s, i + 1, k) < 0;
      assert Net(s, i, k) < 0;
    }
  }

  /**
   * Compilation of a whole text succeeds exactly when its brackets are
   * balanced; an unpaired `]` and a missing `]` give the two distinct errors.
   */
  lemma ParseProgramBalanced(s: seq<char>)
    ensures ParseProgram(s).Ok? <==> Balanced(s)
    ensures ParseProgram(s).Err? ==> ParseProgram(s).error != VerificationFailed
    ensures ParseProgram(s).Ok? ==> ParseProgram(s).value.next == |s|
    ensures ParseProgram(s) == Err(UnpairedClose) <==> exists k :: 0 <= k <= |s| && Net(s, 0, k) < 0
    ensures ParseProgram(s) == Err(UnbalancedBrackets) <==>
              (forall k :: 0 <= k <= |s| ==> Net(s, 0, k) >= 0) && Net(s, 0, |s|) != 0
  {
    ParseBlockCounts(s, 0, 0);
    var r := ParseBlock(s, 0, 0);
    assert ParseProgram(s) == r;
    if r == Err(UnpairedClose) {
      var k :| 0 <= k <= |s| && Net(s, 0, k) < 0;
      assert exists k :: 0 <= k <= |s| && Net(s, 0, k) < 0;
    }
  }

  // ---------------------------------------------------------------------
  // Reference interpreter.

  /** The meaning of a straight-line command, stated directly on cells and head. */
  function Interp(c: Cmd, m: State): (r: Option<State>)
    requires !c.Loop?
    ensures r.None? <==> (c.Plus? || c.Minus? || c.Input? || c.Output?) && !InTape(m)
  {
    match c
    case Plus =>
      if InTape(m) then Some(m.(tape := m.tape[m.head := if Cell(m) == 255 then 0 else Cell(m) + 1])) else None
    case Minus =>
      if InTape(m) then Some(m.(tape := m.tape[m.head := if Cell(m) == 0 then 255 else Cell(m) - 1])) else None
    case Left => Some(m.(head := WrapI32(m.head - 1)))
    case Right => Some(m.(head := WrapI32(m.head + 1)))
    case Input =>
      if !InTape(m) then None
      else if m.input == [] then Some(m.(tape := m.tape[m.head := 255]))
      else Some(m.(tape := m.tape[m.head := m.input[0]], input := m.input[1..]))
    case Output =>
      if InTape(m) then Some(m.(output := m.output + [Cell(m)])) else None
  }

  /**
   * How a run ends: finished with some fuel left, stopped because the head
   * left the tape where a cell was touched, or out of fuel.
   */
  datatype Outcome = Done(m: State, fuel: nat) | Undefined(m: State) | Exhausted

  /**
   * Runs a command sequence. Fuel counts control transfers the way the
   * compiled code takes them: one to enter a loop, one per test of its
   * condition and one per jump back to the test.
   */
  function RunSeq(cs: seq<Cmd>, m: State, fuel: nat): (r: Outcome)
    ensures r.Done? ==> r.fuel <= fuel
    decreases fuel, cs
  {
    if cs == [] then Done(m, fuel)
    else match cs[0]
      case Loop(body) =>
        if fuel == 0 then Exhausted
        else (match RunLoop(body, m, fuel - 1)
          case Done(m', f') => RunSeq(cs[1..], m', f')
          case Undefined(u) => Undefined(u)
          case Exhausted => Exhausted)
      case _ =>
        match Interp(cs[0], m)
        case None => Undefined(m)
        case Some(m') => RunSeq(cs[1..], m', fuel)
  }

  /** `while (tape[head] != 0) body`, entered at the test. */
  function RunLoop(body: seq<Cmd>, m: State, fuel: nat): (r: Outcome)
    ensures r.Done? ==> r.fuel < fuel
    decreases fuel, body
  {
    if fuel == 0 then Exhausted
    else if !InTape(m) then Undefined(m)
    else if Cell(m) == 0 then Done(m, fuel - 1)
    else match RunSeq(body, m, fuel - 1)
      case Done(m', f') => if f' == 0 then Exhausted else RunLoop(body, m', f' - 1)
      case Undefined(u) => Undefined(u)
      case Exhausted => Exhausted
  }

  /** A loop that finishes leaves the head on a zero cell. */
  lemma {:induction false} LoopExitsOnZero(body: seq<Cmd>, m: State, fuel: nat)
    requires RunLoop(body, m, fuel).Done?
    ensures InTape(RunLoop(body, m, fuel).m) && Cell(RunLoop(body, m, fuel).m) == 0
    decreases fuel
  {
    if InTape(m) && Cell(m) != 0 {
      var inner := RunSeq(body, m, fuel - 1);
      LoopExitsOnZero(body, inner.m, inner.fuel - 1);
    }
  }

  /**
   * Fuel is only a bound: a run that finishes or hits undefined behaviour
   * does the same with more fuel, keeping the extra fuel unspent.
   */
  lemma {:induction false} RunSeqMoreFuel(cs: seq<Cmd>, m: State, fuel: nat, extra: nat)
    requires !RunSeq(cs, m, fuel).Exhausted?
    ensures var r := RunSeq(cs, m, fuel);
      RunSeq(cs, m, fuel + extra) == if r.Done? then Done(r.m, r.fuel + extra) else r
    decreases fuel, cs
  {
    if cs != [] {
      match cs[0]
      case Loop(body) =>
        RunLoopMoreFuel(body, m, fuel - 1, extra);
        var l := RunLoop(body, m, fuel - 1);
        if l.Done? {
          RunSeqMoreFuel(cs[1..], l.m, l.fuel, extra);
        }
      case _ =>
        if Interp(cs[0], m).Some? {
          RunSeqMoreFuel(cs[1..], Interp(cs[0], m).value, fuel, extra);
        }
    }
  }

  lemma {:induction false} RunLoopMoreFuel(body: seq<Cmd>, m: State, fuel: nat, extra: nat)
    requires !RunLoop(body, m, fuel).Exhausted?
    ensures var r := RunLoop(body, m, fuel);
      RunLoop(body, m, fuel + extra) == if r.Done? then Done(r.m, r.fuel + extra) else r
    decreases fuel, body
  {
    if InTape(m) && Cell(m) != 0 {
      RunSeqMoreFuel(body, m, fuel - 1, extra);
      var inner := RunSeq(body, m, fuel - 1);
      if inner.Done? {
        RunLoopMoreFuel(body, inner.m, inner.fuel - 1, extra);
      }
    }
  }
}
