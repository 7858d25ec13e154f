/**
 * The state the compiled program runs on: the global byte tape, the global
 * i32 head, and the byte streams behind `getchar` and `putchar`.
 */
module Machine {

  /** Number of cells of the global `tape` array. */
  const TAPE_SIZE: nat := 655360

  /** Value the `brain` function stores into `head` before any translated instruction. */
  const HEAD_POS: int := TAPE_SIZE / 2

  /** Value `getchar` returns once the input is exhausted. */
  const EOF: int := -1

  const I32_MIN: int := -0x8000_0000
  const I32_MAX: int := 0x7fff_ffff

  type byte = x: int | 0 <= x < 256

  /** Two's-complement truncation to 8 bits (an `i8` result read as unsigned). */
  function Wrap8(x: int): (r: byte)
    ensures (r - x) % 256 == 0
  {
    x % 256
  }

  /** Two's-complement wrap-around of an `i32` addition. */
  function WrapI32(x: int): (r: int)
    ensures I32_MIN <= r <= I32_MAX
    ensures (r - x) % 0x1_0000_0000 == 0
    ensures I32_MIN <= x <= I32_MAX ==> r == x
  {
    (x - I32_MIN) % 0x1_0000_0000 + I32_MIN
  }

  /**
   * The compiled program's view of the world: tape contents, head position,
   * the bytes `getchar` has still to return, and the bytes `putchar` has written.
   */
  datatype State = State(tape: seq<byte>, head: int, input: seq<byte>, output: seq<byte>)

  /** The head designates a cell of the tape; otherwise a load or store through it is undefined. */
  predicate InTape(m: State) {
    0 <= m.head < |m.tape|
  }

  function Cell(m: State): byte
    requires InTape(m)
  {
    m.tape[m.head]
  }

  /** `tape` is declared `[TAPE_SIZE x i8] zeroinitializer`. */
  function ZeroTape(): (t: seq<byte>)
    ensures |t| == TAPE_SIZE
    ensures forall j :: 0 <= j < |t| ==> t[j] == 0
  {
    seq(TAPE_SIZE, _ => 0)
  }

  /** The value `getchar` returns on a state: the next input byte, or EOF. */
  function NextChar(m: State): (c: int)
    ensures m.input == [] ==> c == EOF
    ensures m.input != [] ==> c == m.input[0]
  {
    if m.input == [] then EOF else m.input[0]
  }

  /** The input left after one `getchar`. */
  function Consume(m: State): (rest: seq<byte>)
    ensures m.input != [] ==> [m.input[0]] + rest == m.input
    ensures m.input == [] ==> rest == []
  {
    if m.input == [] then [] else m.input[1..]
  }
}
