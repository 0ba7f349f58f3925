/** A small interpreter for the Hack instructions the translator emits, with
    unbounded integers in place of 16-bit words. It runs one emitted block:
    a taken jump records its target, the instructions after it are skipped
    until a label with that address, and a jump whose label does not follow
    in the block leaves the block with the target pending. */
module HackMachine {
  import opened Results
  import opened Hack

  /** RAM (absent cells read as 0), the A and D registers, and the target
      of a taken jump that has not been reached yet. */
  datatype Machine = Machine(ram: map<int, int>, a: int, d: int, jump: Option<int>)

  /** Addresses the assembler gives to labels, function names and static
      variables. */
  type SymbolTable = string -> int

  function Read(ram: map<int, int>, k: int): int {
    if k in ram then ram[k] else 0
  }

  /** The value held in a predefined register. */
  function RegValue(m: Machine, r: Register): int {
    Read(m.ram, RegisterAddress(r))
  }

  predicate Running(m: Machine) {
    m.jump.None?
  }

  // ---------------------------------------------------------------------
  // Bitwise operations on two's-complement integers of unbounded width
  // ---------------------------------------------------------------------

  function Abs(x: int): nat {
    if x < 0 then -x else x
  }

  /** Bitwise and, one bit at a time from the least significant end; 0 and
      -1 (all zeros, all ones) end the recursion. */
  function BitAnd(x: int, y: int): int
    decreases Abs(x) + Abs(y)
  {
    if x == 0 || y == 0 then 0
    else if x == -1 then y
    else if y == -1 then x
    else 2 * BitAnd(x / 2, y / 2) + (x % 2) * (y % 2)
  }

  function BitNot(x: int): int {
    -x - 1
  }

  function BitOr(x: int, y: int): int {
    BitNot(BitAnd(BitNot(x), BitNot(y)))
  }

  lemma {:induction false} BitAndCommutes(x: int, y: int)
    ensures BitAnd(x, y) == BitAnd(y, x)
    decreases Abs(x) + Abs(y)
  {
    if x != 0 && y != 0 && x != -1 && y != -1 {
      BitAndCommutes(x / 2, y / 2);
    }
  }

  lemma BitOrCommutes(x: int, y: int)
    ensures BitOr(x, y) == BitOr(y, x)
  {
    BitAndCommutes(BitNot(x), BitNot(y));
  }

  // ---------------------------------------------------------------------
  // Execution
  // ---------------------------------------------------------------------

  function Store(m: Machine, v: int): Machine {
    m.(ram := m.ram[m.a := v])
  }

  function Branch(m: Machine, taken: bool): Machine {
    if taken then m.(jump := Some(m.a)) else m
  }

  /** One compute instruction; `M` is the RAM cell addressed by A. */
  function Compute(m: Machine, c: Comp): Machine {
    match c
    case DEqA => m.(d := m.a)
    case DEqM => m.(d := Read(m.ram, m.a))
    case DEqMMinusD => m.(d := Read(m.ram, m.a) - m.d)
    case DEqAPlusD => m.(d := m.a + m.d)
    case DEqDMinusA => m.(d := m.d - m.a)
    case DEqMPlusOne => m.(d := Read(m.ram, m.a) + 1)
    case AEqM => m.(a := Read(m.ram, m.a))
    case AEqAMinusOne => m.(a := m.a - 1)
    case AEqMMinusOne => m.(a := Read(m.ram, m.a) - 1)
    case AEqDMinusA => m.(a := m.d - m.a)
    case AMEqMMinusOne => m.(ram := m.ram[m.a := Read(m.ram, m.a) - 1], a := Read(m.ram, m.a) - 1)
    case MEqD => Store(m, m.d)
    case MEqDPlusM => Store(m, m.d + Read(m.ram, m.a))
    case MEqMMinusD => Store(m, Read(m.ram, m.a) - m.d)
    case MEqDAndM => Store(m, BitAnd(m.d, Read(m.ram, m.a)))
    case MEqDOrM => Store(m, BitOr(m.d, Read(m.ram, m.a)))
    case MEqNegM => Store(m, -Read(m.ram, m.a))
    case MEqNotM => Store(m, BitNot(Read(m.ram, m.a)))
    case MEqZero => Store(m, 0)
    case MEqMinusOne => Store(m, -1)
    case MEqMPlusOne => Store(m, Read(m.ram, m.a) + 1)
    case JumpEq => Branch(m, m.d == 0)
    case JumpGt => Branch(m, m.d > 0)
    case JumpLt => Branch(m, m.d < 0)
    case JumpNe => Branch(m, m.d != 0)
    case Jump => Branch(m, true)
  }

  /** The value an address instruction loads into A. */
  function Resolve(table: SymbolTable, x: Address): int {
    match x
    case Num(n) => n
    case Reg(r) => RegisterAddress(r)
    case Sym(s) => table(s)
  }

  function Step(table: SymbolTable, m: Machine, i: Instr): Machine {
    match m.jump
    case Some(target) =>
      if i.Mark? && table(i.name) == target then m.(jump := None) else m
    case None =>
      match i
      case At(x) => m.(a := Resolve(table, x))
      case C(c) => Compute(m, c)
      case Mark(_) => m
  }

  function Exec(table: SymbolTable, code: seq<Instr>, m: Machine): Machine
    decreases |code|, m
  {
    if code == [] then m else Exec(table, code[1..], Step(table, m, code[0]))
  }

  /** Running two blocks one after the other is running their
      concatenation. */
  lemma {:induction false} ExecAppend(table: SymbolTable, x: seq<Instr>, y: seq<Instr>, m: Machine)
    ensures Exec(table, x + y, m) == Exec(table, y, Exec(table, x, m))
    decreases |x|
  {
    if x == [] {
      assert x + y == y;
    } else {
      assert (x + y)[0] == x[0];
      assert (x + y)[1..] == x[1..] + y;
      ExecAppend(table, x[1..], y, Step(table, m, x[0]));
    }
  }

  /** Short blocks, one step at a time. */
  lemma ExecSingle(table: SymbolTable, i: Instr, m: Machine)
    ensures Exec(table, [i], m) == Step(table, m, i)
  {
    assert [i][1..] == [];
  }

  lemma ExecPair(table: SymbolTable, i: Instr, j: Instr, m: Machine)
    ensures Exec(table, [i, j], m) == Step(table, Step(table, m, i), j)
  {
    assert [i, j][1..] == [j];
    ExecSingle(table, j, Step(table, m, i));
  }

  lemma ExecTriple(table: SymbolTable, i: Instr, j: Instr, k: Instr, m: Machine)
    ensures Exec(table, [i, j, k], m) == Step(table, Step(table, Step(table, m, i), j), k)
  {
    assert [i, j, k][1..] == [j, k];
    ExecPair(table, j, k, Step(table, m, i));
  }

  /** Once a jump has left the block, nothing but its own target label can
      resume execution. */
  lemma {:induction false} ExecPending(table: SymbolTable, code: seq<Instr>, m: Machine)
    requires m.jump.Some?
    requires forall k :: 0 <= k < |code| && code[k].Mark? ==> table(code[k].name) != m.jump.value
    ensures Exec(table, code, m) == m
    decreases |code|
  {
    if code != [] {
      ExecPending(table, code[1..], m);
    }
  }
}
