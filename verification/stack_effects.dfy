/** What the emitted blocks do when run on the Hack machine. The effect of
    each instruction idiom is computed once; the effects of the command
    translations are then composed from them with `ExecAppend`. */
module StackEffects {
  import opened Results
  import opened Hack
  import opened HackMachine
  import opened CommandKinds
  import opened CodeWriter

  /** The stack pointer's value. */
  function Sp(m: Machine): int {
    RegValue(m, SP)
  }

  // ---------------------------------------------------------------------
  // Instruction idioms
  // ---------------------------------------------------------------------

  lemma LoadAddressEffect(table: SymbolTable, x: Address, m: Machine)
    requires Running(m)
    ensures Exec(table, LoadAddress(x), m) == m.(a := Resolve(table, x), d := Resolve(table, x))
  {
    ExecPair(table, At(x), C(DEqA), m);
  }

  lemma LoadValueEffect(table: SymbolTable, x: Address, m: Machine)
    requires Running(m)
    ensures Exec(table, LoadValue(x), m) == m.(a := Resolve(table, x), d := Read(m.ram, Resolve(table, x)))
  {
    ExecPair(table, At(x), C(DEqM), m);
  }

  lemma StoreDEffect(table: SymbolTable, x: Address, m: Machine)
    requires Running(m)
    ensures Exec(table, StoreD(x), m) == m.(ram := m.ram[Resolve(table, x) := m.d], a := Resolve(table, x))
  {
    var m1 := m.(a := Resolve(table, x));
    assert Step(table, m, At(x)) == m1;
    assert Step(table, m1, C(MEqD)) == m.(ram := m.ram[Resolve(table, x) := m.d], a := Resolve(table, x));
    ExecPair(table, At(x), C(MEqD), m);
  }

  lemma FollowEffect(table: SymbolTable, r: Register, m: Machine)
    requires Running(m)
    ensures Exec(table, Follow(r), m) == m.(a := RegValue(m, r))
  {
    ExecPair(table, At(Reg(r)), C(AEqM), m);
  }

  lemma SubtractAddressEffect(table: SymbolTable, x: Address, m: Machine)
    requires Running(m)
    ensures Exec(table, SubtractAddress(x), m) == m.(a := Resolve(table, x), d := m.d - Resolve(table, x))
  {
    ExecPair(table, At(x), C(DEqDMinusA), m);
  }

  lemma JumpToEffect(table: SymbolTable, x: Address, m: Machine)
    requires Running(m)
    ensures Exec(table, JumpTo(x), m) == m.(a := Resolve(table, x), jump := Some(Resolve(table, x)))
  {
    ExecPair(table, At(x), C(Jump), m);
  }

  lemma ComputeEffect(table: SymbolTable, c: Comp, m: Machine)
    requires Running(m)
    ensures Exec(table, [C(c)], m) == Compute(m, c)
  {
    ExecSingle(table, C(c), m);
  }

  lemma PopDEffect(table: SymbolTable, m: Machine)
    requires Running(m) && Sp(m) != 1
    ensures Exec(table, PopD(), m) ==
              m.(ram := m.ram[0 := Sp(m) - 1], a := Sp(m) - 1, d := Read(m.ram, Sp(m) - 1))
  {
    var m1 := m.(a := RegisterAddress(SP));
    var m2 := m.(ram := m.ram[0 := Sp(m) - 1], a := Sp(m) - 1);
    assert Step(table, m, At(Reg(SP))) == m1;
    assert Step(table, m1, C(AMEqMMinusOne)) == m2;
    assert Read(m2.ram, Sp(m) - 1) == Read(m.ram, Sp(m) - 1);
    assert Step(table, m2, C(DEqM)) == m2.(d := Read(m.ram, Sp(m) - 1));
    ExecTriple(table, At(Reg(SP)), C(AMEqMMinusOne), C(DEqM), m);
  }

  lemma AddressTopEffect(table: SymbolTable, m: Machine)
    requires Running(m)
    ensures Exec(table, AddressTop(), m) == m.(a := Sp(m) - 1)
  {
    ExecPair(table, At(Reg(SP)), C(AEqMMinusOne), m);
  }

  /** *SP = D. */
  lemma StoreTopEffect(table: SymbolTable, m: Machine)
    requires Running(m)
    ensures Exec(table, [At(Reg(SP)), C(AEqM), C(MEqD)], m) == m.(ram := m.ram[Sp(m) := m.d], a := Sp(m))
  {
    var m1 := m.(a := RegisterAddress(SP));
    var m2 := m.(a := Sp(m));
    assert Step(table, m, At(Reg(SP))) == m1;
    assert Step(table, m1, C(AEqM)) == m2;
    assert Step(table, m2, C(MEqD)) == m.(ram := m.ram[Sp(m) := m.d], a := Sp(m));
    ExecTriple(table, At(Reg(SP)), C(AEqM), C(MEqD), m);
  }

  /** SP++, with SP = s. */
  lemma BumpSpEffect(table: SymbolTable, s: int, m: Machine)
    requires Running(m) && Sp(m) == s
    ensures Exec(table, [At(Reg(SP)), C(MEqMPlusOne)], m) == m.(ram := m.ram[0 := s + 1], a := 0)
  {
    var m1 := m.(a := RegisterAddress(SP));
    assert Step(table, m, At(Reg(SP))) == m1;
    assert Step(table, m1, C(MEqMPlusOne)) == m.(ram := m.ram[0 := s + 1], a := 0);
    ExecPair(table, At(Reg(SP)), C(MEqMPlusOne), m);
  }

  lemma PushDEffect(table: SymbolTable, m: Machine)
    requires Running(m) && Sp(m) != 0
    ensures Exec(table, PushD(), m) == m.(ram := m.ram[Sp(m) := m.d][0 := Sp(m) + 1], a := 0)
  {
    var m1 := m.(ram := m.ram[Sp(m) := m.d], a := Sp(m));
    assert Sp(m1) == Sp(m);
    StoreTopEffect(table, m);
    BumpSpEffect(table, Sp(m), m1);
    ExecAppend(table, [At(Reg(SP)), C(AEqM), C(MEqD)], [At(Reg(SP)), C(MEqMPlusOne)], m);
  }

  lemma LoadBelowEffect(table: SymbolTable, k: nat, m: Machine)
    requires Running(m)
    ensures Exec(table, LoadBelow(k), m) == m.(a := m.d - k, d := Read(m.ram, m.d - k))
  {
    var m1 := m.(a := k);
    var m2 := m.(a := m.d - k);
    assert Step(table, m, At(Num(k))) == m1;
    assert Step(table, m1, C(AEqDMinusA)) == m2;
    assert Step(table, m2, C(DEqM)) == m2.(d := Read(m.ram, m.d - k));
    ExecTriple(table, At(Num(k)), C(AEqDMinusA), C(DEqM), m);
  }

  lemma LoadSuccessorEffect(table: SymbolTable, x: Address, m: Machine)
    requires Running(m)
    ensures Exec(table, LoadSuccessor(x), m) == m.(a := Resolve(table, x), d := Read(m.ram, Resolve(table, x)) + 1)
  {
    ExecPair(table, At(x), C(DEqMPlusOne), m);
  }

  lemma LoadIndirectEffect(table: SymbolTable, m: Machine)
    requires Running(m)
    ensures Exec(table, LoadIndirect(), m) ==
              m.(a := Read(m.ram, m.a), d := Read(m.ram, Read(m.ram, m.a)))
  {
    ExecPair(table, C(AEqM), C(DEqM), m);
  }

  /** A label leaves a running machine alone and resumes a jump to it. */
  lemma MarkEffect(table: SymbolTable, name: string, m: Machine)
    ensures Exec(table, [Mark(name)], m) ==
              if m.jump == Some(table(name)) then m.(jump := None) else m
  {
  }

  // ---------------------------------------------------------------------
  // The helper blocks of the code writer
  // ---------------------------------------------------------------------

  /** Push RAM[x]. */
  lemma PushValueEffect(table: SymbolTable, x: Address, m: Machine)
    requires Running(m) && Sp(m) != 0
    ensures var v := Read(m.ram, Resolve(table, x));
            Exec(table, LoadValue(x) + PushD(), m) == m.(ram := m.ram[Sp(m) := v][0 := Sp(m) + 1], a := 0, d := v)
  {
    ExecAppend(table, LoadValue(x), PushD(), m);
    LoadValueEffect(table, x, m);
    PushDEffect(table, m.(a := Resolve(table, x), d := Read(m.ram, Resolve(table, x))));
  }

  /** Push the operand x itself. */
  lemma PushAddressEffect(table: SymbolTable, x: Address, m: Machine)
    requires Running(m) && Sp(m) != 0
    ensures var v := Resolve(table, x);
            Exec(table, LoadAddress(x) + PushD(), m) == m.(ram := m.ram[Sp(m) := v][0 := Sp(m) + 1], a := 0, d := v)
  {
    ExecAppend(table, LoadAddress(x), PushD(), m);
    LoadAddressEffect(table, x, m);
    PushDEffect(table, m.(a := Resolve(table, x), d := Resolve(table, x)));
  }

  /** D = index; A = RAM[base]. */
  lemma IndexAndBaseEffect(table: SymbolTable, base: Register, index: nat, m: Machine)
    requires Running(m)
    ensures Exec(table, LoadAddress(Num(index)) + Follow(base), m) == m.(a := RegValue(m, base), d := index)
  {
    var m1 := m.(a := index, d := index);
    assert RegValue(m1, base) == RegValue(m, base);
    LoadAddressEffect(table, Num(index), m);
    FollowEffect(table, base, m1);
    ExecAppend(table, LoadAddress(Num(index)), Follow(base), m);
  }

  /** R13 = A + D. */
  lemma SumIntoR13Effect(table: SymbolTable, m: Machine)
    requires Running(m)
    ensures Exec(table, AddBase() + StoreD(Reg(R13)), m) ==
              m.(ram := m.ram[13 := m.a + m.d], a := 13, d := m.a + m.d)
  {
    var v := m.a + m.d;
    var m1 := m.(d := v);
    var m2 := m.(ram := m.ram[13 := v], a := 13, d := v);
    assert Resolve(table, Reg(R13)) == 13;
    assert m1.(ram := m1.ram[13 := m1.d], a := 13) == m2;
    ComputeEffect(table, DEqAPlusD, m);
    StoreDEffect(table, Reg(R13), m1);
    ExecAppend(table, AddBase(), StoreD(Reg(R13)), m);
  }

  lemma AddrFromBaseEffect(table: SymbolTable, base: Register, index: nat, m: Machine)
    requires Running(m)
    ensures Exec(table, AddrFromBase(base, index), m) ==
              m.(ram := m.ram[13 := RegValue(m, base) + index], a := 13, d := RegValue(m, base) + index)
  {
    IndexAndBaseEffect(table, base, index, m);
    SumIntoR13Effect(table, m.(a := RegValue(m, base), d := index));
    ExecAppend(table, LoadAddress(Num(index)) + Follow(base), AddBase() + StoreD(Reg(R13)), m);
  }

  lemma PopToR13TargetEffect(table: SymbolTable, m: Machine)
    requires Running(m) && Sp(m) != 1
    ensures Exec(table, PopToR13Target(), m) ==
              m.(ram := m.ram[0 := Sp(m) - 1][RegValue(m, R13) := Read(m.ram, Sp(m) - 1)],
                 a := RegValue(m, R13), d := Read(m.ram, Sp(m) - 1))
  {
    ExecAppend(table, PopD() + Follow(R13), StoreAtA(), m);
    ExecAppend(table, PopD(), Follow(R13), m);
    PopDEffect(table, m);
    var m1 := m.(ram := m.ram[0 := Sp(m) - 1], a := Sp(m) - 1, d := Read(m.ram, Sp(m) - 1));
    FollowEffect(table, R13, m1);
    ComputeEffect(table, MEqD, m1.(a := RegValue(m, R13)));
  }

  lemma AddressToR13Effect(table: SymbolTable, x: Address, m: Machine)
    requires Running(m)
    ensures Exec(table, AddressToR13(x), m) ==
              m.(ram := m.ram[13 := Resolve(table, x)], a := 13, d := Resolve(table, x))
  {
    ExecAppend(table, LoadAddress(x), StoreD(Reg(R13)), m);
    LoadAddressEffect(table, x, m);
    StoreDEffect(table, Reg(R13), m.(a := Resolve(table, x), d := Resolve(table, x)));
  }

  lemma RestoreFromFrameEffect(table: SymbolTable, offset: nat, dest: Register, m: Machine)
    requires Running(m)
    ensures var v := Read(m.ram, RegValue(m, R13) - offset);
            Exec(table, RestoreFromFrame(offset, dest), m) ==
              m.(ram := m.ram[RegisterAddress(dest) := v], a := RegisterAddress(dest), d := v)
  {
    var m1 := m.(a := 13, d := RegValue(m, R13));
    LoadValueEffect(table, Reg(R13), m);
    FetchBelowEffect(table, offset, dest, m1);
    ExecAppend(table, LoadValue(Reg(R13)), LoadBelow(offset) + StoreD(Reg(dest)), m);
  }

  /** `binary`: pops y into D and applies `op` with A on x's cell. */
  lemma BinaryEffect(table: SymbolTable, op: Comp, m: Machine)
    requires Running(m) && Sp(m) != 1
    ensures Exec(table, Binary(op), m) ==
              Compute(m.(ram := m.ram[0 := Sp(m) - 1], a := Sp(m) - 2, d := Read(m.ram, Sp(m) - 1)), op)
  {
    ExecAppend(table, PopD() + [C(AEqAMinusOne)], [C(op)], m);
    ExecAppend(table, PopD(), [C(AEqAMinusOne)], m);
    PopDEffect(table, m);
    var m1 := m.(ram := m.ram[0 := Sp(m) - 1], a := Sp(m) - 1, d := Read(m.ram, Sp(m) - 1));
    ComputeEffect(table, AEqAMinusOne, m1);
    ComputeEffect(table, op, m1.(a := Sp(m) - 2));
  }

  /** `unary`: applies `op` with A on the topmost cell. */
  lemma UnaryEffect(table: SymbolTable, op: Comp, m: Machine)
    requires Running(m)
    ensures Exec(table, Unary(op), m) == Compute(m.(a := Sp(m) - 1), op)
  {
    ExecAppend(table, AddressTop(), [C(op)], m);
    AddressTopEffect(table, m);
    ComputeEffect(table, op, m.(a := Sp(m) - 1));
  }

  // ---------------------------------------------------------------------
  // Arithmetic and logic
  // ---------------------------------------------------------------------

  /** The Hack jump condition on D that a compare uses. */
  function Holds(jump: Comp, v: int): bool {
    match jump
    case JumpEq => v == 0
    case JumpGt => v > 0
    case JumpLt => v < 0
    case _ => false
  }

  /** The VM's truth values: true is -1 (all bits set), false is 0. */
  function Truth(b: bool): int {
    if b then -1 else 0
  }

  /** On the fall-through path the top becomes 0 and control skips to
      `end`; a jump already pending passes the block untouched. */
  lemma FalseBranchEffect(table: SymbolTable, end: string, m: Machine)
    ensures Running(m) ==>
              Exec(table, FalseBranch(end), m) ==
                m.(ram := m.ram[Sp(m) - 1 := 0], a := table(end), jump := Some(table(end)))
    ensures !Running(m) ==> Exec(table, FalseBranch(end), m) == m
  {
    ExecAppend(table, Unary(MEqZero), JumpTo(Sym(end)), m);
    if Running(m) {
      UnaryEffect(table, MEqZero, m);
      JumpToEffect(table, Sym(end), m.(ram := m.ram[Sp(m) - 1 := 0], a := Sp(m) - 1));
    } else {
      ExecPending(table, FalseBranch(end), m);
    }
  }

  /** Reached through the jump to `t`, the top becomes -1; reached through
      the jump to `end`, nothing is written. */
  lemma TrueBranchEffect(table: SymbolTable, t: string, end: string, m: Machine)
    requires table(t) != table(end)
    ensures m.jump == Some(table(t)) ==>
              Exec(table, TrueBranch(t, end), m) == m.(ram := m.ram[Sp(m) - 1 := -1], a := Sp(m) - 1, jump := None)
    ensures m.jump == Some(table(end)) ==>
              Exec(table, TrueBranch(t, end), m) == m.(jump := None)
  {
    ExecAppend(table, [Mark(t)] + Unary(MEqMinusOne), [Mark(end)], m);
    ExecAppend(table, [Mark(t)], Unary(MEqMinusOne), m);
    MarkEffect(table, t, m);
    if m.jump == Some(table(t)) {
      var m1 := m.(jump := None);
      UnaryEffect(table, MEqMinusOne, m1);
      MarkEffect(table, end, m1.(ram := m.ram[Sp(m) - 1 := -1], a := Sp(m) - 1));
    } else if m.jump == Some(table(end)) {
      ExecPending(table, Unary(MEqMinusOne), m);
      MarkEffect(table, end, m);
    }
  }

  lemma JumpIfEffect(table: SymbolTable, x: Address, jump: Comp, m: Machine)
    requires jump == JumpEq || jump == JumpGt || jump == JumpLt
    requires Running(m)
    ensures Exec(table, JumpIf(x, jump), m) ==
              m.(a := Resolve(table, x), jump := if Holds(jump, m.d) then Some(Resolve(table, x)) else None)
  {
    ExecPair(table, At(x), C(jump), m);
  }

  /** D = x - y, with the stack popped once and A on x's cell. */
  lemma DifferenceEffect(table: SymbolTable, m: Machine)
    requires Running(m) && Sp(m) >= 3
    ensures var s := Sp(m);
            Exec(table, Binary(DEqMMinusD), m) ==
              m.(ram := m.ram[0 := s - 1], a := s - 2, d := Read(m.ram, s - 2) - Read(m.ram, s - 1))
  {
    BinaryEffect(table, DEqMMinusD, m);
  }

  /** The head of `compare`: x - y into D and the conditional jump. */
  lemma CompareHeadEffect(table: SymbolTable, jump: Comp, t: string, m: Machine)
    requires jump == JumpEq || jump == JumpGt || jump == JumpLt
    requires Running(m) && Sp(m) >= 3
    ensures var s := Sp(m);
            var v := Read(m.ram, s - 2) - Read(m.ram, s - 1);
            Exec(table, Binary(DEqMMinusD) + JumpIf(Sym(t), jump), m) ==
              m.(ram := m.ram[0 := s - 1], a := table(t), d := v,
                 jump := if Holds(jump, v) then Some(table(t)) else None)
  {
    var s := Sp(m);
    ExecAppend(table, Binary(DEqMMinusD), JumpIf(Sym(t), jump), m);
    DifferenceEffect(table, m);
    var m1 := m.(ram := m.ram[0 := s - 1], a := s - 2, d := Read(m.ram, s - 2) - Read(m.ram, s - 1));
    JumpIfEffect(table, Sym(t), jump, m1);
  }

  /** `compare`: x - y, then -1 or 0 in x's cell according to the
      condition, with both paths meeting at the end label. */
  lemma CompareCodeEffect(table: SymbolTable, jump: Comp, t: string, end: string, m: Machine)
    requires jump == JumpEq || jump == JumpGt || jump == JumpLt
    requires Running(m) && Sp(m) >= 3
    requires table(t) != table(end)
    ensures var s := Sp(m);
            var x, y := Read(m.ram, s - 2), Read(m.ram, s - 1);
            var r := Exec(table, CompareCode(jump, t, end), m);
            Running(r) && r.ram == m.ram[0 := s - 1][s - 2 := Truth(Holds(jump, x - y))]
  {
    var s := Sp(m);
    var v := Read(m.ram, s - 2) - Read(m.ram, s - 1);
    var head, f, tr := Binary(DEqMMinusD) + JumpIf(Sym(t), jump), FalseBranch(end), TrueBranch(t, end);
    ExecAppend(table, head + f, tr, m);
    ExecAppend(table, head, f, m);
    CompareHeadEffect(table, jump, t, m);
    var ram0 := m.ram[0 := s - 1];
    if Holds(jump, v) {
      var m2 := m.(ram := ram0, a := table(t), d := v, jump := Some(table(t)));
      FalseBranchEffect(table, end, m2);
      TrueBranchEffect(table, t, end, m2);
    } else {
      var m2 := m.(ram := ram0, a := table(t), d := v);
      FalseBranchEffect(table, end, m2);
      TrueBranchEffect(table, t, end, m2.(ram := ram0[s - 2 := 0], a := table(end), jump := Some(table(end))));
    }
  }

  /** neg and not replace the top; the others replace the two topmost
      values with one. */
  predicate IsUnary(cmd: string) {
    cmd == "neg" || cmd == "not"
  }

  /** What each VM arithmetic command computes from x (the value below the
      top) and y (the top); neg and not look at y alone. */
  function VmArithmetic(cmd: string, x: int, y: int): int
    requires cmd in ArithmeticOps
  {
    match cmd
    case "add" => x + y
    case "sub" => x - y
    case "and" => BitAnd(x, y)
    case "or" => BitOr(x, y)
    case "neg" => -y
    case "not" => BitNot(y)
    case "eq" => Truth(x == y)
    case "gt" => Truth(x > y)
    case "lt" => Truth(x < y)
    case _ => 0
  }

  /** The Hack operator `writeArithmetic` picks for a binary command. */
  function BinaryOperator(cmd: string): Comp {
    match cmd
    case "add" => MEqDPlusM
    case "sub" => MEqMMinusD
    case "and" => MEqDAndM
    case _ => MEqDOrM
  }

  /** What the operator instruction of a binary command stores over x,
      with the top y in D and x in M. */
  function Combine(op: Comp, x: int, y: int): int {
    match op
    case MEqDPlusM => y + x
    case MEqMMinusD => x - y
    case MEqDAndM => BitAnd(y, x)
    case _ => BitOr(y, x)
  }

  lemma CombineEffect(table: SymbolTable, op: Comp, m: Machine)
    requires op == MEqDPlusM || op == MEqMMinusD || op == MEqDAndM || op == MEqDOrM
    requires Running(m) && Sp(m) >= 3
    ensures var s := Sp(m);
            var r := Exec(table, Binary(op), m);
            Running(r) && r.ram == m.ram[0 := s - 1][s - 2 := Combine(op, Read(m.ram, s - 2), Read(m.ram, s - 1))]
  {
    BinaryEffect(table, op, m);
  }

  lemma BinaryCode(st: WriterState, cmd: string)
    requires cmd == "add" || cmd == "sub" || cmd == "and" || cmd == "or"
    ensures WriteArithmetic(st, cmd) == Ok(Emitted(Binary(BinaryOperator(cmd)), st, []))
  {
  }

  /** The Hack operator computes the VM operation: the order of the
      operands of `and` and `or` does not matter. */
  lemma CombineIsVm(cmd: string, x: int, y: int)
    requires cmd == "add" || cmd == "sub" || cmd == "and" || cmd == "or"
    ensures Combine(BinaryOperator(cmd), x, y) == VmArithmetic(cmd, x, y)
  {
    if cmd == "and" {
      BitAndCommutes(x, y);
    } else if cmd == "or" {
      BitOrCommutes(x, y);
    }
  }

  /** The Hack operator `writeArithmetic` picks for a unary command. */
  function UnaryOperator(cmd: string): Comp {
    if cmd == "neg" then MEqNegM else MEqNotM
  }

  lemma UnaryCode(st: WriterState, cmd: string)
    requires cmd == "neg" || cmd == "not"
    ensures WriteArithmetic(st, cmd) == Ok(Emitted(Unary(UnaryOperator(cmd)), st, []))
  {
  }

  /** The jump condition `writeArithmetic` picks for a compare. */
  function CompareJump(cmd: string): Comp {
    match cmd
    case "eq" => JumpEq
    case "gt" => JumpGt
    case _ => JumpLt
  }

  lemma CompareCodeOf(st: WriterState, cmd: string)
    requires cmd == "eq" || cmd == "gt" || cmd == "lt"
    ensures WriteArithmetic(st, cmd).Ok?
    ensures WriteArithmetic(st, cmd).value.code ==
              CompareCode(CompareJump(cmd), UniqueLabel("TRUE", st.labelCounter), UniqueLabel("END", st.labelCounter + 1))
  {
    var jump := CompareJump(cmd);
    assert WriteArithmetic(st, cmd) == Ok(Compare(st, jump));
    var t := UniqueLabel("TRUE", st.labelCounter);
    var end := UniqueLabel("END", st.labelCounter + 1);
    assert Compare(st, jump).code == CompareCode(jump, t, end);
  }

  /** `neg` and `not` replace the top with what `VmArithmetic` names. */
  lemma UnaryOpEffect(table: SymbolTable, cmd: string, m: Machine)
    requires cmd == "neg" || cmd == "not"
    requires Running(m)
    ensures var s := Sp(m);
            var r := Exec(table, Unary(UnaryOperator(cmd)), m);
            Running(r) && r.ram == m.ram[s - 1 := VmArithmetic(cmd, Read(m.ram, s - 2), Read(m.ram, s - 1))]
  {
    UnaryEffect(table, UnaryOperator(cmd), m);
  }

  /** The jump condition on x - y decides the VM comparison. */
  lemma HoldsIsVm(cmd: string, x: int, y: int)
    requires cmd == "eq" || cmd == "gt" || cmd == "lt"
    ensures Truth(Holds(CompareJump(cmd), x - y)) == VmArithmetic(cmd, x, y)
  {
  }

  /** Binary operators and compares pop two values and push one, unary
      operators replace the top; the result is the one `VmArithmetic`
      names, and no other memory cell changes. */
  lemma ArithmeticEffect(table: SymbolTable, st: WriterState, cmd: string, m: Machine)
    requires cmd in ArithmeticOps
    requires Running(m) && Sp(m) >= 3
    requires cmd == "eq" || cmd == "gt" || cmd == "lt" ==>
               table(UniqueLabel("TRUE", st.labelCounter)) != table(UniqueLabel("END", st.labelCounter + 1))
    ensures WriteArithmetic(st, cmd).Ok?
    ensures var s := Sp(m);
            var r := Exec(table, WriteArithmetic(st, cmd).value.code, m);
            var top := if IsUnary(cmd) then s - 1 else s - 2;
            && Running(r)
            && Sp(r) == top + 1
            && Read(r.ram, top) == VmArithmetic(cmd, Read(m.ram, s - 2), Read(m.ram, s - 1))
            && forall k :: k != 0 && k != top ==> Read(r.ram, k) == Read(m.ram, k)
  {
    var s := Sp(m);
    var x, y := Read(m.ram, s - 2), Read(m.ram, s - 1);
    if IsUnary(cmd) {
      UnaryCode(st, cmd);
      UnaryOpEffect(table, cmd, m);
    } else if cmd == "eq" || cmd == "gt" || cmd == "lt" {
      CompareCodeOf(st, cmd);
      CompareCodeEffect(table, CompareJump(cmd), UniqueLabel("TRUE", st.labelCounter), UniqueLabel("END", st.labelCounter + 1), m);
      HoldsIsVm(cmd, x, y);
    } else {
      BinaryCode(st, cmd);
      CombineEffect(table, BinaryOperator(cmd), m);
      CombineIsVm(cmd, x, y);
    }
  }

  // ---------------------------------------------------------------------
  // Memory access
  // ---------------------------------------------------------------------

  /** The RAM cell a segment index denotes: base + i for the four
      indirectly addressed segments, RAM[5 + i] for temp, THIS or THAT
      (RAM[3 + i]) for pointer, and the assembler's address of `File.i` for
      static. */
  function SegmentAddress(table: SymbolTable, st: WriterState, m: Machine, segment: string, index: nat): int {
    match segment
    case "local" => RegValue(m, LCL) + index
    case "argument" => RegValue(m, ARG) + index
    case "this" => RegValue(m, THIS) + index
    case "that" => RegValue(m, THAT) + index
    case "temp" => 5 + index
    case "pointer" => 3 + index
    case _ => table(StaticSymbol(st.fileName, index))
  }

  /** The value `push segment index` puts on the stack. */
  function PushedValue(table: SymbolTable, st: WriterState, m: Machine, segment: string, index: nat): int {
    if segment == "constant" then index else Read(m.ram, SegmentAddress(table, st, m, segment, index))
  }

  /** The address operand of a push or pop of temp, pointer or static. */
  function DirectAddress(st: WriterState, segment: string, index: nat): Address {
    match segment
    case "temp" => Num(5 + index)
    case "pointer" => Reg(PointerRegister(index))
    case _ => Sym(StaticSymbol(st.fileName, index))
  }

  predicate IsDirect(segment: string) {
    segment == "temp" || segment == "pointer" || segment == "static"
  }

  lemma DirectAddressIsSegmentAddress(table: SymbolTable, st: WriterState, m: Machine, segment: string, index: nat)
    requires IsDirect(segment)
    requires segment == "pointer" ==> index <= 1
    ensures Resolve(table, DirectAddress(st, segment, index)) == SegmentAddress(table, st, m, segment, index)
  {
  }

  lemma PushCodeShape(st: WriterState, segment: string, index: nat)
    requires ValidAccess(true, segment, index)
    ensures PushCode(st, segment, index).Ok?
    ensures segment == "constant" ==> PushCode(st, segment, index).value == LoadAddress(Num(index)) + PushD()
    ensures BaseRegister(segment).Some? ==>
              PushCode(st, segment, index).value == AddrFromBase(BaseRegister(segment).value, index) + LoadIndirect() + PushD()
    ensures IsDirect(segment) ==>
              PushCode(st, segment, index).value == LoadValue(DirectAddress(st, segment, index)) + PushD()
  {
  }

  lemma PopCodeShape(st: WriterState, segment: string, index: nat)
    requires ValidAccess(false, segment, index)
    ensures PopCode(st, segment, index).Ok?
    ensures BaseRegister(segment).Some? ==>
              PopCode(st, segment, index).value == AddrFromBase(BaseRegister(segment).value, index) + PopToR13Target()
    ensures IsDirect(segment) ==>
              PopCode(st, segment, index).value == AddressToR13(DirectAddress(st, segment, index)) + PopToR13Target()
  {
  }

  /** Push through R13: R13 = base + index, then push *R13. */
  lemma PushBaseEffect(table: SymbolTable, base: Register, index: nat, m: Machine)
    requires Running(m) && Sp(m) != 0 && Sp(m) != 13
    ensures var t := RegValue(m, base) + index;
            var v := Read(m.ram[13 := t], t);
            var r := Exec(table, AddrFromBase(base, index) + LoadIndirect() + PushD(), m);
            Running(r) && r.ram == m.ram[13 := t][Sp(m) := v][0 := Sp(m) + 1]
  {
    var t := RegValue(m, base) + index;
    ExecAppend(table, AddrFromBase(base, index) + LoadIndirect(), PushD(), m);
    ExecAppend(table, AddrFromBase(base, index), LoadIndirect(), m);
    AddrFromBaseEffect(table, base, index, m);
    var m1 := m.(ram := m.ram[13 := t], a := 13, d := t);
    LoadIndirectEffect(table, m1);
    PushDEffect(table, m1.(a := t, d := Read(m1.ram, t)));
  }

  /** The pop half: with R13 = t, SP-- and *t = the old top. */
  lemma PopToEffect(table: SymbolTable, t: int, m: Machine)
    requires Running(m) && Sp(m) >= 2 && Sp(m) - 1 != 13
    ensures var m1 := m.(ram := m.ram[13 := t], a := 13, d := t);
            var r := Exec(table, PopToR13Target(), m1);
            Running(r) && r.ram == m.ram[13 := t][0 := Sp(m) - 1][t := Read(m.ram, Sp(m) - 1)]
  {
    PopToR13TargetEffect(table, m.(ram := m.ram[13 := t], a := 13, d := t));
  }

  /** `push segment index` puts the segment's value on the stack and
      changes nothing else but the scratch register R13. */
  lemma PushEffect(table: SymbolTable, st: WriterState, segment: string, index: nat, m: Machine)
    requires ValidAccess(true, segment, index)
    requires Running(m) && Sp(m) >= 16
    requires segment != "constant" ==> SegmentAddress(table, st, m, segment, index) != 13
    ensures WritePushPop(st, CPush, segment, index).Ok?
    ensures var s := Sp(m);
            var r := Exec(table, WritePushPop(st, CPush, segment, index).value.code, m);
            && Running(r)
            && Sp(r) == s + 1
            && Read(r.ram, s) == PushedValue(table, st, m, segment, index)
            && forall k :: k != 0 && k != 13 && k != s ==> Read(r.ram, k) == Read(m.ram, k)
  {
    PushCodeShape(st, segment, index);
    if segment == "constant" {
      PushAddressEffect(table, Num(index), m);
    } else if BaseRegister(segment).Some? {
      PushBaseEffect(table, BaseRegister(segment).value, index, m);
    } else {
      DirectAddressIsSegmentAddress(table, st, m, segment, index);
      PushValueEffect(table, DirectAddress(st, segment, index), m);
    }
  }

  lemma PopBaseEffect(table: SymbolTable, base: Register, index: nat, m: Machine)
    requires Running(m) && Sp(m) >= 2 && Sp(m) - 1 != 13
    ensures var t := RegValue(m, base) + index;
            var r := Exec(table, AddrFromBase(base, index) + PopToR13Target(), m);
            Running(r) && r.ram == m.ram[13 := t][0 := Sp(m) - 1][t := Read(m.ram, Sp(m) - 1)]
  {
    ExecAppend(table, AddrFromBase(base, index), PopToR13Target(), m);
    AddrFromBaseEffect(table, base, index, m);
    PopToEffect(table, RegValue(m, base) + index, m);
  }

  lemma PopDirectEffect(table: SymbolTable, x: Address, m: Machine)
    requires Running(m) && Sp(m) >= 2 && Sp(m) - 1 != 13
    ensures var t := Resolve(table, x);
            var r := Exec(table, AddressToR13(x) + PopToR13Target(), m);
            Running(r) && r.ram == m.ram[13 := t][0 := Sp(m) - 1][t := Read(m.ram, Sp(m) - 1)]
  {
    ExecAppend(table, AddressToR13(x), PopToR13Target(), m);
    AddressToR13Effect(table, x, m);
    PopToEffect(table, Resolve(table, x), m);
  }

  /** `pop segment index` moves the top into the segment's cell and
      changes nothing else but the scratch register R13. */
  lemma PopEffect(table: SymbolTable, st: WriterState, segment: string, index: nat, m: Machine)
    requires ValidAccess(false, segment, index)
    requires Running(m) && Sp(m) >= 17
    requires var t := SegmentAddress(table, st, m, segment, index); t != 0 && t != 13
    ensures WritePushPop(st, CPop, segment, index).Ok?
    ensures var s := Sp(m);
            var t := SegmentAddress(table, st, m, segment, index);
            var r := Exec(table, WritePushPop(st, CPop, segment, index).value.code, m);
            && Running(r)
            && Sp(r) == s - 1
            && Read(r.ram, t) == Read(m.ram, s - 1)
            && forall k :: k != 0 && k != 13 && k != t ==> Read(r.ram, k) == Read(m.ram, k)
  {
    PopCodeShape(st, segment, index);
    if BaseRegister(segment).Some? {
      PopBaseEffect(table, BaseRegister(segment).value, index, m);
    } else {
      DirectAddressIsSegmentAddress(table, st, m, segment, index);
      PopDirectEffect(table, DirectAddress(st, segment, index), m);
    }
  }

  // ---------------------------------------------------------------------
  // Branching
  // ---------------------------------------------------------------------

  /** `label l` does nothing on a running machine and resumes a jump to
      the scoped label. */
  lemma LabelEffect(table: SymbolTable, st: WriterState, lbl: string, m: Machine)
    ensures var r := Exec(table, WriteLabel(st, lbl).code, m);
            && (Running(m) ==> r == m)
            && (m.jump == Some(table(Scoped(st, lbl))) ==> r == m.(jump := None))
  {
    MarkEffect(table, Scoped(st, lbl), m);
  }

  /** `goto l` leaves the block with a jump to the scoped label pending;
      memory is untouched. */
  lemma GotoEffect(table: SymbolTable, st: WriterState, lbl: string, m: Machine)
    requires Running(m)
    ensures var r := Exec(table, WriteGoto(st, lbl).code, m);
            r.ram == m.ram && r.jump == Some(table(Scoped(st, lbl)))
  {
    JumpToEffect(table, Sym(Scoped(st, lbl)), m);
  }

  /** Code between a `goto l` and its `label l` never runs: the jump
      passes over it and the label resumes execution with memory as the
      goto left it. */
  lemma GotoReachesLabel(table: SymbolTable, st: WriterState, lbl: string, between: seq<Instr>, m: Machine)
    requires Running(m)
    requires forall k :: 0 <= k < |between| && between[k].Mark? ==>
               table(between[k].name) != table(Scoped(st, lbl))
    ensures var r := Exec(table, WriteGoto(st, lbl).code + between + WriteLabel(st, lbl).code, m);
            Running(r) && r.ram == m.ram
  {
    var g := WriteGoto(st, lbl).code;
    var l := WriteLabel(st, lbl).code;
    ExecAppend(table, g + between, l, m);
    ExecAppend(table, g, between, m);
    GotoEffect(table, st, lbl, m);
    var m1 := Exec(table, g, m);
    ExecPending(table, between, m1);
    LabelEffect(table, st, lbl, m1);
  }

  lemma JumpNeEffect(table: SymbolTable, x: Address, m: Machine)
    requires Running(m)
    ensures Exec(table, JumpIf(x, JumpNe), m) ==
              m.(a := Resolve(table, x), jump := if m.d != 0 then Some(Resolve(table, x)) else None)
  {
    ExecPair(table, At(x), C(JumpNe), m);
  }

  /** `if-goto l` pops the top and jumps to the scoped label exactly when
      the popped value is not zero. */
  lemma IfEffect(table: SymbolTable, st: WriterState, lbl: string, m: Machine)
    requires Running(m) && Sp(m) != 1
    ensures var s := Sp(m);
            var r := Exec(table, WriteIf(st, lbl).code, m);
            && r.ram == m.ram[0 := s - 1]
            && (r.jump == Some(table(Scoped(st, lbl))) <==> Read(m.ram, s - 1) != 0)
            && (Running(r) <==> Read(m.ram, s - 1) == 0)
  {
    var x := Sym(Scoped(st, lbl));
    ExecAppend(table, PopD(), JumpIf(x, JumpNe), m);
    PopDEffect(table, m);
    JumpNeEffect(table, x, m.(ram := m.ram[0 := Sp(m) - 1], a := Sp(m) - 1, d := Read(m.ram, Sp(m) - 1)));
  }

  // ---------------------------------------------------------------------
  // Functions
  // ---------------------------------------------------------------------

  /** The initialisation loop pushes `n` zeros and touches no other cell. */
  lemma {:induction false} InitLocalsEffect(table: SymbolTable, n: nat, m: Machine)
    requires Running(m) && Sp(m) >= 1
    ensures var s := Sp(m);
            var r := Exec(table, InitLocals(n), m);
            && Running(r)
            && Sp(r) == s + n
            && (forall k :: s <= k < s + n ==> Read(r.ram, k) == 0)
            && (forall k :: k != 0 && !(s <= k < s + n) ==> Read(r.ram, k) == Read(m.ram, k))
    decreases n
  {
    if n > 0 {
      var s := Sp(m);
      ExecAppend(table, PushZero(), InitLocals(n - 1), m);
      PushAddressEffect(table, Num(0), m);
      var m1 := m.(ram := m.ram[s := 0][0 := s + 1], a := 0, d := 0);
      InitLocalsEffect(table, n - 1, m1);
      var r := Exec(table, InitLocals(n - 1), m1);
      assert Sp(m1) == s + 1;
      forall k | s <= k < s + n
        ensures Read(r.ram, k) == 0
      {
        if k == s {
          assert Read(r.ram, k) == Read(m1.ram, k);
        }
      }
    }
  }

  /** `function f n`: entered by a jump to `f` (or by falling into it), it
      pushes n zero locals and leaves every other cell alone. */
  lemma FunctionEffect(table: SymbolTable, st: WriterState, name: string, nLocals: nat, m: Machine)
    requires Running(m) || m.jump == Some(table(name))
    requires Sp(m) >= 1
    ensures var s := Sp(m);
            var r := Exec(table, WriteFunction(st, name, nLocals).code, m);
            && Running(r)
            && Sp(r) == s + nLocals
            && (forall k :: s <= k < s + nLocals ==> Read(r.ram, k) == 0)
            && (forall k :: k != 0 && !(s <= k < s + nLocals) ==> Read(r.ram, k) == Read(m.ram, k))
  {
    ExecAppend(table, [Mark(name)], InitLocals(nLocals), m);
    MarkEffect(table, name, m);
    InitLocalsEffect(table, nLocals, m.(jump := None));
  }

  // ---------------------------------------------------------------------
  // Calls
  // ---------------------------------------------------------------------

  /** The five frame words pushed by a call, from the bottom up. */
  function FrameWords(table: SymbolTable, ret: string, m: Machine): seq<int> {
    [table(ret), RegValue(m, LCL), RegValue(m, ARG), RegValue(m, THIS), RegValue(m, THAT)]
  }

  /** Push the values of two registers, with SP = s. */
  lemma PushTwoRegistersEffect(table: SymbolTable, r1: Register, r2: Register, s: int, m: Machine)
    requires Running(m) && Sp(m) == s && s >= 16
    requires RegisterAddress(r1) != 0 && RegisterAddress(r2) != 0
    ensures var v1 := RegValue(m, r1);
            var v2 := RegValue(m, r2);
            Exec(table, PushSymbol(r1) + PushSymbol(r2), m) ==
              m.(ram := m.ram[s := v1][0 := s + 1][s + 1 := v2][0 := s + 2], a := 0, d := v2)
  {
    var v1 := RegValue(m, r1);
    var m1 := m.(ram := m.ram[s := v1][0 := s + 1], a := 0, d := v1);
    assert Sp(m1) == s + 1;
    assert RegValue(m1, r2) == RegValue(m, r2);
    PushValueEffect(table, Reg(r1), m);
    PushValueEffect(table, Reg(r2), m1);
    ExecAppend(table, PushSymbol(r1), PushSymbol(r2), m);
  }

  /** The RAM after the five frame words w are pushed at s. */
  function FramePushed(ram: map<int, int>, s: int, w: seq<int>): map<int, int>
    requires |w| == 5
  {
    ram[s := w[0]][0 := s + 1][s + 1 := w[1]][0 := s + 2][s + 2 := w[2]][0 := s + 3]
       [s + 3 := w[3]][0 := s + 4][s + 4 := w[4]][0 := s + 5]
  }

  lemma FramePushedCells(ram: map<int, int>, s: int, w: seq<int>)
    requires |w| == 5 && s >= 16
    ensures Read(FramePushed(ram, s, w), 0) == s + 5
    ensures forall k :: 0 <= k < 5 ==> Read(FramePushed(ram, s, w), s + k) == w[k]
    ensures forall k :: k != 0 && !(s <= k < s + 5) ==> Read(FramePushed(ram, s, w), k) == Read(ram, k)
  {
  }

  /** The saved frame, as a machine. */
  lemma SaveFrameMachine(table: SymbolTable, ret: string, m: Machine)
    requires Running(m) && Sp(m) >= 16
    ensures var w := FrameWords(table, ret, m);
            Exec(table, SaveFrame(ret), m) == m.(ram := FramePushed(m.ram, Sp(m), w), a := 0, d := w[4])
  {
    var s := Sp(m);
    var w := FrameWords(table, ret, m);
    var p0 := LoadAddress(Sym(ret)) + PushD();
    var p1 := PushSymbol(LCL) + PushSymbol(ARG);
    var p2 := PushSymbol(THIS) + PushSymbol(THAT);
    var ram1 := m.ram[s := w[0]][0 := s + 1];
    var m1 := m.(ram := ram1, a := 0, d := w[0]);
    assert Sp(m1) == s + 1;
    assert RegValue(m1, LCL) == w[1] && RegValue(m1, ARG) == w[2];
    var ram2 := ram1[s + 1 := w[1]][0 := s + 2][s + 2 := w[2]][0 := s + 3];
    var m2 := m1.(ram := ram2, a := 0, d := w[2]);
    assert Sp(m2) == s + 3;
    assert RegValue(m2, THIS) == w[3] && RegValue(m2, THAT) == w[4];
    PushAddressEffect(table, Sym(ret), m);
    PushTwoRegistersEffect(table, LCL, ARG, s + 1, m1);
    PushTwoRegistersEffect(table, THIS, THAT, s + 3, m2);
    ExecAppend(table, p0, p1, m);
    ExecAppend(table, p0 + p1, p2, m);
  }

  /** The saved frame: return address, LCL, ARG, THIS and THAT on the
      stack, in that order. */
  lemma SaveFrameEffect(table: SymbolTable, ret: string, m: Machine)
    requires Running(m) && Sp(m) >= 16
    ensures var s := Sp(m);
            var w := FrameWords(table, ret, m);
            var r := Exec(table, SaveFrame(ret), m);
            && Running(r)
            && Sp(r) == s + 5
            && (forall k :: 0 <= k < 5 ==> Read(r.ram, s + k) == w[k])
            && (forall k :: k != 0 && !(s <= k < s + 5) ==> Read(r.ram, k) == Read(m.ram, k))
  {
    FramePushedCells(m.ram, Sp(m), FrameWords(table, ret, m));
    SaveFrameMachine(table, ret, m);
  }

  /** D = RAM[r] - k. */
  lemma LoadLessEffect(table: SymbolTable, r: Register, k: nat, m: Machine)
    requires Running(m)
    ensures Exec(table, LoadValue(Reg(r)) + SubtractAddress(Num(k)), m) == m.(a := k, d := RegValue(m, r) - k)
  {
    var m1 := m.(a := RegisterAddress(r), d := RegValue(m, r));
    LoadValueEffect(table, Reg(r), m);
    SubtractAddressEffect(table, Num(k), m1);
    ExecAppend(table, LoadValue(Reg(r)), SubtractAddress(Num(k)), m);
  }

  /** dest = D - n. */
  lemma SubtractIntoEffect(table: SymbolTable, n: nat, dest: Register, m: Machine)
    requires Running(m)
    ensures Exec(table, SubtractAddress(Num(n)) + StoreD(Reg(dest)), m) ==
              m.(ram := m.ram[RegisterAddress(dest) := m.d - n], a := RegisterAddress(dest), d := m.d - n)
  {
    var m1 := m.(a := n, d := m.d - n);
    SubtractAddressEffect(table, Num(n), m);
    StoreDEffect(table, Reg(dest), m1);
    ExecAppend(table, SubtractAddress(Num(n)), StoreD(Reg(dest)), m);
  }

  /** ARG = SP - 5 - nArgs. */
  lemma RepositionArgEffect(table: SymbolTable, nArgs: nat, m: Machine)
    requires Running(m)
    ensures var v := Sp(m) - 5 - nArgs;
            Exec(table, RepositionArg(nArgs), m) ==
              m.(ram := m.ram[RegisterAddress(ARG) := v], a := RegisterAddress(ARG), d := v)
  {
    var v := Sp(m) - 5 - nArgs;
    var p1 := LoadValue(Reg(SP)) + SubtractAddress(Num(5));
    var p2 := SubtractAddress(Num(nArgs)) + StoreD(Reg(ARG));
    var m1 := m.(a := 5, d := Sp(m) - 5);
    assert m1.d - nArgs == v;
    assert RepositionArg(nArgs) == p1 + p2;
    LoadLessEffect(table, SP, 5, m);
    SubtractIntoEffect(table, nArgs, ARG, m1);
    ExecAppend(table, p1, p2, m);
  }

  /** LCL = SP. */
  lemma RepositionLclEffect(table: SymbolTable, m: Machine)
    requires Running(m)
    ensures Exec(table, RepositionLcl(), m) ==
              m.(ram := m.ram[RegisterAddress(LCL) := Sp(m)], a := RegisterAddress(LCL), d := Sp(m))
  {
    LoadValueEffect(table, Reg(SP), m);
    StoreDEffect(table, Reg(LCL), m.(a := 0, d := Sp(m)));
    ExecAppend(table, LoadValue(Reg(SP)), StoreD(Reg(LCL)), m);
  }

  /** After the frame is saved: reposition ARG and LCL, jump to the callee
      and pass over the return label. */
  lemma CallLinkEffect(table: SymbolTable, name: string, nArgs: nat, ret: string, m: Machine)
    requires Running(m)
    requires table(ret) != table(name)
    ensures var s := Sp(m);
            var m1 := Exec(table, RepositionArg(nArgs), m);
            var m2 := Exec(table, RepositionLcl(), m1);
            var m3 := Exec(table, JumpTo(Sym(name)), m2);
            Exec(table, [Mark(ret)], m3) ==
              m.(ram := m.ram[RegisterAddress(ARG) := s - 5 - nArgs][RegisterAddress(LCL) := s],
                 a := table(name), d := s, jump := Some(table(name)))
  {
    var s := Sp(m);
    var m1 := m.(ram := m.ram[RegisterAddress(ARG) := s - 5 - nArgs], a := RegisterAddress(ARG), d := s - 5 - nArgs);
    assert Sp(m1) == s;
    var m2 := m1.(ram := m1.ram[RegisterAddress(LCL) := s], a := RegisterAddress(LCL), d := s);
    RepositionArgEffect(table, nArgs, m);
    RepositionLclEffect(table, m1);
    JumpToEffect(table, Sym(name), m2);
    MarkEffect(table, ret, m2.(a := table(name), jump := Some(table(name))));
  }

  /** `call f n` saves the caller's frame above the arguments, points ARG
      at the first argument and LCL just above the frame, and leaves with a
      jump to `f` pending; of the rest of memory only SP, LCL and ARG
      change. */
  lemma CallEffect(table: SymbolTable, st: WriterState, name: string, nArgs: nat, m: Machine)
    requires Running(m) && Sp(m) >= 16
    requires table(UniqueLabel("RET", st.labelCounter)) != table(name)
    ensures var s := Sp(m);
            var e := WriteCall(st, name, nArgs);
            var w := FrameWords(table, e.drawn[0], m);
            var r := Exec(table, e.code, m);
            && r.jump == Some(table(name))
            && Sp(r) == s + 5
            && RegValue(r, LCL) == s + 5
            && RegValue(r, ARG) == s - nArgs
            && (forall k :: 0 <= k < 5 ==> Read(r.ram, s + k) == w[k])
            && (forall k :: k != 0 && k != 1 && k != 2 && !(s <= k < s + 5) ==> Read(r.ram, k) == Read(m.ram, k))
  {
    var ret := UniqueLabel("RET", st.labelCounter);
    var sf := SaveFrame(ret);
    var ra := RepositionArg(nArgs);
    var rl := RepositionLcl();
    var jt := JumpTo(Sym(name));
    ExecAppend(table, sf + ra + rl + jt, [Mark(ret)], m);
    ExecAppend(table, sf + ra + rl, jt, m);
    ExecAppend(table, sf + ra, rl, m);
    ExecAppend(table, sf, ra, m);
    SaveFrameEffect(table, ret, m);
    CallLinkEffect(table, name, nArgs, ret, Exec(table, sf, m));
  }

  // ---------------------------------------------------------------------
  // Returns
  // ---------------------------------------------------------------------

  /** t = RAM[r], with D left holding the value. */
  lemma SaveIntoEffect(table: SymbolTable, r: Register, t: Register, m: Machine)
    requires Running(m)
    ensures var v := RegValue(m, r);
            Exec(table, LoadValue(Reg(r)) + StoreD(Reg(t)), m) ==
              m.(ram := m.ram[RegisterAddress(t) := v], a := RegisterAddress(t), d := v)
  {
    var v := RegValue(m, r);
    LoadValueEffect(table, Reg(r), m);
    StoreDEffect(table, Reg(t), m.(a := RegisterAddress(r), d := v));
    ExecAppend(table, LoadValue(Reg(r)), StoreD(Reg(t)), m);
  }

  /** t = RAM[D - k]. */
  lemma FetchBelowEffect(table: SymbolTable, k: nat, t: Register, m: Machine)
    requires Running(m)
    ensures var v := Read(m.ram, m.d - k);
            Exec(table, LoadBelow(k) + StoreD(Reg(t)), m) ==
              m.(ram := m.ram[RegisterAddress(t) := v], a := RegisterAddress(t), d := v)
  {
    var v := Read(m.ram, m.d - k);
    LoadBelowEffect(table, k, m);
    StoreDEffect(table, Reg(t), m.(a := m.d - k, d := v));
    ExecAppend(table, LoadBelow(k), StoreD(Reg(t)), m);
  }

  /** t1 = RAM[r]; t2 = RAM[RAM[r] - k]. */
  lemma SaveAndFetchEffect(table: SymbolTable, r: Register, t1: Register, k: nat, t2: Register, m: Machine)
    requires Running(m) && RegValue(m, r) - k != RegisterAddress(t1)
    ensures var f := RegValue(m, r);
            var v := Read(m.ram, f - k);
            Exec(table, (LoadValue(Reg(r)) + StoreD(Reg(t1))) + (LoadBelow(k) + StoreD(Reg(t2))), m) ==
              m.(ram := m.ram[RegisterAddress(t1) := f][RegisterAddress(t2) := v], a := RegisterAddress(t2), d := v)
  {
    var f := RegValue(m, r);
    var m1 := m.(ram := m.ram[RegisterAddress(t1) := f], a := RegisterAddress(t1), d := f);
    assert Read(m1.ram, f - k) == Read(m.ram, f - k);
    SaveIntoEffect(table, r, t1, m);
    FetchBelowEffect(table, k, t2, m1);
    ExecAppend(table, LoadValue(Reg(r)) + StoreD(Reg(t1)), LoadBelow(k) + StoreD(Reg(t2)), m);
  }

  /** The return blocks unfolded one level, stated apart so that the proofs
      using them need not unfold the blocks themselves. */
  lemma SaveReturnAddressShape()
    ensures SaveReturnAddress() == (LoadValue(Reg(LCL)) + StoreD(Reg(R13))) + (LoadBelow(5) + StoreD(Reg(R14)))
  {
  }

  lemma RestoreCallerShape()
    ensures RestoreCaller() ==
              (RestoreFromFrame(1, THAT) + RestoreFromFrame(2, THIS)) + (RestoreFromFrame(3, ARG) + RestoreFromFrame(4, LCL))
  {
  }

  /** R13 = FRAME = LCL; R14 = RET = *(FRAME - 5). */
  lemma SaveReturnAddressEffect(table: SymbolTable, m: Machine)
    requires Running(m) && RegValue(m, LCL) - 5 != 13
    ensures var f := RegValue(m, LCL);
            var ret := Read(m.ram, f - 5);
            Exec(table, SaveReturnAddress(), m) ==
              m.(ram := m.ram[RegisterAddress(R13) := f][RegisterAddress(R14) := ret], a := RegisterAddress(R14), d := ret)
  {
    SaveReturnAddressShape();
    SaveAndFetchEffect(table, LCL, R13, 5, R14, m);
  }

  /** RAM[RAM[r]] = pop(). */
  lemma PopThroughEffect(table: SymbolTable, r: Register, m: Machine)
    requires Running(m) && Sp(m) != 1 && RegisterAddress(r) != 0
    ensures var s := Sp(m);
            var a := RegValue(m, r);
            var v := Read(m.ram, s - 1);
            Exec(table, PopD() + Follow(r) + StoreAtA(), m) == m.(ram := m.ram[0 := s - 1][a := v], a := a, d := v)
  {
    var s := Sp(m);
    ExecAppend(table, PopD() + Follow(r), StoreAtA(), m);
    ExecAppend(table, PopD(), Follow(r), m);
    PopDEffect(table, m);
    var m1 := m.(ram := m.ram[0 := s - 1], a := s - 1, d := Read(m.ram, s - 1));
    assert RegValue(m1, r) == RegValue(m, r);
    FollowEffect(table, r, m1);
    ComputeEffect(table, MEqD, m1.(a := RegValue(m, r)));
  }

  /** q = RAM[r] + 1, where RAM[r] is a. */
  lemma SuccessorIntoEffect(table: SymbolTable, r: Register, q: Register, a: int, m: Machine)
    requires Running(m) && RegValue(m, r) == a
    ensures Exec(table, LoadSuccessor(Reg(r)) + StoreD(Reg(q)), m) ==
              m.(ram := m.ram[RegisterAddress(q) := a + 1], a := RegisterAddress(q), d := a + 1)
  {
    ExecAppend(table, LoadSuccessor(Reg(r)), StoreD(Reg(q)), m);
    LoadSuccessorEffect(table, Reg(r), m);
    StoreDEffect(table, Reg(q), m.(a := RegisterAddress(r), d := a + 1));
  }

  /** *ARG = pop(); SP = ARG + 1, with SP = s, ARG = a and v on top. */
  lemma PlaceResultEffect(table: SymbolTable, s: int, a: int, v: int, m: Machine)
    requires Running(m) && Sp(m) == s && s != 1
    requires RegValue(m, ARG) == a && a != RegisterAddress(ARG) && Read(m.ram, s - 1) == v
    ensures Exec(table, PlaceResult(), m) ==
              m.(ram := m.ram[0 := s - 1][a := v][RegisterAddress(SP) := a + 1], a := RegisterAddress(SP), d := a + 1)
  {
    ExecAppend(table, PopD() + Follow(ARG) + StoreAtA(), LoadSuccessor(Reg(ARG)) + StoreD(Reg(SP)), m);
    PopThroughEffect(table, ARG, m);
    var m1 := m.(ram := m.ram[0 := s - 1][a := v], a := a, d := v);
    assert RegValue(m1, ARG) == a;
    SuccessorIntoEffect(table, ARG, SP, a, m1);
  }

  /** Four restores in a row, with FRAME = f in R13; each destination is
      written after the frame cells that are still to be read. */
  lemma RestoreFourEffect(table: SymbolTable, f: int, o1: nat, r1: Register, o2: nat, r2: Register,
                          o3: nat, r3: Register, o4: nat, r4: Register, m: Machine)
    requires Running(m) && RegValue(m, R13) == f
    requires RegisterAddress(r1) != 13 && RegisterAddress(r2) != 13 && RegisterAddress(r3) != 13
    requires f - o2 != RegisterAddress(r1)
    requires f - o3 != RegisterAddress(r1) && f - o3 != RegisterAddress(r2)
    requires f - o4 != RegisterAddress(r1) && f - o4 != RegisterAddress(r2) && f - o4 != RegisterAddress(r3)
    ensures Exec(table, (RestoreFromFrame(o1, r1) + RestoreFromFrame(o2, r2)) + (RestoreFromFrame(o3, r3) + RestoreFromFrame(o4, r4)), m) ==
              m.(ram := m.ram[RegisterAddress(r1) := Read(m.ram, f - o1)][RegisterAddress(r2) := Read(m.ram, f - o2)]
                             [RegisterAddress(r3) := Read(m.ram, f - o3)][RegisterAddress(r4) := Read(m.ram, f - o4)],
                 a := RegisterAddress(r4), d := Read(m.ram, f - o4))
  {
    var m1 := m.(ram := m.ram[RegisterAddress(r1) := Read(m.ram, f - o1)][RegisterAddress(r2) := Read(m.ram, f - o2)],
                 a := RegisterAddress(r2), d := Read(m.ram, f - o2));
    assert RegValue(m1, R13) == f;
    assert Read(m1.ram, f - o3) == Read(m.ram, f - o3);
    assert Read(m1.ram, f - o4) == Read(m.ram, f - o4);
    RestorePairEffect(table, f, o1, r1, Read(m.ram, f - o1), o2, r2, Read(m.ram, f - o2), m);
    RestorePairEffect(table, f, o3, r3, Read(m.ram, f - o3), o4, r4, Read(m.ram, f - o4), m1);
    ExecAppend(table, RestoreFromFrame(o1, r1) + RestoreFromFrame(o2, r2), RestoreFromFrame(o3, r3) + RestoreFromFrame(o4, r4), m);
  }

  /** Two restores in a row, with FRAME = f in R13. */
  lemma RestorePairEffect(table: SymbolTable, f: int, o1: nat, r1: Register, v1: int, o2: nat, r2: Register, v2: int, m: Machine)
    requires Running(m) && RegValue(m, R13) == f
    requires RegisterAddress(r1) != 13 && f - o2 != RegisterAddress(r1)
    requires v1 == Read(m.ram, f - o1) && v2 == Read(m.ram, f - o2)
    ensures Exec(table, RestoreFromFrame(o1, r1) + RestoreFromFrame(o2, r2), m) ==
              m.(ram := m.ram[RegisterAddress(r1) := v1][RegisterAddress(r2) := v2], a := RegisterAddress(r2), d := v2)
  {
    var m1 := m.(ram := m.ram[RegisterAddress(r1) := v1], a := RegisterAddress(r1), d := v1);
    assert RegValue(m1, R13) == f;
    assert Read(m1.ram, f - o2) == v2;
    RestoreFromFrameEffect(table, o1, r1, m);
    RestoreFromFrameEffect(table, o2, r2, m1);
    ExecAppend(table, RestoreFromFrame(o1, r1), RestoreFromFrame(o2, r2), m);
  }

  /** THAT, THIS, ARG, LCL = FRAME[-1], FRAME[-2], FRAME[-3], FRAME[-4]. */
  lemma RestoreCallerEffect(table: SymbolTable, f: int, m: Machine)
    requires Running(m) && RegValue(m, R13) == f && f >= 9
    ensures Exec(table, RestoreCaller(), m) ==
              m.(ram := m.ram[RegisterAddress(THAT) := Read(m.ram, f - 1)][RegisterAddress(THIS) := Read(m.ram, f - 2)]
                             [RegisterAddress(ARG) := Read(m.ram, f - 3)][RegisterAddress(LCL) := Read(m.ram, f - 4)],
                 a := RegisterAddress(LCL), d := Read(m.ram, f - 4))
  {
    RestoreCallerShape();
    RestoreFourEffect(table, f, 1, THAT, 2, THIS, 3, ARG, 4, LCL, m);
  }

  /** goto RET, with RET in R14. */
  lemma GotoStoredEffect(table: SymbolTable, m: Machine)
    requires Running(m)
    ensures Exec(table, Follow(R14) + [C(Jump)], m) ==
              m.(a := RegValue(m, R14), jump := Some(RegValue(m, R14)))
  {
    ExecAppend(table, Follow(R14), [C(Jump)], m);
    FollowEffect(table, R14, m);
    ComputeEffect(table, Jump, m.(a := RegValue(m, R14)));
  }

  /** The first half of a return: FRAME and RET saved, the result in place
      of the first argument, and SP just above it. */
  lemma ReturnHeadEffect(table: SymbolTable, f: int, s: int, a: int, m: Machine)
    requires Running(m) && RegValue(m, LCL) == f && Sp(m) == s && RegValue(m, ARG) == a
    requires f - 5 != 13 && s != 1 && s - 1 != 13 && s - 1 != 14
    requires a != 2 && a != 13 && a != 14
    ensures var ret := Read(m.ram, f - 5);
            var v := Read(m.ram, s - 1);
            Exec(table, SaveReturnAddress() + PlaceResult(), m) ==
              m.(ram := m.ram[RegisterAddress(R13) := f][RegisterAddress(R14) := ret][0 := s - 1][a := v][RegisterAddress(SP) := a + 1],
                 a := RegisterAddress(SP), d := a + 1)
  {
    var ret := Read(m.ram, f - 5);
    var v := Read(m.ram, s - 1);
    var m1 := m.(ram := m.ram[RegisterAddress(R13) := f][RegisterAddress(R14) := ret], a := RegisterAddress(R14), d := ret);
    assert Sp(m1) == s;
    assert RegValue(m1, ARG) == a;
    assert Read(m1.ram, s - 1) == v;
    ExecAppend(table, SaveReturnAddress(), PlaceResult(), m);
    SaveReturnAddressEffect(table, m);
    PlaceResultEffect(table, s, a, v, m1);
  }

  /** The second half of a return: the caller's bases back from the frame,
      and a jump to RET. */
  lemma ReturnTailEffect(table: SymbolTable, f: int, ret: int, m: Machine)
    requires Running(m) && RegValue(m, R13) == f && f >= 9 && RegValue(m, R14) == ret
    ensures Exec(table, RestoreCaller() + (Follow(R14) + [C(Jump)]), m) ==
              m.(ram := m.ram[RegisterAddress(THAT) := Read(m.ram, f - 1)][RegisterAddress(THIS) := Read(m.ram, f - 2)]
                             [RegisterAddress(ARG) := Read(m.ram, f - 3)][RegisterAddress(LCL) := Read(m.ram, f - 4)],
                 a := ret, d := Read(m.ram, f - 4), jump := Some(ret))
  {
    var m1 := m.(ram := m.ram[RegisterAddress(THAT) := Read(m.ram, f - 1)][RegisterAddress(THIS) := Read(m.ram, f - 2)]
                             [RegisterAddress(ARG) := Read(m.ram, f - 3)][RegisterAddress(LCL) := Read(m.ram, f - 4)],
                 a := RegisterAddress(LCL), d := Read(m.ram, f - 4));
    assert RegValue(m1, R14) == ret;
    ExecAppend(table, RestoreCaller(), Follow(R14) + [C(Jump)], m);
    RestoreCallerEffect(table, f, m);
    GotoStoredEffect(table, m1);
  }

  lemma ReturnCodeShape()
    ensures ReturnCode() == (SaveReturnAddress() + PlaceResult()) + (RestoreCaller() + (Follow(R14) + [C(Jump)]))
  {
  }

  /** The machine a return leaves, spelled out: FRAME and RET in R13 and
      R14, the result at ARG, SP = ARG + 1, the bases from the frame, and a
      jump to RET pending. */
  function ReturnedMachine(m: Machine): Machine {
    var f := RegValue(m, LCL);
    var s := Sp(m);
    var a := RegValue(m, ARG);
    var ret := Read(m.ram, f - 5);
    var ram2 := m.ram[RegisterAddress(R13) := f][RegisterAddress(R14) := ret][0 := s - 1][a := Read(m.ram, s - 1)][RegisterAddress(SP) := a + 1];
    m.(ram := ram2[RegisterAddress(THAT) := Read(ram2, f - 1)][RegisterAddress(THIS) := Read(ram2, f - 2)]
                  [RegisterAddress(ARG) := Read(ram2, f - 3)][RegisterAddress(LCL) := Read(ram2, f - 4)],
       a := ret, d := Read(ram2, f - 4), jump := Some(ret))
  }

  /** The whole return, with FRAME = f, SP = s and ARG = a on entry: the
      bases are restored from the frame as it stands after the result has
      been placed. */
  lemma ReturnMachineEffect(table: SymbolTable, f: int, s: int, a: int, m: Machine)
    requires Running(m) && RegValue(m, LCL) == f && Sp(m) == s && RegValue(m, ARG) == a
    requires a >= 16 && a + 5 <= f && s >= 16
    ensures Exec(table, ReturnCode(), m) == ReturnedMachine(m)
  {
    var ret := Read(m.ram, f - 5);
    var v := Read(m.ram, s - 1);
    var ram2 := m.ram[RegisterAddress(R13) := f][RegisterAddress(R14) := ret][0 := s - 1][a := v][RegisterAddress(SP) := a + 1];
    var m2 := m.(ram := ram2, a := RegisterAddress(SP), d := a + 1);
    assert RegValue(m2, R13) == f;
    assert RegValue(m2, R14) == ret;
    ReturnCodeShape();
    ExecAppend(table, SaveReturnAddress() + PlaceResult(), RestoreCaller() + (Follow(R14) + [C(Jump)]), m);
    ReturnHeadEffect(table, f, s, a, m);
    ReturnTailEffect(table, f, ret, m2);
  }

  /** What the returned machine holds in the registers, when the frame
      lies between ARG and LCL above the registers. */
  lemma ReturnedRegisters(m: Machine)
    requires Sp(m) >= 16 && RegValue(m, ARG) >= 16 && RegValue(m, ARG) + 5 <= RegValue(m, LCL)
    ensures var f := RegValue(m, LCL);
            var r := ReturnedMachine(m);
            && r.jump == Some(Read(m.ram, f - 5))
            && Sp(r) == RegValue(m, ARG) + 1
            && RegValue(r, LCL) == Read(m.ram, f - 4)
            && RegValue(r, ARG) == Read(m.ram, f - 3)
            && RegValue(r, THIS) == Read(m.ram, f - 2)
            && RegValue(r, THAT) == Read(m.ram, f - 1)
  {
    var f := RegValue(m, LCL);
    var s := Sp(m);
    var a := RegValue(m, ARG);
    var ret := Read(m.ram, f - 5);
    var ram2 := m.ram[RegisterAddress(R13) := f][RegisterAddress(R14) := ret][0 := s - 1][a := Read(m.ram, s - 1)][RegisterAddress(SP) := a + 1];
    assert Read(ram2, f - 1) == Read(m.ram, f - 1);
    assert Read(ram2, f - 2) == Read(m.ram, f - 2);
    assert Read(ram2, f - 3) == Read(m.ram, f - 3);
    assert Read(ram2, f - 4) == Read(m.ram, f - 4);
  }

  /** ... and in the rest of memory: the result at ARG, and no other cell
      but R13 and R14 changed. */
  lemma ReturnedMemory(m: Machine)
    requires Sp(m) >= 16 && RegValue(m, ARG) >= 16
    ensures var a := RegValue(m, ARG);
            var r := ReturnedMachine(m);
            && Read(r.ram, a) == Read(m.ram, Sp(m) - 1)
            && (forall k :: k !in {0, 1, 2, 3, 4, 13, 14, a} ==> Read(r.ram, k) == Read(m.ram, k))
  {
  }

  /** `return` with the frame below LCL: it leaves with a jump to the saved
      return address, puts the callee's top of stack where its first
      argument was with SP just above it, restores the caller's LCL, ARG,
      THIS and THAT from the frame, and of the rest of memory changes only
      R13 and R14. */
  lemma ReturnEffect(table: SymbolTable, st: WriterState, m: Machine)
    requires Running(m) && Sp(m) >= 16
    requires RegValue(m, ARG) >= 16 && RegValue(m, ARG) + 5 <= RegValue(m, LCL)
    ensures Exec(table, WriteReturn(st).code, m) == ReturnedMachine(m)
  {
    assert WriteReturn(st).code == ReturnCode();
    ReturnMachineEffect(table, RegValue(m, LCL), Sp(m), RegValue(m, ARG), m);
  }

  /** A return undoes a call. If the callee leaves LCL and ARG where the
      call put them, the five saved words intact and its result on top of
      the stack, the return jumps to the call's return label, and that
      label resumes the caller with SP one past the arguments' first cell,
      the result in that cell and the caller's bases back. */
  lemma CallReturnRoundTrip(table: SymbolTable, st: WriterState, nArgs: nat, m: Machine, callee: Machine)
    requires Running(m) && Sp(m) - nArgs >= 16
    requires Running(callee) && Sp(callee) >= 16
    requires RegValue(callee, LCL) == Sp(m) + 5 && RegValue(callee, ARG) == Sp(m) - nArgs
    requires var w := FrameWords(table, UniqueLabel("RET", st.labelCounter), m);
             forall k :: 0 <= k < 5 ==> Read(callee.ram, Sp(m) + k) == w[k]
    ensures var s := Sp(m);
            var ret := UniqueLabel("RET", st.labelCounter);
            var r := Exec(table, WriteReturn(st).code, callee);
            && r.jump == Some(table(ret))
            && Sp(r) == s - nArgs + 1
            && Read(r.ram, s - nArgs) == Read(callee.ram, Sp(callee) - 1)
            && RegValue(r, LCL) == RegValue(m, LCL)
            && RegValue(r, ARG) == RegValue(m, ARG)
            && RegValue(r, THIS) == RegValue(m, THIS)
            && RegValue(r, THAT) == RegValue(m, THAT)
            && Running(Exec(table, [Mark(ret)], r))
  {
    var s := Sp(m);
    var ret := UniqueLabel("RET", st.labelCounter);
    var w := FrameWords(table, ret, m);
    var f := RegValue(callee, LCL);
    assert Read(callee.ram, s + 0) == w[0];
    assert Read(callee.ram, s + 1) == w[1];
    assert Read(callee.ram, s + 2) == w[2];
    assert Read(callee.ram, s + 3) == w[3];
    assert Read(callee.ram, s + 4) == w[4];
    assert Read(callee.ram, f - 5) == table(ret);
    assert Read(callee.ram, f - 4) == RegValue(m, LCL);
    assert Read(callee.ram, f - 3) == RegValue(m, ARG);
    assert Read(callee.ram, f - 2) == RegValue(m, THIS);
    assert Read(callee.ram, f - 1) == RegValue(m, THAT);
    ReturnedRegisters(callee);
    ReturnedMemory(callee);
    var r := ReturnedMachine(callee);
    assert r.jump == Some(table(ret));
    MarkEffect(table, ret, r);
    ReturnEffect(table, st, callee);
  }

  /** The bootstrap: SP = 256, then `call Sys.init 0`, which leaves with a
      jump to `Sys.init` and the frame of an empty caller on the stack. */
  lemma InitEffect(table: SymbolTable, st: WriterState, m: Machine)
    requires Running(m)
    requires table(UniqueLabel("RET", st.labelCounter)) != table("Sys.init")
    ensures var r := Exec(table, WriteInit(st).code, m);
            && r.jump == Some(table("Sys.init"))
            && Sp(r) == 261
            && RegValue(r, LCL) == 261
            && RegValue(r, ARG) == 256
            && Read(r.ram, 256) == table(UniqueLabel("RET", st.labelCounter))
  {
    var setSp := LoadAddress(Num(256)) + StoreD(Reg(SP));
    var m0 := m.(a := 256, d := 256);
    var m1 := m0.(ram := m0.ram[Resolve(table, Reg(SP)) := m0.d], a := Resolve(table, Reg(SP)));
    assert Sp(m1) == 256;
    var call := WriteCall(st, "Sys.init", 0);
    assert WriteInit(st).code == setSp + call.code;
    LoadAddressEffect(table, Num(256), m);
    StoreDEffect(table, Reg(SP), m0);
    ExecAppend(table, LoadAddress(Num(256)), StoreD(Reg(SP)), m);
    CallEffect(table, st, "Sys.init", 0, m1);
    assert Read(Exec(table, call.code, m1).ram, 256 + 0) == FrameWords(table, call.drawn[0], m1)[0];
    ExecAppend(table, setSp, call.code, m);
  }
}
