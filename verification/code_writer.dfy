/** The code generator. Every `write*` operation is a pure function from the
    translator-wide state and the command's arguments to the instructions it
    appends and the new state; an exception of the original becomes `Err`. */
module CodeWriter {
  import opened Results
  import opened Text
  import opened CommandKinds
  import opened Hack

  /** The translator-wide state: the base name used for static symbols, the
      enclosing function used for label scoping, and the label counter. */
  datatype WriterState = WriterState(fileName: string, currentFunction: string, labelCounter: nat)

  const InitialState := WriterState("Static", "", 0)

  /** What one operation produces: the instructions it appends, the state
      after it, and the auxiliary labels it drew from the counter, in the
      order it drew them. */
  datatype Emitted = Emitted(code: seq<Instr>, state: WriterState, drawn: seq<string>) {
    function Lines(): seq<string> {
      RenderAll(code)
    }
  }

  /** Switching source file changes only the base name of static symbols. */
  function SetFileName(st: WriterState, base: string): (st': WriterState)
    ensures st'.fileName == base
    ensures st'.currentFunction == st.currentFunction && st'.labelCounter == st.labelCounter
  {
    st.(fileName := base)
  }

  // ---------------------------------------------------------------------
  // Labels
  // ---------------------------------------------------------------------

  /** The prefixes of the labels the generator invents. */
  const AuxPrefixes: set<string> := {"TRUE", "END", "RET"}

  function UniqueLabel(prefix: string, n: nat): string {
    prefix + "_" + NatToString(n)
  }

  /** `unique(prefix)`: the label for the current counter value; the counter
      then moves on by one and nothing else changes. */
  function Unique(st: WriterState, prefix: string): (r: (string, WriterState))
    ensures r.0 == UniqueLabel(prefix, st.labelCounter)
    ensures r.1 == st.(labelCounter := st.labelCounter + 1)
  {
    (UniqueLabel(prefix, st.labelCounter), st.(labelCounter := st.labelCounter + 1))
  }

  /** Two invented labels coincide only when they were drawn with the same
      prefix at the same counter value. */
  lemma UniqueLabelsDistinct(p: string, i: nat, q: string, j: nat)
    requires p in AuxPrefixes && q in AuxPrefixes
    ensures UniqueLabel(p, i) == UniqueLabel(q, j) <==> p == q && i == j
  {
    if UniqueLabel(p, i) == UniqueLabel(q, j) {
      assert UniqueLabel(p, i)[0] == p[0];
      assert UniqueLabel(q, j)[0] == q[0];
      assert p == q;
      assert NatToString(i) == UniqueLabel(p, i)[|p| + 1..];
      assert NatToString(j) == UniqueLabel(q, j)[|q| + 1..];
      NatToStringInjective(i, j);
    }
  }

  /** `scoped(label)`: the raw label at top level, `Function$label` inside a
      function. */
  function Scoped(st: WriterState, lbl: string): (s: string)
    ensures st.currentFunction == "" ==> s == lbl
    ensures st.currentFunction != "" ==>
              |s| == |st.currentFunction| + 1 + |lbl| &&
              s[..|st.currentFunction|] == st.currentFunction &&
              s[|st.currentFunction|] == '$' &&
              s[|st.currentFunction| + 1..] == lbl
  {
    if st.currentFunction == "" then lbl else st.currentFunction + "$" + lbl
  }

  /** Within one function, distinct raw labels stay distinct. */
  lemma ScopedInjective(st: WriterState, l1: string, l2: string)
    ensures Scoped(st, l1) == Scoped(st, l2) <==> l1 == l2
  {
    if Scoped(st, l1) == Scoped(st, l2) && st.currentFunction != "" {
      var n := |st.currentFunction| + 1;
      assert l1 == Scoped(st, l1)[n..];
    }
  }

  /** The same raw label in two different functions names two different
      symbols. */
  lemma ScopedSeparatesFunctions(st1: WriterState, st2: WriterState, l: string)
    requires st1.currentFunction != "" && st2.currentFunction != ""
    requires st1.currentFunction != st2.currentFunction
    ensures Scoped(st1, l) != Scoped(st2, l)
  {
  }

  /** `checkRange`: an out-of-range failure unless `lo <= i <= hi`. */
  function CheckRange(i: nat, lo: nat, hi: nat, seg: string): (r: Result<()>)
    ensures r.Ok? <==> lo <= i <= hi
    ensures r.Err? ==> r.error == IllegalArgument(seg + " index out of range: " + NatToString(i))
  {
    if i < lo || i > hi then Err(IllegalArgument(seg + " index out of range: " + NatToString(i)))
    else Ok(())
  }

  // ---------------------------------------------------------------------
  // Instruction blocks shared by several commands
  // ---------------------------------------------------------------------

  /** D = x: load the operand of the address instruction itself. */
  function LoadAddress(x: Address): seq<Instr> {
    [At(x), C(DEqA)]
  }

  /** D = RAM[x]. */
  function LoadValue(x: Address): seq<Instr> {
    [At(x), C(DEqM)]
  }

  /** RAM[x] = D. */
  function StoreD(x: Address): seq<Instr> {
    [At(x), C(MEqD)]
  }

  /** A = RAM[r]: follow the pointer held in a register. */
  function Follow(r: Register): seq<Instr> {
    [At(Reg(r)), C(AEqM)]
  }

  /** D = RAM[x] + 1. */
  function LoadSuccessor(x: Address): seq<Instr> {
    [At(x), C(DEqMPlusOne)]
  }

  /** D = D - x. */
  function SubtractAddress(x: Address): seq<Instr> {
    [At(x), C(DEqDMinusA)]
  }

  /** Jump unconditionally to x. */
  function JumpTo(x: Address): seq<Instr> {
    [At(x), C(Jump)]
  }

  /** SP--; D = *SP. */
  function PopD(): seq<Instr> {
    [At(Reg(SP)), C(AMEqMMinusOne), C(DEqM)]
  }

  /** A = SP - 1: address the topmost stack cell. */
  function AddressTop(): seq<Instr> {
    [At(Reg(SP)), C(AEqMMinusOne)]
  }

  /** `pushD`: *SP = D; SP++. */
  function PushD(): seq<Instr> {
    [At(Reg(SP)), C(AEqM), C(MEqD)] + [At(Reg(SP)), C(MEqMPlusOne)]
  }

  /** `pushSymbol`: push the value held in a predefined register. */
  function PushSymbol(r: Register): seq<Instr> {
    LoadValue(Reg(r)) + PushD()
  }

  /** The base register of the four indirectly addressed segments. */
  function BaseRegister(segment: string): Option<Register> {
    match segment
    case "local" => Some(LCL)
    case "argument" => Some(ARG)
    case "this" => Some(THIS)
    case "that" => Some(THAT)
    case _ => None
  }

  /** D = A + D, after `Follow` has put a base address in A. */
  function AddBase(): seq<Instr> {
    [C(DEqAPlusD)]
  }

  /** `addrFromBase`: R13 = *base + index. */
  function AddrFromBase(base: Register, index: nat): seq<Instr> {
    (LoadAddress(Num(index)) + Follow(base)) + (AddBase() + StoreD(Reg(R13)))
  }

  /** A = *R13; D = *A, after `addrFromBase` has left A = 13. */
  function LoadIndirect(): seq<Instr> {
    [C(AEqM), C(DEqM)]
  }

  /** *A = D. */
  function StoreAtA(): seq<Instr> {
    [C(MEqD)]
  }

  /** `popToR13Target`: SP--; *R13 = *SP. */
  function PopToR13Target(): seq<Instr> {
    PopD() + Follow(R13) + StoreAtA()
  }

  /** R13 = x (the target address of a pop into a direct segment). */
  function AddressToR13(x: Address): seq<Instr> {
    LoadAddress(x) + StoreD(Reg(R13))
  }

  /** D = RAM[D - k]. */
  function LoadBelow(k: nat): seq<Instr> {
    [At(Num(k)), C(AEqDMinusA), C(DEqM)]
  }

  /** `restoreFromFrame`: dest = *(R13 - offset). */
  function RestoreFromFrame(offset: nat, dest: Register): seq<Instr> {
    LoadValue(Reg(R13)) + (LoadBelow(offset) + StoreD(Reg(dest)))
  }

  function StaticSymbol(fileName: string, index: nat): string {
    fileName + "." + NatToString(index)
  }

  /** The register `pointer i` stands for. */
  function PointerRegister(index: nat): Register {
    if index == 0 then THIS else THAT
  }

  // ---------------------------------------------------------------------
  // Arithmetic and logic
  // ---------------------------------------------------------------------

  /** Pop y into D, address x's cell below it and apply `op`. */
  function Binary(op: Comp): seq<Instr> {
    PopD() + [C(AEqAMinusOne)] + [C(op)]
  }

  function Unary(op: Comp): seq<Instr> {
    AddressTop() + [C(op)]
  }

  /** Jump to x when the condition `jump` holds of D. */
  function JumpIf(x: Address, jump: Comp): seq<Instr> {
    [At(x), C(jump)]
  }

  /** `compare(jump)`: draws `TRUE_n` and then `END_{n+1}` from the counter. */
  function Compare(st: WriterState, jump: Comp): (e: Emitted)
    ensures e.state == st.(labelCounter := st.labelCounter + 2)
    ensures e.drawn == [UniqueLabel("TRUE", st.labelCounter), UniqueLabel("END", st.labelCounter + 1)]
    ensures |e.code| == 17
    ensures e.code[5] == At(Sym(e.drawn[0])) && e.code[6] == C(jump)
    ensures e.code[10] == At(Sym(e.drawn[1]))
    ensures e.code[12] == Mark(e.drawn[0]) && e.code[16] == Mark(e.drawn[1])
  {
    var (t, st1) := Unique(st, "TRUE");
    var (end, st2) := Unique(st1, "END");
    Emitted(CompareCode(jump, t, end), st2, [t, end])
  }

  /** x - y into D, then a jump to `t` when the condition holds. */
  function CompareCode(jump: Comp, t: string, end: string): seq<Instr> {
    Binary(DEqMMinusD) + JumpIf(Sym(t), jump) + FalseBranch(end) + TrueBranch(t, end)
  }

  /** The top becomes 0 and control skips to `end`. */
  function FalseBranch(end: string): seq<Instr> {
    Unary(MEqZero) + JumpTo(Sym(end))
  }

  /** At `t` the top becomes -1; both branches meet at `end`. */
  function TrueBranch(t: string, end: string): seq<Instr> {
    [Mark(t)] + Unary(MEqMinusOne) + [Mark(end)]
  }

  /** The nine arithmetic and logical operator names. */
  const ArithmeticOps: set<string> := {"add", "sub", "and", "or", "neg", "not", "eq", "gt", "lt"}

  /** `writeArithmetic`. */
  function WriteArithmetic(st: WriterState, cmd: string): (r: Result<Emitted>)
    ensures r.Err? <==> cmd !in ArithmeticOps
    ensures r.Err? ==> r.error == IllegalArgument("Unknown arithmetic: " + cmd)
    ensures r.Ok? && cmd in {"eq", "gt", "lt"} ==>
              && r.value.state == st.(labelCounter := st.labelCounter + 2)
              && r.value.drawn == [UniqueLabel("TRUE", st.labelCounter), UniqueLabel("END", st.labelCounter + 1)]
    ensures r.Ok? && cmd !in {"eq", "gt", "lt"} ==>
              r.value.state == st && r.value.drawn == []
    ensures r.Ok? ==> forall k :: 0 <= k < |r.value.drawn| ==> Mark(r.value.drawn[k]) in r.value.code
  {
    match cmd
    case "add" => Ok(Emitted(Binary(MEqDPlusM), st, []))
    case "sub" => Ok(Emitted(Binary(MEqMMinusD), st, []))
    case "and" => Ok(Emitted(Binary(MEqDAndM), st, []))
    case "or" => Ok(Emitted(Binary(MEqDOrM), st, []))
    case "neg" => Ok(Emitted(Unary(MEqNegM), st, []))
    case "not" => Ok(Emitted(Unary(MEqNotM), st, []))
    case "eq" => Ok(Compare(st, JumpEq))
    case "gt" => Ok(Compare(st, JumpGt))
    case "lt" => Ok(Compare(st, JumpLt))
    case _ => Err(IllegalArgument("Unknown arithmetic: " + cmd))
  }

  // ---------------------------------------------------------------------
  // Memory access
  // ---------------------------------------------------------------------

  const Segments: set<string> := {"constant", "local", "argument", "this", "that", "temp", "pointer", "static"}

  /** The accesses the generator accepts: a known segment, not a pop into
      `constant`, a `temp` index in 0..7 and a `pointer` index in 0..1. */
  predicate ValidAccess(isPush: bool, segment: string, index: nat) {
    && segment in Segments
    && (segment == "constant" ==> isPush)
    && (segment == "temp" ==> index <= 7)
    && (segment == "pointer" ==> index <= 1)
  }

  function PushCode(st: WriterState, segment: string, index: nat): Result<seq<Instr>> {
    match segment
    case "constant" =>
      Ok(LoadAddress(Num(index)) + PushD())
    case "local" | "argument" | "this" | "that" =>
      (match BaseRegister(segment)
       case Some(base) => Ok(AddrFromBase(base, index) + LoadIndirect() + PushD())
       case None => Err(IllegalArgument("bad base segment: " + segment)))
    case "temp" =>
      var _ :- CheckRange(index, 0, 7, "temp");
      Ok(LoadValue(Num(5 + index)) + PushD())
    case "pointer" =>
      var _ :- CheckRange(index, 0, 1, "pointer");
      Ok(LoadValue(Reg(PointerRegister(index))) + PushD())
    case "static" =>
      Ok(LoadValue(Sym(StaticSymbol(st.fileName, index))) + PushD())
    case _ =>
      Err(IllegalArgument("push: bad segment " + segment))
  }

  function PopCode(st: WriterState, segment: string, index: nat): Result<seq<Instr>> {
    match segment
    case "local" | "argument" | "this" | "that" =>
      (match BaseRegister(segment)
       case Some(base) => Ok(AddrFromBase(base, index) + PopToR13Target())
       case None => Err(IllegalArgument("bad base segment: " + segment)))
    case "temp" =>
      var _ :- CheckRange(index, 0, 7, "temp");
      Ok(AddressToR13(Num(5 + index)) + PopToR13Target())
    case "pointer" =>
      var _ :- CheckRange(index, 0, 1, "pointer");
      Ok(AddressToR13(Reg(PointerRegister(index))) + PopToR13Target())
    case "static" =>
      Ok(AddressToR13(Sym(StaticSymbol(st.fileName, index))) + PopToR13Target())
    case "constant" =>
      Err(IllegalArgument("pop constant is invalid"))
    case _ =>
      Err(IllegalArgument("pop: bad segment " + segment))
  }

  /** `writePushPop`: the push branch for `CPush`, the pop branch for any
      other kind. Memory access never touches the state. */
  function WritePushPop(st: WriterState, kind: CommandType, segment: string, index: nat): (r: Result<Emitted>)
    ensures r.Ok? <==> ValidAccess(kind == CPush, segment, index)
    ensures r.Err? ==> r.error.IllegalArgument?
    ensures r.Ok? ==> r.value.state == st && r.value.drawn == []
    ensures r.Ok? && segment == "static" ==> At(Sym(StaticSymbol(st.fileName, index))) in r.value.code
  {
    var code :- if kind == CPush then PushCode(st, segment, index) else PopCode(st, segment, index);
    Ok(Emitted(code, st, []))
  }

  // ---------------------------------------------------------------------
  // Branching
  // ---------------------------------------------------------------------

  function WriteLabel(st: WriterState, lbl: string): (e: Emitted)
    ensures e.state == st && e.drawn == []
    ensures e.code == [Mark(Scoped(st, lbl))]
  {
    Emitted([Mark(Scoped(st, lbl))], st, [])
  }

  function WriteGoto(st: WriterState, lbl: string): (e: Emitted)
    ensures e.state == st && e.drawn == []
    ensures |e.code| == 2 && e.code[0] == At(Sym(Scoped(st, lbl)))
  {
    Emitted(JumpTo(Sym(Scoped(st, lbl))), st, [])
  }

  function WriteIf(st: WriterState, lbl: string): (e: Emitted)
    ensures e.state == st && e.drawn == []
    ensures |e.code| == 5 && e.code[3] == At(Sym(Scoped(st, lbl)))
  {
    Emitted(PopD() + JumpIf(Sym(Scoped(st, lbl)), JumpNe), st, [])
  }

  /** Inside one function, `label l`, `goto l` and `if-goto l` name one and
      the same symbol, and none of them changes the state. */
  lemma BranchesAgree(st: WriterState, lbl: string)
    ensures WriteLabel(st, lbl).code[0].name == WriteGoto(st, lbl).code[0].address.name
    ensures WriteGoto(st, lbl).code[0] == WriteIf(st, lbl).code[3]
  {
  }

  // ---------------------------------------------------------------------
  // Functions, calls and returns
  // ---------------------------------------------------------------------

  function PushZero(): seq<Instr> {
    LoadAddress(Num(0)) + PushD()
  }

  /** The local-initialisation loop: `n` copies of `push 0`. */
  function InitLocals(n: nat): (code: seq<Instr>)
    ensures |code| == 7 * n
  {
    if n == 0 then [] else PushZero() + InitLocals(n - 1)
  }

  /** `writeFunction`: declares the entry label and zeroes `nLocals` locals;
      the declared name becomes the scope of later labels. */
  function WriteFunction(st: WriterState, name: string, nLocals: nat): (e: Emitted)
    ensures e.state == st.(currentFunction := name) && e.drawn == []
    ensures |e.code| == 1 + 7 * nLocals
    ensures e.code[0] == Mark(name)
  {
    Emitted([Mark(name)] + InitLocals(nLocals), st.(currentFunction := name), [])
  }

  /** ARG = SP - 5 - nArgs. */
  function RepositionArg(nArgs: nat): seq<Instr> {
    (LoadValue(Reg(SP)) + SubtractAddress(Num(5))) + (SubtractAddress(Num(nArgs)) + StoreD(Reg(ARG)))
  }

  /** LCL = SP. */
  function RepositionLcl(): seq<Instr> {
    LoadValue(Reg(SP)) + StoreD(Reg(LCL))
  }

  /** The caller's frame: the return address and the four segment bases. */
  function SaveFrame(ret: string): seq<Instr> {
    (LoadAddress(Sym(ret)) + PushD())
      + (PushSymbol(LCL) + PushSymbol(ARG))
      + (PushSymbol(THIS) + PushSymbol(THAT))
  }

  function CallCode(name: string, nArgs: nat, ret: string): seq<Instr> {
    SaveFrame(ret) + RepositionArg(nArgs) + RepositionLcl() + JumpTo(Sym(name)) + [Mark(ret)]
  }

  /** `writeCall`: draws one `RET_n` label, which is the last line emitted. */
  function WriteCall(st: WriterState, name: string, nArgs: nat): (e: Emitted)
    ensures e.state == st.(labelCounter := st.labelCounter + 1)
    ensures e.drawn == [UniqueLabel("RET", st.labelCounter)]
    ensures |e.code| == 50
    ensures e.code[0] == At(Sym(e.drawn[0]))
    ensures e.code[47] == At(Sym(name)) && e.code[49] == Mark(e.drawn[0])
    ensures e.Lines()[49] == "(" + UniqueLabel("RET", st.labelCounter) + ")"
  {
    var (ret, st1) := Unique(st, "RET");
    Emitted(CallCode(name, nArgs, ret), st1, [ret])
  }

  /** FRAME = LCL (kept in R13); RET = *(FRAME - 5) (kept in R14). */
  function SaveReturnAddress(): seq<Instr> {
    (LoadValue(Reg(LCL)) + StoreD(Reg(R13))) + (LoadBelow(5) + StoreD(Reg(R14)))
  }

  /** *ARG = pop(); SP = ARG + 1. */
  function PlaceResult(): seq<Instr> {
    (PopD() + Follow(ARG) + StoreAtA()) + (LoadSuccessor(Reg(ARG)) + StoreD(Reg(SP)))
  }

  /** THAT, THIS, ARG and LCL from FRAME-1 .. FRAME-4. */
  function RestoreCaller(): seq<Instr> {
    (RestoreFromFrame(1, THAT) + RestoreFromFrame(2, THIS))
      + (RestoreFromFrame(3, ARG) + RestoreFromFrame(4, LCL))
  }

  function ReturnCode(): seq<Instr> {
    (SaveReturnAddress() + PlaceResult()) + (RestoreCaller() + (Follow(R14) + [C(Jump)]))
  }

  /** `writeReturn`: the frame-restoring epilogue; it touches no state. */
  function WriteReturn(st: WriterState): (e: Emitted)
    ensures e.state == st && e.drawn == []
    ensures |e.code| == 50
    ensures e.code[49] == C(Jump)
  {
    Emitted(ReturnCode(), st, [])
  }

  /** `writeInit`: SP = 256, then `call Sys.init 0`. */
  function WriteInit(st: WriterState): (e: Emitted)
    ensures e.state == st.(labelCounter := st.labelCounter + 1)
    ensures e.drawn == [UniqueLabel("RET", st.labelCounter)]
    ensures |e.code| == 54
    ensures e.code[..4] == [At(Num(256)), C(DEqA), At(Reg(SP)), C(MEqD)]
    ensures e.code[4..] == WriteCall(st, "Sys.init", 0).code
  {
    var call := WriteCall(st, "Sys.init", 0);
    Emitted(LoadAddress(Num(256)) + StoreD(Reg(SP)) + call.code, call.state, call.drawn)
  }
}
