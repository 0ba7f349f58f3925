/** The Hack assembly the translator emits, as data: address instructions,
    the compute instructions that occur in the output, and label
    declarations. `Render` gives each its exact text. */
module Hack {
  import opened Text

  /** The predefined symbols the translator uses: the stack pointer, the four
      segment bases and the two scratch registers. */
  datatype Register = SP | LCL | ARG | THIS | THAT | R13 | R14

  function RegisterName(r: Register): string {
    match r
    case SP => "SP"
    case LCL => "LCL"
    case ARG => "ARG"
    case THIS => "THIS"
    case THAT => "THAT"
    case R13 => "R13"
    case R14 => "R14"
  }

  /** RAM address the Hack assembler assigns to each predefined symbol. */
  function RegisterAddress(r: Register): int {
    match r
    case SP => 0
    case LCL => 1
    case ARG => 2
    case THIS => 3
    case THAT => 4
    case R13 => 13
    case R14 => 14
  }

  /** The operand of an address instruction `@x`. */
  datatype Address =
    | Num(value: nat)      // a decimal constant
    | Reg(reg: Register)   // a predefined symbol
    | Sym(name: string)    // a label, function name or static variable

  /** Every compute instruction that occurs in the translator's output. */
  datatype Comp =
    | DEqA | DEqM | DEqMMinusD | DEqAPlusD | DEqDMinusA | DEqMPlusOne
    | AEqM | AEqAMinusOne | AEqMMinusOne | AEqDMinusA
    | AMEqMMinusOne
    | MEqD | MEqDPlusM | MEqMMinusD | MEqDAndM | MEqDOrM | MEqNegM | MEqNotM
    | MEqZero | MEqMinusOne | MEqMPlusOne
    | JumpEq | JumpGt | JumpLt | JumpNe | Jump

  function CompText(c: Comp): string {
    match c
    case DEqA => "D=A"
    case DEqM => "D=M"
    case DEqMMinusD => "D=M-D"
    case DEqAPlusD => "D=A+D"
    case DEqDMinusA => "D=D-A"
    case DEqMPlusOne => "D=M+1"
    case AEqM => "A=M"
    case AEqAMinusOne => "A=A-1"
    case AEqMMinusOne => "A=M-1"
    case AEqDMinusA => "A=D-A"
    case AMEqMMinusOne => "AM=M-1"
    case MEqD => "M=D"
    case MEqDPlusM => "M=D+M"
    case MEqMMinusD => "M=M-D"
    case MEqDAndM => "M=D&M"
    case MEqDOrM => "M=D|M"
    case MEqNegM => "M=-M"
    case MEqNotM => "M=!M"
    case MEqZero => "M=0"
    case MEqMinusOne => "M=-1"
    case MEqMPlusOne => "M=M+1"
    case JumpEq => "D;JEQ"
    case JumpGt => "D;JGT"
    case JumpLt => "D;JLT"
    case JumpNe => "D;JNE"
    case Jump => "0;JMP"
  }

  datatype Instr =
    | At(address: Address)   // @x
    | C(comp: Comp)          // dest=comp;jump
    | Mark(name: string)     // (label)

  function Render(i: Instr): string {
    match i
    case At(Num(n)) => "@" + NatToString(n)
    case At(Reg(r)) => "@" + RegisterName(r)
    case At(Sym(s)) => "@" + s
    case C(c) => CompText(c)
    case Mark(l) => "(" + l + ")"
  }

  /** The output lines of a block of instructions, one line each. */
  function RenderAll(code: seq<Instr>): (lines: seq<string>)
    ensures |lines| == |code|
    ensures forall k :: 0 <= k < |code| ==> lines[k] == Render(code[k])
  {
    seq(|code|, k requires 0 <= k < |code| => Render(code[k]))
  }
}
