/** The nine VM command categories of chapters 7 and 8 of The Elements of
    Computing Systems. */
module CommandKinds {

  datatype CommandType =
    | CArithmetic   // add, sub, neg, eq, gt, lt, and, or, not
    | CPush         // push segment index
    | CPop          // pop segment index
    | CLabel        // label symbol
    | CGoto         // goto symbol
    | CIf           // if-goto symbol
    | CFunction     // function name nLocals
    | CCall         // call name nArgs
    | CReturn       // return

  /** The enum constant's Java name, as `toString` renders it in messages. */
  function KindName(t: CommandType): string {
    match t
    case CArithmetic => "C_ARITHMETIC"
    case CPush => "C_PUSH"
    case CPop => "C_POP"
    case CLabel => "C_LABEL"
    case CGoto => "C_GOTO"
    case CIf => "C_IF"
    case CFunction => "C_FUNCTION"
    case CCall => "C_CALL"
    case CReturn => "C_RETURN"
  }
}
