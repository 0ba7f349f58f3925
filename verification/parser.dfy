/** The command classifier: line cleaning, the command cursor, and the
    `commandType` / `arg1` / `arg2` queries over one cleaned line. */
module VmParser {
  import opened Results
  import opened Text
  import opened CommandKinds

  // ---------------------------------------------------------------------
  // Line cleaning (the constructor's preprocessing)
  // ---------------------------------------------------------------------

  /** A line the constructor retains: non-empty, no blank at either end, no
      comment marker. */
  predicate IsCleanLine(s: string) {
    s != [] && !IsBlank(s[0]) && !IsBlank(s[|s| - 1]) && NoComment(s)
  }

  type CleanLine = s: string | IsCleanLine(s) witness "x"

  /** `raw.split("//", 2)[0].trim()`, kept only when non-empty. A line is
      dropped exactly when everything before its comment is blank. */
  function CleanOne(raw: string): (r: Option<CleanLine>)
    ensures r.None? <==> AllBlank(BeforeComment(raw))
    ensures r.Some? ==> r.value == Trim(BeforeComment(raw))
  {
    var code := BeforeComment(raw);
    var line := Trim(code);
    BeforeCommentHasNoComment(raw);
    TrimKeepsNoComment(code);
    if line == [] then None else Some(line)
  }

  /** The lines the constructor keeps, in source order. */
  function Clean(raw: seq<string>): (lines: seq<CleanLine>)
    ensures |lines| <= |raw|
  {
    if raw == [] then []
    else
      match CleanOne(raw[0])
      case None => Clean(raw[1..])
      case Some(l) => [l] + Clean(raw[1..])
  }

  /** Cleaning works line by line: it distributes over concatenation, so the
      relative order of retained lines is the order of the source. */
  lemma {:induction false} CleanAppend(a: seq<string>, b: seq<string>)
    ensures Clean(a + b) == Clean(a) + Clean(b)
  {
    if a == [] {
      assert a + b == b;
    } else {
      var ab := a + b;
      assert ab[0] == a[0];
      assert ab[1..] == a[1..] + b;
      CleanAppend(a[1..], b);
      match CleanOne(a[0])
      case None =>
        assert Clean(ab) == Clean(ab[1..]);
      case Some(l) =>
        assert Clean(ab) == [l] + Clean(ab[1..]);
        assert [l] + (Clean(a[1..]) + Clean(b)) == ([l] + Clean(a[1..])) + Clean(b);
    }
  }

  /** A clean line passes through cleaning unchanged. */
  lemma CleanOneOfClean(l: CleanLine)
    ensures CleanOne(l) == Some(l)
  {
    BeforeCommentOfPlain(l);
    TrimOfTrimmed(l);
  }

  /** Cleaning is idempotent. */
  lemma {:induction false} CleanIdempotent(raw: seq<string>)
    ensures Clean(Clean(raw)) == Clean(raw)
  {
    if raw != [] {
      CleanIdempotent(raw[1..]);
      match CleanOne(raw[0])
      case None =>
      case Some(l) =>
        CleanOneOfClean(l);
        var c := Clean(raw);
        assert c == [l] + Clean(raw[1..]);
        assert c[0] == l && c[1..] == Clean(raw[1..]);
    }
  }

  /** Some raw line cleans to l. */
  predicate CleansTo(raw: seq<string>, l: CleanLine) {
    exists k :: 0 <= k < |raw| && CleanOne(raw[k]) == Some(l)
  }

  lemma CleansToCons(raw: seq<string>, l: CleanLine)
    requires raw != []
    ensures CleansTo(raw, l) <==> CleanOne(raw[0]) == Some(l) || CleansTo(raw[1..], l)
  {
    if CleansTo(raw, l) {
      var k :| 0 <= k < |raw| && CleanOne(raw[k]) == Some(l);
      if k > 0 {
        assert raw[1..][k - 1] == raw[k];
      }
    }
    if CleansTo(raw[1..], l) {
      var k :| 0 <= k < |raw| - 1 && CleanOne(raw[1..][k]) == Some(l);
      assert raw[k + 1] == raw[1..][k];
    }
  }

  /** A line is retained exactly when some raw line cleans to it. */
  lemma {:induction false} CleanMembership(raw: seq<string>, l: CleanLine)
    ensures l in Clean(raw) <==> CleansTo(raw, l)
  {
    if raw != [] {
      CleanMembership(raw[1..], l);
      CleansToCons(raw, l);
    }
  }

  // ---------------------------------------------------------------------
  // The cursor: hasMoreCommands / advance
  // ---------------------------------------------------------------------

  /** The parser's state: the retained lines and the cursor, which starts
      before the first line. */
  datatype Parser = Parser(lines: seq<CleanLine>, index: int)

  function NewParser(raw: seq<string>): (p: Parser)
    ensures p.lines == Clean(raw) && p.index == -1
  {
    Parser(Clean(raw), -1)
  }

  predicate HasMoreCommands(p: Parser) {
    p.index + 1 < |p.lines|
  }

  /** Moves the cursor to the next line; past the last line the list access
      fails. */
  function Advance(p: Parser): (r: Result<Parser>)
    ensures r.Ok? <==> p.index + 1 < |p.lines|
    ensures r.Ok? ==> r.value.lines == p.lines && r.value.index == p.index + 1
    ensures r.Err? ==> r.error == IndexOutOfBounds
  {
    if HasMoreCommands(p) then Ok(p.(index := p.index + 1)) else Err(IndexOutOfBounds)
  }

  predicate HasCurrent(p: Parser) {
    0 <= p.index < |p.lines|
  }

  function Current(p: Parser): CleanLine
    requires HasCurrent(p)
  {
    p.lines[p.index]
  }

  /** The driver's loop `while (hasMoreCommands()) advance()`: it visits
      every retained line once, in order. */
  method ReadAll(raw: seq<string>) returns (visited: seq<CleanLine>)
    ensures visited == Clean(raw)
  {
    var p := NewParser(raw);
    visited := [];
    while HasMoreCommands(p)
      invariant p.lines == Clean(raw)
      invariant -1 <= p.index < |p.lines|
      invariant visited == p.lines[..p.index + 1]
      decreases |p.lines| - p.index
    {
      var next := Advance(p);
      p := next.value;
      assert p.lines[..p.index + 1] == p.lines[..p.index] + [Current(p)];
      visited := visited + [Current(p)];
    }
    assert !HasMoreCommands(p);
    assert p.index + 1 == |p.lines|;
  }

  // ---------------------------------------------------------------------
  // commandType, arg1, arg2
  // ---------------------------------------------------------------------

  /** The keyword table. */
  const CommandMap: map<string, CommandType> := map[
    "push" := CPush,
    "pop" := CPop,
    "label" := CLabel,
    "goto" := CGoto,
    "if-goto" := CIf,
    "function" := CFunction,
    "call" := CCall,
    "return" := CReturn
  ]

  /** The keyword spelling each non-arithmetic kind is written with. */
  function KeywordOf(t: CommandType): string
    requires t != CArithmetic
  {
    match t
    case CPush => "push"
    case CPop => "pop"
    case CLabel => "label"
    case CGoto => "goto"
    case CIf => "if-goto"
    case CFunction => "function"
    case CCall => "call"
    case CReturn => "return"
  }

  /** The whitespace-delimited tokens of a clean line; never empty, because
      a clean line starts with a non-blank character. */
  function LineTokens(line: CleanLine): (ts: seq<string>)
    ensures |ts| > 0
  {
    Tokens(line)
  }

  function Keyword(line: CleanLine): string {
    LineTokens(line)[0]
  }

  /** `commandType`: the keyword table's entry for the first token, and
      arithmetic for any first token the table does not hold. */
  function CommandTypeOf(line: CleanLine): (t: CommandType)
    ensures Keyword(line) in CommandMap ==> t == CommandMap[Keyword(line)]
    ensures Keyword(line) !in CommandMap ==> t == CArithmetic
  {
    var kw := Keyword(line);
    if kw in CommandMap then CommandMap[kw] else CArithmetic
  }

  /** The keyword table maps each kind's keyword to that kind ... */
  lemma CommandMapHasKeyword(t: CommandType)
    requires t != CArithmetic
    ensures KeywordOf(t) in CommandMap && CommandMap[KeywordOf(t)] == t
  {
  }

  /** ... and holds nothing else. */
  lemma CommandMapKeys(kw: string)
    requires kw in CommandMap
    ensures CommandMap[kw] != CArithmetic && KeywordOf(CommandMap[kw]) == kw
  {
  }

  /** A line has a non-arithmetic kind exactly when its first token is that
      kind's keyword. */
  lemma CommandTypeByKeyword(line: CleanLine, t: CommandType)
    requires t != CArithmetic
    ensures CommandTypeOf(line) == t <==> Keyword(line) == KeywordOf(t)
  {
    CommandMapHasKeyword(t);
    if Keyword(line) in CommandMap {
      CommandMapKeys(Keyword(line));
    }
  }

  /** Everything that is not one of the eight keywords is arithmetic. */
  lemma ArithmeticFallback(line: CleanLine)
    ensures CommandTypeOf(line) == CArithmetic <==>
            forall t :: t != CArithmetic ==> Keyword(line) != KeywordOf(t)
  {
    if CommandTypeOf(line) != CArithmetic {
      CommandTypeByKeyword(line, CommandTypeOf(line));
    }
  }

  /** `arg1`: the whole line for arithmetic, an invalid-state failure for
      `return`, and otherwise the second token (failing when there is
      none). */
  function Arg1(line: CleanLine): (r: Result<string>)
    ensures CommandTypeOf(line) == CArithmetic ==> r == Ok(line)
    ensures CommandTypeOf(line) == CReturn ==> r.Err? && r.error.IllegalState?
    ensures CommandTypeOf(line) !in {CArithmetic, CReturn} ==>
              (r.Ok? <==> |LineTokens(line)| >= 2) &&
              (r.Ok? ==> r.value == LineTokens(line)[1]) &&
              (r.Err? ==> r.error == IndexOutOfBounds)
  {
    var t := CommandTypeOf(line);
    if t == CArithmetic then Ok(line)
    else if t == CReturn then Err(IllegalState("arg1() is invalid for 'return'"))
    else
      var ts := LineTokens(line);
      if |ts| >= 2 then Ok(ts[1]) else Err(IndexOutOfBounds)
  }

  /** The kinds that carry an integer second argument. */
  predicate HasIntArg(t: CommandType) {
    t == CPush || t == CPop || t == CFunction || t == CCall
  }

  /** `arg2`: the third token as an integer, for push, pop, function and
      call only. */
  function Arg2(line: CleanLine): (r: Result<nat>)
    ensures !HasIntArg(CommandTypeOf(line)) ==>
              r == Err(IllegalState("arg2() is invalid for " + KindName(CommandTypeOf(line))))
    ensures HasIntArg(CommandTypeOf(line)) ==>
              (r.Ok? <==> |LineTokens(line)| >= 3 && ParseInt(LineTokens(line)[2]).Ok?) &&
              (r.Ok? ==> r == ParseInt(LineTokens(line)[2])) &&
              (|LineTokens(line)| < 3 ==> r == Err(IndexOutOfBounds)) &&
              (r.Err? && |LineTokens(line)| >= 3 ==> r.error == NumberFormat(LineTokens(line)[2]))
  {
    var t := CommandTypeOf(line);
    if !HasIntArg(t) then Err(IllegalState("arg2() is invalid for " + KindName(t)))
    else
      var ts := LineTokens(line);
      if |ts| < 3 then Err(IndexOutOfBounds) else ParseInt(ts[2])
  }

  // ---------------------------------------------------------------------
  // Classified commands
  // ---------------------------------------------------------------------

  /** A classified VM command with its typed arguments. */
  datatype Command =
    | Arithmetic(op: string)
    | Push(segment: string, index: nat)
    | Pop(segment: string, index: nat)
    | Label(name: string)
    | Goto(target: string)
    | IfGoto(target: string)
    | Function(name: string, nLocals: nat)
    | Call(name: string, nArgs: nat)
    | Return

  /** The driver's queries for the current line, in the order it makes them:
      the kind, then `arg1`, then `arg2` where the kind has one. */
  function Classify(line: CleanLine): (r: Result<Command>)
    ensures r.Ok? ==> CommandTypeOf(line) == KindOf(r.value)
    ensures r.Ok? ==>
              match r.value
              case Arithmetic(op) => op == line
              case Push(seg, i) => Arg1(line) == Ok(seg) && Arg2(line) == Ok(i)
              case Pop(seg, i) => Arg1(line) == Ok(seg) && Arg2(line) == Ok(i)
              case Label(l) => Arg1(line) == Ok(l)
              case Goto(l) => Arg1(line) == Ok(l)
              case IfGoto(l) => Arg1(line) == Ok(l)
              case Function(f, n) => Arg1(line) == Ok(f) && Arg2(line) == Ok(n)
              case Call(f, n) => Arg1(line) == Ok(f) && Arg2(line) == Ok(n)
              case Return => true
    ensures r.Err? <==>
              match CommandTypeOf(line)
              case CArithmetic | CReturn => false
              case CLabel | CGoto | CIf => Arg1(line).Err?
              case _ => Arg1(line).Err? || Arg2(line).Err?
  {
    match CommandTypeOf(line)
    case CArithmetic =>
      (match Arg1(line)
       case Ok(op) => Ok(Arithmetic(op))
       case Err(e) => Err(e))
    case CPush =>
      var seg :- Arg1(line); var i :- Arg2(line); Ok(Push(seg, i))
    case CPop =>
      var seg :- Arg1(line); var i :- Arg2(line); Ok(Pop(seg, i))
    case CLabel =>
      var l :- Arg1(line); Ok(Label(l))
    case CGoto =>
      var l :- Arg1(line); Ok(Goto(l))
    case CIf =>
      var l :- Arg1(line); Ok(IfGoto(l))
    case CFunction =>
      var f :- Arg1(line); var n :- Arg2(line); Ok(Function(f, n))
    case CCall =>
      var f :- Arg1(line); var n :- Arg2(line); Ok(Call(f, n))
    case CReturn =>
      Ok(Return)
  }

  function KindOf(c: Command): CommandType {
    match c
    case Arithmetic(_) => CArithmetic
    case Push(_, _) => CPush
    case Pop(_, _) => CPop
    case Label(_) => CLabel
    case Goto(_) => CGoto
    case IfGoto(_) => CIf
    case Function(_, _) => CFunction
    case Call(_, _) => CCall
    case Return => CReturn
  }

  /** A symbol or operator that can stand as one token of a clean line. */
  predicate IsWord(w: string) {
    w != [] && (forall k :: 0 <= k < |w| ==> !IsBlank(w[k])) && NoComment(w)
  }

  /** The commands that have a source line: every name is a word, an
      operator is not one of the keywords, and every number fits in an
      `int`. */
  predicate WellFormed(c: Command) {
    match c
    case Arithmetic(op) => IsWord(op) && op !in CommandMap
    case Push(s, i) => IsWord(s) && i <= MaxInt
    case Pop(s, i) => IsWord(s) && i <= MaxInt
    case Label(l) => IsWord(l)
    case Goto(l) => IsWord(l)
    case IfGoto(l) => IsWord(l)
    case Function(f, n) => IsWord(f) && n <= MaxInt
    case Call(f, n) => IsWord(f) && n <= MaxInt
    case Return => true
  }

  /** The tokens of a command's canonical source line. */
  function CommandWords(c: Command): (ws: seq<string>)
    ensures |ws| > 0
  {
    match c
    case Arithmetic(op) => [op]
    case Push(s, i) => ["push", s, NatToString(i)]
    case Pop(s, i) => ["pop", s, NatToString(i)]
    case Label(l) => ["label", l]
    case Goto(l) => ["goto", l]
    case IfGoto(l) => ["if-goto", l]
    case Function(f, n) => ["function", f, NatToString(n)]
    case Call(f, n) => ["call", f, NatToString(n)]
    case Return => ["return"]
  }

  /** A command's canonical source line: its tokens separated by single
      spaces. */
  function CommandText(c: Command): string {
    var ws := CommandWords(c);
    JoinWith(ws, SingleSpaces(|ws| - 1))
  }

  /** n separators of one space each. */
  function SingleSpaces(n: nat): (gs: seq<string>)
    ensures |gs| == n && AllGaps(gs)
  {
    seq(n, _ => " ")
  }

  lemma NatToStringIsWord(n: nat)
    ensures IsWord(NatToString(n))
  {
    var s := NatToString(n);
    forall k | 0 <= k < |s| ensures !IsBlank(s[k]) {
      assert IsDigit(s[k]);
    }
  }

  lemma WordsOfCommand(c: Command)
    requires WellFormed(c)
    ensures forall k :: 0 <= k < |CommandWords(c)| ==> IsWord(CommandWords(c)[k])
  {
    match c
    case Push(_, i) => NatToStringIsWord(i);
    case Pop(_, i) => NatToStringIsWord(i);
    case Function(_, n) => NatToStringIsWord(n);
    case Call(_, n) => NatToStringIsWord(n);
    case _ =>
  }

  lemma WordIsSpaceFree(w: string)
    requires IsWord(w)
    ensures SpaceFree(w)
  {
    forall k | 0 <= k < |w| ensures !IsSpace(w[k]) {
      assert !IsBlank(w[k]);
    }
  }

  /** Words separated by whitespace runs form a clean line. */
  lemma {:induction false} JoinWithIsClean(ws: seq<string>, gaps: seq<string>)
    requires |ws| > 0 && |gaps| == |ws| - 1
    requires (forall k :: 0 <= k < |ws| ==> IsWord(ws[k])) && AllGaps(gaps)
    ensures IsCleanLine(JoinWith(ws, gaps))
    ensures JoinWith(ws, gaps)[0] == ws[0][0]
  {
    if |ws| > 1 {
      assert forall k :: 0 <= k < |ws| - 1 ==> ws[1..][k] == ws[k + 1];
      assert forall k :: 0 <= k < |gaps| - 1 ==> gaps[1..][k] == gaps[k + 1];
      JoinWithIsClean(ws[1..], gaps[1..]);
      var w := ws[0];
      var g := gaps[0];
      assert IsGap(g);
      var rest := JoinWith(ws[1..], gaps[1..]);
      var s := JoinWith(ws, gaps);
      assert s == w + g + rest;
      assert s[|s| - 1] == rest[|rest| - 1];
      forall i | 0 <= i < |s|
        ensures !CommentAt(s, i)
      {
        if i < |w| - 1 {
          assert !CommentAt(w, i);
        } else if i == |w| - 1 {
          assert s[i + 1] == g[0];
        } else if i < |w| + |g| {
          assert s[i] == g[i - |w|];
        } else {
          assert s[i] == rest[i - |w| - |g|];
          assert i + 1 < |s| ==> s[i + 1] == rest[i - |w| - |g| + 1];
          assert !CommentAt(rest, i - |w| - |g|);
        }
      }
    }
  }

  /** A command's words separated by any whitespace runs form a clean line
      whose tokens are those words. */
  lemma JoinedCommandIsClean(c: Command, gaps: seq<string>)
    requires WellFormed(c) && |gaps| == |CommandWords(c)| - 1 && AllGaps(gaps)
    ensures IsCleanLine(JoinWith(CommandWords(c), gaps))
    ensures Tokens(JoinWith(CommandWords(c), gaps)) == CommandWords(c)
  {
    WordsOfCommand(c);
    var ws := CommandWords(c);
    JoinWithIsClean(ws, gaps);
    forall k | 0 <= k < |ws| ensures ws[k] != [] && SpaceFree(ws[k]) {
      WordIsSpaceFree(ws[k]);
    }
    TokensOfJoinWith(ws, gaps);
  }

  lemma CommandTextIsClean(c: Command)
    requires WellFormed(c)
    ensures IsCleanLine(CommandText(c))
    ensures Tokens(CommandText(c)) == CommandWords(c)
  {
    JoinedCommandIsClean(c, SingleSpaces(|CommandWords(c)| - 1));
  }

  /** A line whose tokens are a well-formed command's words classifies as
      that command; an arithmetic line must be the operator alone. */
  lemma ClassifyOfWords(line: CleanLine, c: Command)
    requires WellFormed(c) && LineTokens(line) == CommandWords(c)
    requires c.Arithmetic? ==> line == c.op
    ensures Classify(line) == Ok(c)
  {
    if c.Push? || c.Pop? || c.Function? || c.Call? {
      ClassifyNumbered(line, c);
    } else if c.Label? || c.Goto? || c.IfGoto? {
      ClassifyNamed(line, c);
    } else {
      ClassifyBare(line, c);
    }
  }

  lemma ClassifyBare(line: CleanLine, c: Command)
    requires c.Arithmetic? || c.Return?
    requires WellFormed(c) && LineTokens(line) == CommandWords(c)
    requires c.Arithmetic? ==> line == c.op
    ensures Classify(line) == Ok(c)
  {
    assert Keyword(line) == CommandWords(c)[0];
    if c.Arithmetic? {
      assert CommandTypeOf(line) == CArithmetic;
    } else {
      assert CommandTypeOf(line) == CReturn;
    }
  }

  lemma ClassifyNamed(line: CleanLine, c: Command)
    requires c.Label? || c.Goto? || c.IfGoto?
    requires WellFormed(c) && LineTokens(line) == CommandWords(c)
    ensures Classify(line) == Ok(c)
  {
    assert Keyword(line) == CommandWords(c)[0];
    assert CommandTypeOf(line) == KindOf(c);
    assert Arg1(line) == Ok(CommandWords(c)[1]);
  }

  lemma ClassifyNumbered(line: CleanLine, c: Command)
    requires c.Push? || c.Pop? || c.Function? || c.Call?
    requires WellFormed(c) && LineTokens(line) == CommandWords(c)
    ensures Classify(line) == Ok(c)
  {
    var n := match c
      case Push(_, i) => i
      case Pop(_, i) => i
      case Function(_, k) => k
      case Call(_, k) => k;
    assert CommandWords(c)[2] == NatToString(n);
    assert Keyword(line) == CommandWords(c)[0];
    assert CommandTypeOf(line) == KindOf(c);
    ParseIntOfNatToString(n);
    assert Arg1(line) == Ok(CommandWords(c)[1]);
    assert Arg2(line) == Ok(n);
  }

  /** Classification undoes rendering: the canonical line of every
      well-formed command classifies back to that command. */
  lemma ClassifyCommandText(c: Command)
    requires WellFormed(c)
    ensures IsCleanLine(CommandText(c))
    ensures Classify(CommandText(c)) == Ok(c)
  {
    ClassifyJoined(c, SingleSpaces(|CommandWords(c)| - 1));
  }

  /** However a command's words are spaced (tabs, runs of blanks), the line
      classifies back to that command. */
  lemma ClassifyJoined(c: Command, gaps: seq<string>)
    requires WellFormed(c) && |gaps| == |CommandWords(c)| - 1 && AllGaps(gaps)
    ensures IsCleanLine(JoinWith(CommandWords(c), gaps))
    ensures Classify(JoinWith(CommandWords(c), gaps)) == Ok(c)
  {
    JoinedCommandIsClean(c, gaps);
    var line: CleanLine := JoinWith(CommandWords(c), gaps);
    if c.Arithmetic? {
      assert line == c.op;
    }
    ClassifyOfWords(line, c);
  }
}
