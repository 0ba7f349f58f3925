/** The driver loop: every classified command goes to the `write*`
    operation of its kind, the lines of a file are translated in order,
    the files of a program one after another with the state carried across
    them, and a folder gets the bootstrap first. A failure ends the run, as
    the uncaught exception ends the original program. */
module Translator {
  import opened Results
  import opened CommandKinds
  import opened Hack
  import opened VmParser
  import opened CodeWriter

  // ---------------------------------------------------------------------
  // Label accounting
  // ---------------------------------------------------------------------

  /** l is a label `unique` hands out for counter value n. */
  predicate IsAuxLabel(l: string, n: nat) {
    l == UniqueLabel("TRUE", n) || l == UniqueLabel("END", n) || l == UniqueLabel("RET", n)
  }

  /** The labels drawn, in order, for the counter values n, n+1, ... */
  predicate DrawnFrom(drawn: seq<string>, n: nat) {
    forall k :: 0 <= k < |drawn| ==> IsAuxLabel(drawn[k], n + k)
  }

  /** An emission that started at counter value n drew its labels one per
      counter value and left the counter just past them. */
  predicate CountsFrom(e: Emitted, n: nat) {
    e.state.labelCounter == n + |e.drawn| && DrawnFrom(e.drawn, n)
  }

  /** Labels drawn at different counter values differ. */
  lemma AuxLabelsDistinct(l1: string, i: nat, l2: string, j: nat)
    requires IsAuxLabel(l1, i) && IsAuxLabel(l2, j) && i != j
    ensures l1 != l2
  {
    var p1 := if l1 == UniqueLabel("TRUE", i) then "TRUE" else if l1 == UniqueLabel("END", i) then "END" else "RET";
    var p2 := if l2 == UniqueLabel("TRUE", j) then "TRUE" else if l2 == UniqueLabel("END", j) then "END" else "RET";
    UniqueLabelsDistinct(p1, i, p2, j);
  }

  /** No label is drawn twice. */
  lemma DrawnDistinct(drawn: seq<string>, n: nat)
    requires DrawnFrom(drawn, n)
    ensures forall i, j :: 0 <= i < j < |drawn| ==> drawn[i] != drawn[j]
  {
    forall i, j | 0 <= i < j < |drawn|
      ensures drawn[i] != drawn[j]
    {
      AuxLabelsDistinct(drawn[i], n + i, drawn[j], n + j);
    }
  }

  /** Running two emissions one after the other. */
  function Then(e1: Emitted, e2: Emitted): Emitted {
    Emitted(e1.code + e2.code, e2.state, e1.drawn + e2.drawn)
  }

  lemma {:induction false} ThenCounts(e1: Emitted, e2: Emitted, n: nat)
    requires CountsFrom(e1, n) && CountsFrom(e2, e1.state.labelCounter)
    ensures CountsFrom(Then(e1, e2), n)
  {
    var d := e1.drawn + e2.drawn;
    forall k | 0 <= k < |d|
      ensures IsAuxLabel(d[k], n + k)
    {
      if k < |e1.drawn| {
        assert d[k] == e1.drawn[k];
      } else {
        assert d[k] == e2.drawn[k - |e1.drawn|];
        assert e1.state.labelCounter + (k - |e1.drawn|) == n + k;
      }
    }
  }

  /** Every label the emission drew is declared somewhere in its code. */
  predicate Declares(e: Emitted) {
    forall k :: 0 <= k < |e.drawn| ==> Mark(e.drawn[k]) in e.code
  }

  lemma ThenDeclares(e1: Emitted, e2: Emitted)
    requires Declares(e1) && Declares(e2)
    ensures Declares(Then(e1, e2))
  {
    var e := Then(e1, e2);
    forall k | 0 <= k < |e.drawn|
      ensures Mark(e.drawn[k]) in e.code
    {
      if k < |e1.drawn| {
        assert e.drawn[k] == e1.drawn[k];
      } else {
        assert e.drawn[k] == e2.drawn[k - |e1.drawn|];
      }
    }
  }

  /** Running emissions one after another does not depend on how they are
      grouped. */
  lemma ThenAssociative(e1: Emitted, e2: Emitted, e3: Emitted)
    ensures Then(Then(e1, e2), e3) == Then(e1, Then(e2, e3))
  {
    assert (e1.code + e2.code) + e3.code == e1.code + (e2.code + e3.code);
    assert (e1.drawn + e2.drawn) + e3.drawn == e1.drawn + (e2.drawn + e3.drawn);
  }

  // ---------------------------------------------------------------------
  // One command
  // ---------------------------------------------------------------------

  /** The commands the generator rejects: an unknown operator, and an access
      `ValidAccess` refuses. */
  predicate Rejected(c: Command) {
    match c
    case Arithmetic(op) => op !in ArithmeticOps
    case Push(s, i) => !ValidAccess(true, s, i)
    case Pop(s, i) => !ValidAccess(false, s, i)
    case _ => false
  }

  /** An arithmetic command draws its labels one per counter value: two for
      a compare, none otherwise. */
  lemma ArithmeticCounts(st: WriterState, op: string)
    requires WriteArithmetic(st, op).Ok?
    ensures CountsFrom(WriteArithmetic(st, op).value, st.labelCounter)
  {
    var e := WriteArithmetic(st, op).value;
    var n := st.labelCounter;
    if op in {"eq", "gt", "lt"} {
      assert IsAuxLabel(e.drawn[0], n + 0);
      assert IsAuxLabel(e.drawn[1], n + 1);
    }
  }

  /** The dispatch on the command kind. */
  function TranslateCommand(st: WriterState, c: Command): (r: Result<Emitted>)
    ensures r.Err? <==> Rejected(c)
    ensures r.Ok? ==> CountsFrom(r.value, st.labelCounter)
    ensures r.Ok? ==> r.value.state.fileName == st.fileName
    ensures r.Ok? ==> r.value.state.currentFunction == if c.Function? then c.name else st.currentFunction
    ensures r.Ok? ==> Declares(r.value)
    ensures r.Ok? && (c.Push? || c.Pop?) && c.segment == "static" ==>
              At(Sym(StaticSymbol(st.fileName, c.index))) in r.value.code
  {
    match c
    case Arithmetic(op) =>
      var r := WriteArithmetic(st, op);
      if r.Ok? then ArithmeticCounts(st, op); r else r
    case Push(s, i) => WritePushPop(st, CPush, s, i)
    case Pop(s, i) => WritePushPop(st, CPop, s, i)
    case Label(l) => Ok(WriteLabel(st, l))
    case Goto(l) => Ok(WriteGoto(st, l))
    case IfGoto(l) => Ok(WriteIf(st, l))
    case Function(f, n) => Ok(WriteFunction(st, f, n))
    case Call(f, n) => Ok(WriteCall(st, f, n))
    case Return => Ok(WriteReturn(st))
  }

  /** Each kind goes to its own `write*` operation, with the parser's
      arguments. */
  lemma Dispatch(st: WriterState, c: Command)
    ensures var r := TranslateCommand(st, c);
            match c
            case Arithmetic(op) => r == WriteArithmetic(st, op)
            case Push(seg, i) => r == WritePushPop(st, CPush, seg, i)
            case Pop(seg, i) => r == WritePushPop(st, CPop, seg, i)
            case Label(l) => r == Ok(WriteLabel(st, l))
            case Goto(l) => r == Ok(WriteGoto(st, l))
            case IfGoto(l) => r == Ok(WriteIf(st, l))
            case Function(f, n) => r == Ok(WriteFunction(st, f, n))
            case Call(f, n) => r == Ok(WriteCall(st, f, n))
            case Return => r == Ok(WriteReturn(st))
  {
  }

  /** The index of a static access, for the lines that push or pop the
      `static` segment. */
  function StaticIndex(line: CleanLine): Option<nat> {
    var r := Classify(line);
    if r.Ok? && (r.value.Push? || r.value.Pop?) && r.value.segment == "static" then Some(r.value.index) else None
  }

  /** The static index of each line, in order. */
  function StaticIndices(lines: seq<CleanLine>): (idx: seq<Option<nat>>)
    ensures |idx| == |lines|
  {
    if lines == [] then [] else [StaticIndex(lines[0])] + StaticIndices(lines[1..])
  }

  /** Every index in `idx` has its static symbol, built from `base`,
      somewhere in `code`. */
  predicate SymbolsNamed(idx: seq<Option<nat>>, code: seq<Instr>, base: string) {
    forall k :: 0 <= k < |idx| && idx[k].Some? ==> At(Sym(StaticSymbol(base, idx[k].value))) in code
  }

  /** Every static access among `lines` names, somewhere in `code`, the
      symbol built from `base`. */
  predicate StaticsNamed(lines: seq<CleanLine>, code: seq<Instr>, base: string) {
    SymbolsNamed(StaticIndices(lines), code, base)
  }

  lemma SymbolsNamedCons(idx: seq<Option<nat>>, c1: seq<Instr>, c2: seq<Instr>, base: string)
    requires idx != []
    requires idx[0].Some? ==> At(Sym(StaticSymbol(base, idx[0].value))) in c1
    requires SymbolsNamed(idx[1..], c2, base)
    ensures SymbolsNamed(idx, c1 + c2, base)
  {
    forall k | 0 < k < |idx| && idx[k].Some?
      ensures At(Sym(StaticSymbol(base, idx[k].value))) in c1 + c2
    {
      assert idx[k] == idx[1..][k - 1];
    }
  }

  /** A line fails when the parser's queries fail or the generator rejects
      the command; neither depends on the state. */
  predicate LineFails(line: CleanLine) {
    Classify(line).Err? || Rejected(Classify(line).value)
  }

  function TranslateLine(st: WriterState, line: CleanLine): (r: Result<Emitted>)
    ensures r.Err? <==> LineFails(line)
    ensures r.Ok? ==> CountsFrom(r.value, st.labelCounter) && r.value.state.fileName == st.fileName
    ensures r.Ok? ==> Declares(r.value)
    ensures r.Ok? && StaticIndex(line).Some? ==>
              At(Sym(StaticSymbol(st.fileName, StaticIndex(line).value))) in r.value.code
  {
    var c :- Classify(line);
    TranslateCommand(st, c)
  }

  /** A classified line is translated by dispatching its command. */
  lemma LineDispatch(st: WriterState, line: CleanLine)
    requires Classify(line).Ok?
    ensures TranslateLine(st, line) == TranslateCommand(st, Classify(line).value)
  {
  }

  // ---------------------------------------------------------------------
  // Files and programs
  // ---------------------------------------------------------------------

  /** Every line is accepted. */
  predicate LinesAccepted(lines: seq<CleanLine>) {
    forall k :: 0 <= k < |lines| ==> !LineFails(lines[k])
  }

  lemma LinesAcceptedCons(lines: seq<CleanLine>)
    requires lines != []
    ensures LinesAccepted(lines) <==> !LineFails(lines[0]) && LinesAccepted(lines[1..])
  {
    if !LineFails(lines[0]) && LinesAccepted(lines[1..]) {
      forall k | 0 <= k < |lines|
        ensures !LineFails(lines[k])
      {
        if k > 0 {
          assert lines[k] == lines[1..][k - 1];
        }
      }
    }
  }

  /** The lines of one file, in order. */
  function TranslateLines(st: WriterState, lines: seq<CleanLine>): (r: Result<Emitted>)
    ensures r.Ok? <==> LinesAccepted(lines)
    ensures r.Ok? ==> CountsFrom(r.value, st.labelCounter) && r.value.state.fileName == st.fileName
    ensures r.Ok? ==> Declares(r.value)
    ensures r.Ok? ==> StaticsNamed(lines, r.value.code, st.fileName)
    decreases |lines|
  {
    if lines == [] then
      Ok(Emitted([], st, []))
    else
      LinesAcceptedCons(lines);
      var e :- TranslateLine(st, lines[0]);
      var rest :- TranslateLines(e.state, lines[1..]);
      ThenCounts(e, rest, st.labelCounter);
      ThenDeclares(e, rest);
      var idx := StaticIndices(lines);
      assert idx[0] == StaticIndex(lines[0]) && idx[1..] == StaticIndices(lines[1..]);
      SymbolsNamedCons(idx, e.code, rest.code, st.fileName);
      Ok(Then(e, rest))
  }

  /** Translating `a + b` is translating `a`, then `b` from the state `a`
      left; the first failure is the result. */
  function Sequenced(r1: Result<Emitted>, r2: Result<Emitted>): Result<Emitted> {
    match r1
    case Err(e) => Err(e)
    case Ok(e1) =>
      match r2
      case Err(e) => Err(e)
      case Ok(e2) => Ok(Then(e1, e2))
  }

  lemma {:induction false} TranslateLinesAppend(st: WriterState, a: seq<CleanLine>, b: seq<CleanLine>)
    ensures var r1 := TranslateLines(st, a);
            TranslateLines(st, a + b) ==
              if r1.Err? then Err(r1.error) else Sequenced(r1, TranslateLines(r1.value.state, b))
    decreases |a|
  {
    if a == [] {
      assert a + b == b;
      var r2 := TranslateLines(st, b);
      if r2.Ok? {
        assert [] + r2.value.code == r2.value.code && [] + r2.value.drawn == r2.value.drawn;
      }
    } else {
      var ab := a + b;
      assert ab[0] == a[0] && ab[1..] == a[1..] + b;
      var r0 := TranslateLine(st, a[0]);
      if r0.Ok? {
        TranslateLinesAppend(r0.value.state, a[1..], b);
        var ra := TranslateLines(r0.value.state, a[1..]);
        if ra.Ok? {
          var rb := TranslateLines(ra.value.state, b);
          if rb.Ok? {
            ThenAssociative(r0.value, ra.value, rb.value);
          }
        }
      }
    }
  }

  /** A single line is translated as `TranslateLine` does. */
  lemma TranslateLinesOne(st: WriterState, l: CleanLine)
    ensures TranslateLines(st, [l]) == TranslateLine(st, l)
  {
    assert [l][0] == l && [l][1..] == [];
    var r := TranslateLine(st, l);
    if r.Ok? {
      assert r.value.code + [] == r.value.code && r.value.drawn + [] == r.value.drawn;
    }
  }

  /** One source file: static symbols take its base name. */
  function TranslateFile(st: WriterState, base: string, raw: seq<string>): (r: Result<Emitted>)
    ensures r.Ok? <==> forall l :: l in Clean(raw) ==> !LineFails(l)
    ensures r.Ok? ==> CountsFrom(r.value, st.labelCounter) && r.value.state.fileName == base
    ensures r.Ok? ==> Declares(r.value)
  {
    TranslateLines(SetFileName(st, base), Clean(raw))
  }

  /** Every static access in a file names the symbol built from the file's
      base name. */
  lemma FileStatics(st: WriterState, base: string, raw: seq<string>)
    requires TranslateFile(st, base, raw).Ok?
    ensures StaticsNamed(Clean(raw), TranslateFile(st, base, raw).value.code, base)
  {
  }

  /** A source file: its base name and its raw lines. */
  datatype Source = Source(base: string, raw: seq<string>)

  /** Every line of every file is accepted. */
  predicate AllAccepted(files: seq<Source>) {
    forall k :: 0 <= k < |files| ==> forall l :: l in Clean(files[k].raw) ==> !LineFails(l)
  }

  /** The files in order, the state carried from each to the next. */
  function TranslateFiles(st: WriterState, files: seq<Source>): (r: Result<Emitted>)
    ensures r.Ok? <==> AllAccepted(files)
    ensures r.Ok? ==> CountsFrom(r.value, st.labelCounter)
    decreases |files|
  {
    if files == [] then
      Ok(Emitted([], st, []))
    else
      var e :- TranslateFile(st, files[0].base, files[0].raw);
      var rest :- TranslateFiles(e.state, files[1..]);
      ThenCounts(e, rest, st.labelCounter);
      Ok(Then(e, rest))
  }

  /** Every label drawn while translating the files is declared in their
      code. */
  lemma {:induction false} FilesDeclare(st: WriterState, files: seq<Source>)
    requires TranslateFiles(st, files).Ok?
    ensures Declares(TranslateFiles(st, files).value)
    decreases |files|
  {
    if files != [] {
      var e := TranslateFile(st, files[0].base, files[0].raw).value;
      FilesDeclare(e.state, files[1..]);
      ThenDeclares(e, TranslateFiles(e.state, files[1..]).value);
    }
  }

  lemma {:induction false} TranslateFilesAppend(st: WriterState, a: seq<Source>, b: seq<Source>)
    ensures var r1 := TranslateFiles(st, a);
            TranslateFiles(st, a + b) ==
              if r1.Err? then Err(r1.error) else Sequenced(r1, TranslateFiles(r1.value.state, b))
    decreases |a|
  {
    if a == [] {
      assert a + b == b;
      var r2 := TranslateFiles(st, b);
      if r2.Ok? {
        assert [] + r2.value.code == r2.value.code && [] + r2.value.drawn == r2.value.drawn;
      }
    } else {
      var ab := a + b;
      assert ab[0] == a[0] && ab[1..] == a[1..] + b;
      var r0 := TranslateFile(st, a[0].base, a[0].raw);
      if r0.Ok? {
        TranslateFilesAppend(r0.value.state, a[1..], b);
        var ra := TranslateFiles(r0.value.state, a[1..]);
        if ra.Ok? {
          var rb := TranslateFiles(ra.value.state, b);
          if rb.Ok? {
            ThenAssociative(r0.value, ra.value, rb.value);
          }
        }
      }
    }
  }

  /** A single file is translated as `TranslateFile` does. */
  lemma TranslateFilesOne(st: WriterState, f: Source)
    ensures TranslateFiles(st, [f]) == TranslateFile(st, f.base, f.raw)
  {
    assert [f][0] == f && [f][1..] == [];
    var r := TranslateFile(st, f.base, f.raw);
    if r.Ok? {
      assert r.value.code + [] == r.value.code && r.value.drawn + [] == r.value.drawn;
    }
  }

  /** The whole translation, from the initial state; a folder is prefixed
      with the bootstrap. */
  function TranslateProgram(files: seq<Source>, isDir: bool): (r: Result<Emitted>)
    ensures r.Ok? <==> AllAccepted(files)
    ensures r.Ok? ==> CountsFrom(r.value, 0)
    ensures r.Ok? && isDir ==> |r.value.code| >= 54 && r.value.code[..54] == WriteInit(InitialState).code
    ensures r.Ok? && isDir ==> r.value.code[54..] == TranslateFiles(WriteInit(InitialState).state, files).value.code
    ensures !isDir ==> r == TranslateFiles(InitialState, files)
  {
    if isDir then
      var init := WriteInit(InitialState);
      var rest :- TranslateFiles(init.state, files);
      ThenCounts(init, rest, 0);
      assert (init.code + rest.code)[54..] == rest.code;
      Ok(Then(init, rest))
    else
      TranslateFiles(InitialState, files)
  }

  /** Across a whole program no invented label is drawn twice, and every one
      is declared in the output. */
  lemma ProgramLabelsUnique(files: seq<Source>, isDir: bool)
    requires TranslateProgram(files, isDir).Ok?
    ensures var d := TranslateProgram(files, isDir).value.drawn;
            forall i, j :: 0 <= i < j < |d| ==> d[i] != d[j]
    ensures var e := TranslateProgram(files, isDir).value;
            forall k :: 0 <= k < |e.drawn| ==> Mark(e.drawn[k]) in e.code
  {
    DrawnDistinct(TranslateProgram(files, isDir).value.drawn, 0);
    if isDir {
      var init := WriteInit(InitialState);
      FilesDeclare(init.state, files);
      assert Mark(init.drawn[0]) == init.code[53];
      ThenDeclares(init, TranslateFiles(init.state, files).value);
    } else {
      FilesDeclare(InitialState, files);
    }
  }
}
