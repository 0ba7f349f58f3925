# VM-to-Hack translator, modelled in Dafny

This project models the core of a Nand2Tetris VM translator. That is the
program of chapters 7 and 8 of *The Elements of Computing Systems*, which
turns stack-machine VM commands into Hack assembly. The model has four
parts:

- The **parser** (`VmParser`, over the string helpers in `Text`).
  - Cleaning keeps the part of each raw line before `//`, trims it, and keeps it when it is non-empty.
  - A cursor runs over the retained lines (`hasMoreCommands` / `advance`).
  - `commandType` looks the first token up in the keyword table, and anything not in the table is arithmetic.
  - `arg1` and `arg2` cover every failure they can raise.
- The **code writer** (`CodeWriter`). Every `write*` operation is a pure function.
  - It takes the writer's state (static file name, current function, label counter) and the command's arguments.
  - It returns the Hack instructions it appends (`Hack.Instr`, rendered to text by `Hack.Render`), the new state, and the `TRUE_n` / `END_n` / `RET_n` labels it drew from the counter.
  - Each exception of the original becomes an `Err` carrying the exception kind and message (`Results`).
- A **Hack interpreter** (`HackMachine`), and what each emitted block does on it (`StackEffects`).
  - Push and pop move exactly the segment cell they name.
  - Arithmetic replaces the operands with the VM result.
  - `if-goto` jumps exactly when the popped value is non-zero.
  - `function` pushes zeroed locals.
  - `call` saves the frame and repositions ARG and LCL.
  - `return` restores the caller and leaves the result where the first argument was.
  - A `call` followed by the callee's `return` gives the caller back its stack and bases.
- The **driver** (`Translator`). It mirrors the dispatch loop of the command-line entry point:
  - A folder gets the bootstrap first.
  - Files are translated in order, with the writer state carried across them.
  - A failure ends the run.
  - The output is each line's code, in order, with the bootstrap first for a folder.
  - Every static access names the symbol of the file it appears in.
  - Across a whole program, no invented label is drawn twice, and each one is declared in the output.

The interpreter has unbounded integers and runs one emitted block at a time.
A taken jump records its target, and execution resumes at the first later
label with that address. A jump whose label does not follow in the block
leaves the block with the target pending. The assembler's symbol table is a
parameter: a function from symbol to address, used beyond the predefined
registers.

## Model

| member | source | states |
|---|---|---|
| Text.Trim | src/main/Parser.java:62 | `String.trim`: the result is empty exactly when the input is all characters up to U+0020; otherwise it is the slice between the leading and trailing blanks, and starts and ends with a non-blank |
| Text.BeforeComment | src/main/Parser.java:62 | `split("//", 2)[0]`: the longest prefix holding no `//`, followed in the input by `//` or the end |
| Text.Tokens | src/main/Parser.java:88 | `split("\\s+")` on a line that does not start with whitespace: every token is non-empty and whitespace-free, and the first token is the line's first word; the full split is pinned by the two lemmas below |
| Text.TokensOfJoinWith | src/main/Parser.java:88 | splitting gives back the words, whatever non-empty runs of `\s` characters (spaces, tabs, ...) separate them |
| Text.TokensRejoin | src/main/Parser.java:88 | a line that neither starts nor ends with whitespace is exactly its tokens with a non-empty whitespace run between each two |
| Text.ParseInt | src/main/Parser.java:123 | `Integer.parseInt` on unsigned decimals: it succeeds exactly on a non-empty digit string whose value is at most 2^31-1, and then returns that decimal value (leading zeros allowed); otherwise it fails with a number-format error naming the string |
| Text.ParseIntOfNatToString | src/main/Parser.java:123 | parsing undoes the decimal rendering of every `int` value |
| Text.NatToStringInjective | src/main/CodeWriter.java:432-434 | distinct counter values render to distinct digit strings |
| VmParser.CleanOne | src/main/Parser.java:61-65 | a raw line is dropped exactly when everything before its comment is blank; a kept line is the text before the first `//` with the blanks at both ends removed, and is clean (non-empty, no blank at either end, no `//`) |
| VmParser.Clean | src/main/Parser.java:58-68 | the retained lines number at most the raw lines |
| VmParser.CleanAppend | src/main/Parser.java:61-66 | cleaning works line by line: it distributes over concatenation, so the retained lines keep their source order |
| VmParser.CleanOneOfClean | src/main/Parser.java:62-63 | an already clean line passes through cleaning unchanged |
| VmParser.CleanIdempotent | src/main/Parser.java:61-66 | cleaning the cleaned lines changes nothing |
| VmParser.CleanMembership | src/main/Parser.java:61-66 | a line is retained exactly when some raw line cleans to it |
| VmParser.NewParser | src/main/Parser.java:48-49 | a new parser holds the cleaned lines, with the cursor before the first one |
| VmParser.Advance | src/main/Parser.java:80-82 | advancing succeeds exactly when `hasMoreCommands` holds, moves the cursor by one and keeps the lines; past the end it is an index-out-of-bounds failure |
| VmParser.ReadAll | src/main/Main.java:69-70 | the loop `while hasMoreCommands: advance` visits every retained line once, in order |
| VmParser.LineTokens | src/main/Parser.java:88 | a clean line has at least one token |
| VmParser.CommandTypeOf | src/main/Parser.java:87-90 | the kind is the keyword table's entry for the first token, and arithmetic when the table has none |
| VmParser.CommandMapHasKeyword | src/main/Parser.java:35-46 | the keyword table maps the keyword of every non-arithmetic kind to that kind |
| VmParser.CommandMapKeys | src/main/Parser.java:35-46 | every key of the keyword table is the keyword of its own entry, and no entry is arithmetic |
| VmParser.CommandTypeByKeyword | src/main/Parser.java:35-46 | a line has a non-arithmetic kind exactly when its first token is that kind's keyword |
| VmParser.ArithmeticFallback | src/main/Parser.java:89 | a line is arithmetic exactly when its first token is none of the eight keywords |
| VmParser.Arg1 | src/main/Parser.java:98-107 | the whole line for arithmetic; an illegal-state failure for `return`; otherwise the second token, or an index-out-of-bounds failure when there is none |
| VmParser.Arg2 | src/main/Parser.java:117-124 | an illegal-state failure naming the kind, except for push, pop, function and call; for those, the third token parsed, an index-out-of-bounds failure without one, and a number-format failure naming a token that does not parse |
| VmParser.Classify | src/main/Main.java:71-80 | the driver's queries in its order: the classified command has the line's kind; an operator is the whole line, and every name and number is the `arg1` / `arg2` answer for the line (later tokens are ignored); classification fails exactly when an `arg1` or `arg2` query that kind makes fails |
| VmParser.CommandTextIsClean | src/main/Parser.java:61-65 | the canonical line of a well-formed command survives cleaning and splits into that command's words |
| VmParser.JoinedCommandIsClean | src/main/Parser.java:61-65 | a command's words separated by any non-empty whitespace runs survive cleaning and split back into those words |
| VmParser.ClassifyOfWords | src/main/Parser.java:87-124 | any clean line whose tokens are a well-formed command's words, however they are spaced, classifies as that command (an arithmetic line being its operator alone) |
| VmParser.ClassifyCommandText | src/main/Parser.java:87-124 | classification undoes rendering: the canonical line of every well-formed command classifies back to that command |
| VmParser.ClassifyJoined | src/main/Parser.java:87-124 | however the words of a well-formed command are spaced (tabs, runs of blanks), the line classifies back to that command |
| CodeWriter.SetFileName | src/main/CodeWriter.java:42-44 | switching files changes the static base name and keeps the function scope and the label counter |
| CodeWriter.Unique | src/main/CodeWriter.java:432-434 | `unique` returns the label for the current counter and advances the counter by exactly one, with nothing else changed |
| CodeWriter.UniqueLabelsDistinct | src/main/CodeWriter.java:432-434 | two invented labels are equal exactly when they share both the prefix and the counter value |
| CodeWriter.Scoped | src/main/CodeWriter.java:426-430 | at top level the label is unchanged; inside a function it is the function name, `$`, then the label |
| CodeWriter.ScopedInjective | src/main/CodeWriter.java:426-430 | within one function, distinct labels stay distinct after scoping |
| CodeWriter.ScopedSeparatesFunctions | src/main/CodeWriter.java:426-430 | the same label in two different functions gives two different symbols |
| CodeWriter.CheckRange | src/main/CodeWriter.java:436-440 | success exactly when lo <= i <= hi; otherwise an illegal-argument failure with the source's message |
| CodeWriter.Compare | src/main/CodeWriter.java:110-130 | draws `TRUE_n`, then `END_{n+1}`, advancing the counter by two; the conditional jump targets the first label and both labels are declared in the block |
| CodeWriter.WriteArithmetic | src/main/CodeWriter.java:80-93 | fails with "Unknown arithmetic" exactly on a name outside the nine operators; compares draw two labels and the other operators leave the state alone; every drawn label is declared in the emitted code |
| CodeWriter.WritePushPop | src/main/CodeWriter.java:143-209 | succeeds exactly on a known segment with no pop into `constant`, a temp index of 0..7 and a pointer index of 0..1; every failure is an illegal argument; memory access never changes the state; a `static` access addresses the symbol `File.i` of the current file name |
| CodeWriter.WriteLabel | src/main/CodeWriter.java:220-222 | declares the scoped label and leaves the state alone |
| CodeWriter.WriteGoto | src/main/CodeWriter.java:229-232 | addresses the scoped label and leaves the state alone |
| CodeWriter.WriteIf | src/main/CodeWriter.java:239-245 | addresses the scoped label after popping, and leaves the state alone |
| CodeWriter.BranchesAgree | src/main/CodeWriter.java:220-245 | `label l`, `goto l` and `if-goto l` in one function all name the same symbol |
| CodeWriter.InitLocals | src/main/CodeWriter.java:261-265 | the local-initialisation loop emits seven instructions per local |
| CodeWriter.WriteFunction | src/main/CodeWriter.java:257-266 | sets only the current function, emits 1 + 7n lines, and opens with the function's label |
| CodeWriter.WriteCall | src/main/CodeWriter.java:282-318 | draws exactly one `RET_n`, advancing the counter by one; the 50-line block jumps to the callee and its last line is `(RET_n)` |
| CodeWriter.WriteReturn | src/main/CodeWriter.java:331-369 | a 50-line block ending in an unconditional jump; it draws no label and changes no state |
| CodeWriter.WriteInit | src/main/CodeWriter.java:60-66 | the bootstrap sets SP to 256 and then is exactly `call Sys.init 0` |
| StackEffects.PushDEffect | src/main/CodeWriter.java:385-391 | `pushD` stores D at SP and increments SP, and nothing else in memory changes |
| StackEffects.PushValueEffect | src/main/CodeWriter.java:393-397 | `pushSymbol` pushes the value held at the symbol's address |
| StackEffects.AddrFromBaseEffect | src/main/CodeWriter.java:399-415 | `addrFromBase` leaves base + index in R13 and changes no other cell |
| StackEffects.PopToR13TargetEffect | src/main/CodeWriter.java:417-424 | `popToR13Target` decrements SP and stores the old top at the address held in R13 |
| StackEffects.RestoreFromFrameEffect | src/main/CodeWriter.java:375-383 | `restoreFromFrame` copies the word `offset` below FRAME into the destination register |
| StackEffects.BinaryEffect | src/main/CodeWriter.java:95-102 | `binary` pops y into D and applies the operator with A addressing x |
| StackEffects.UnaryEffect | src/main/CodeWriter.java:104-108 | `unary` applies the operator with A addressing the top |
| StackEffects.CompareCodeEffect | src/main/CodeWriter.java:110-130 | compare pops once and overwrites x with -1 when the condition holds of x - y and with 0 otherwise; both paths end running |
| StackEffects.CombineIsVm | src/main/CodeWriter.java:82-85 | the Hack operator picked for add, sub, and and or computes the VM operation on (x, y) |
| StackEffects.HoldsIsVm | src/main/CodeWriter.java:88-90 | the jump condition on x - y decides eq, gt and lt |
| StackEffects.ArithmeticEffect | src/main/CodeWriter.java:72-93 | binary operators and compares pop two values and push the VM result; unary ones replace the top; no other cell but SP changes |
| StackEffects.DirectAddressIsSegmentAddress | src/main/CodeWriter.java:14 | temp i is RAM[5+i], pointer 0 and 1 are THIS and THAT, and static i is the symbol `File.i` |
| StackEffects.PushEffect | src/main/CodeWriter.java:144-175 | `push segment i` pushes the segment's value (the index itself for `constant`); only SP, the new top and R13 change |
| StackEffects.PopEffect | src/main/CodeWriter.java:176-207 | `pop segment i` moves the top into the segment's cell and decrements SP; only SP, that cell and R13 change |
| StackEffects.LabelEffect | src/main/CodeWriter.java:220-222 | a label does nothing to a running machine, and resumes a jump to the scoped label |
| StackEffects.GotoEffect | src/main/CodeWriter.java:229-232 | `goto` leaves memory untouched, with a jump to the scoped label pending |
| StackEffects.GotoReachesLabel | src/main/CodeWriter.java:220-232 | the code between a `goto l` and its `label l` is skipped, and execution resumes at the label with memory as it was |
| StackEffects.IfEffect | src/main/CodeWriter.java:239-245 | `if-goto` pops, and jumps to the scoped label exactly when the popped value is non-zero; otherwise it falls through |
| StackEffects.InitLocalsEffect | src/main/CodeWriter.java:260-265 | the loop pushes n zeros and touches no other cell |
| StackEffects.FunctionEffect | src/main/CodeWriter.java:257-266 | a function entered by a jump to its name (or by falling in) pushes n zero locals and leaves the rest of memory alone |
| StackEffects.SaveFrameEffect | src/main/CodeWriter.java:285-294 | call pushes the return address, LCL, ARG, THIS and THAT, in that order |
| StackEffects.SaveFrameMachine | src/main/CodeWriter.java:285-294 | the frame-saving code yields exactly the machine with the five words written at SP .. SP+4 and SP advanced past them |
| StackEffects.RepositionArgEffect | src/main/CodeWriter.java:296-304 | ARG becomes SP - 5 - nArgs |
| StackEffects.RepositionLclEffect | src/main/CodeWriter.java:306-310 | LCL becomes SP |
| StackEffects.CallEffect | src/main/CodeWriter.java:282-318 | `call f n` saves the frame above the arguments, sets SP and LCL to 5 past the old SP and ARG to the first argument, and leaves with a jump to `f` pending; besides those registers only the five frame cells change |
| StackEffects.SaveReturnAddressEffect | src/main/CodeWriter.java:332-343 | FRAME = LCL goes into R13 and RET = *(FRAME-5) into R14 |
| StackEffects.PlaceResultEffect | src/main/CodeWriter.java:345-357 | the popped top is stored at *ARG and SP becomes ARG + 1 |
| StackEffects.RestoreCallerEffect | src/main/CodeWriter.java:359-363 | THAT, THIS, ARG and LCL are restored from FRAME-1 .. FRAME-4 |
| StackEffects.ReturnMachineEffect | src/main/CodeWriter.java:331-369 | the full return block yields the spelled-out returned machine, including a zero-argument call where the result overwrites the saved return address after RET is saved |
| StackEffects.ReturnedRegisters | src/main/CodeWriter.java:320-329 | after a return: a jump to the saved return address is pending, SP is ARG + 1, and the four bases hold the four saved words |
| StackEffects.ReturnedMemory | src/main/CodeWriter.java:345-351 | after a return the result sits at the old ARG, and only the registers and R13/R14 changed elsewhere |
| StackEffects.ReturnEffect | src/main/CodeWriter.java:331-369 | `return`, with the frame between ARG and LCL, has exactly the effect of the returned machine |
| StackEffects.CallReturnRoundTrip | src/main/CodeWriter.java:268-369 | a return undoes a call: if the callee kept LCL, ARG and the five saved words, its return jumps to the call's `RET_n`, and that label resumes the caller with SP one past the first argument, the result there, and LCL, ARG, THIS and THAT as before the call |
| StackEffects.InitEffect | src/main/CodeWriter.java:60-66 | the bootstrap leaves with a jump to `Sys.init`, with ARG = 256, SP = LCL = 261 and the return address at RAM[256] |
| Translator.TranslateCommand | src/main/Main.java:71-80 | fails exactly on an unknown operator or a rejected access; labels are drawn one per counter value and declared in the code; only `function` changes the scope; a static access names the current file's symbol |
| Translator.Dispatch | src/main/Main.java:71-80 | each kind goes to its own `write*` operation with the classified arguments: arithmetic to `writeArithmetic`, push and pop to `writePushPop`, and so on |
| Translator.ArithmeticCounts | src/main/CodeWriter.java:80-130 | an accepted arithmetic command draws its labels at consecutive counter values starting from the current one, and leaves the counter just past the last |
| Translator.TranslateLine | src/main/Main.java:70-80 | one line fails exactly when a parser query or the generator fails on it; a static access on it names the symbol of the current file |
| Translator.LineDispatch | src/main/Main.java:70-80 | a classified line is translated by dispatching its command |
| Translator.TranslateLines | src/main/Main.java:69-81 | a file's lines succeed exactly when every line does; the labels are drawn in counter order and declared in the code; every static access among the lines names the symbol of the current file |
| Translator.TranslateLinesAppend | src/main/Main.java:69-81 | the lines are translated in order: the code for `a + b` is the code for `a` followed by the code for `b` from the state `a` left, and the first failing line decides the failure |
| Translator.TranslateLinesOne | src/main/Main.java:69-80 | one line alone is translated as that line |
| Translator.TranslateFile | src/main/Main.java:64-81 | a file succeeds exactly when every retained line is accepted; it leaves the static base name set to the file's base name |
| Translator.FileStatics | src/main/Main.java:65-66 | every `push static i` or `pop static i` line of a file addresses the symbol built from that file's base name and i |
| Translator.TranslateFiles | src/main/Main.java:64-82 | the files succeed exactly when every line of every file is accepted, with the counter carried across files |
| Translator.FilesDeclare | src/main/Main.java:64-82 | every label drawn while translating the files is declared in their code |
| Translator.TranslateFilesAppend | src/main/Main.java:64-82 | the files are translated in order: the code for `a + b` is the code for `a` followed by the code for `b` from the state `a` left |
| Translator.TranslateFilesOne | src/main/Main.java:64-81 | one file alone is translated as that file |
| Translator.TranslateProgram | src/main/Main.java:58-82 | from the initial state, a folder's output is the 54-line bootstrap followed by the code of its files, and a single file's output is that file's code; it succeeds exactly when every line is accepted |
| Translator.AuxLabelsDistinct | src/main/CodeWriter.java:432-434 | labels drawn at different counter values differ, whatever their prefixes |
| Translator.DrawnDistinct | src/main/CodeWriter.java:432-434 | a run of labels drawn at successive counter values has no repeats |
| Translator.ThenCounts | src/main/CodeWriter.java:24 | counter accounting composes: two emissions, each drawing from where the previous one stopped, together draw from the start |
| Translator.ThenDeclares | src/main/CodeWriter.java:24 | declared labels stay declared when two emissions run one after the other |
| Translator.ProgramLabelsUnique | src/main/CodeWriter.java:432-434 | across the whole translated program no invented label is drawn twice, and each one is declared in the output |

## Left out

- Output and input: `writeln`, `close` and the file handling of the parser's constructor. The model returns the instruction list instead of writing it, and takes a file's raw lines as a parameter.
- The command-line entry point: argument checks, directory listing, the sorting of `.vm` files, the output path and logging. The driver receives the ordered list of files and the folder flag.
- The partial output file: when the original throws, the lines written so far stay in the file. The model's `Err` discards them.
- 16-bit words: the interpreter computes with unbounded integers, and bitwise and/or/not on unbounded two's complement. Wrap-around of Hack arithmetic and of the `int` label counter is not modelled.
- `Integer.parseInt` signs and non-ASCII digits: only unsigned ASCII decimals are accepted. A negative index, which the original turns into an `@-1` instruction, therefore cannot be expressed (indices are `nat`).
- The `currentFunction == null` test in `scoped`: the field is never null.
- Execution beyond one block: the interpreter runs a single emitted block with forward jumps only. The body of a called function is not executed: the call–return round trip is stated for any callee that keeps LCL, ARG and the saved frame, and leaves its result on top.
- The stack-layout preconditions of the effect lemmas:
  - the stack and the frame lie above the registers (SP, ARG >= 16);
  - a popped cell is not SP or R13;
  - labels the block jumps between have different addresses in the symbol table.
- StackEffects.InitEffect: of the five words saved by the bootstrap's call, only the return address is stated. The other four are the machine's registers after SP = 256, as `CallEffect` states in general.
- StackEffects.PushEffect: states that R13 may change for every segment, although only local, argument, this and that use it.
- Translator.TranslateProgram: an empty folder. The entry point logs and stops before any translation, so the driver is only reached with at least one file; called with none in folder mode, the model returns the bootstrap alone.
- Translator.ProgramLabelsUnique: states that the invented labels are distinct and each is declared. It does not state that no other line of the output declares the same name. A `label TRUE_0` outside every function, or a function named `RET_0`, would declare it a second time, and the original does not reject such names.
- VmParser.Clean: its contract bounds the number of lines. The kept text of each line is stated by `CleanOne`, and which lines are kept and in what order by `CleanAppend` and `CleanMembership`.
- Text.Tokens: its contract pins only the first token. The whole split is stated by `TokensOfJoinWith` and `TokensRejoin`.
- VmParser.LineTokens: its contract states only that a clean line has a token. It is `Tokens` on the line, which the two lemmas above pin.
