# au3: compiler, virtual machine, tables and collector

au3 is a small scripting language in C. A scanner feeds a single-pass Pratt compiler that
writes bytes directly, backpatches forward 16-bit jumps and resolves locals to stack slots
by counting. A virtual machine runs the bytes and trusts all of them: it checks neither its
stack nor its operands. Globals, members and strings live in open-addressing tables with
tombstones, numbers index a second table, equal strings share one object, and a mark-sweep
collector frees what the machine cannot reach.

This project models those parts and proves what they promise together.

- **From text to effects.** `Lexer.Scanner` scans in place; `Compiler.Parser` compiles the
  tokens in one pass; `VirtualMachine.Vm` executes on an array of values; `Tables.Table`,
  `Hashes.Hash`, `Collector.Heap` and `Chunks` are the mutable structures. Each class is
  proved against functions on values, and the laws are proved about those functions.
- **The compiler is right.** One pass with backpatching gives exactly the code of the parsed
  program (`Compiler.Compile`); parsing inverts printing in both directions, for expressions
  (`PrattInverse.ParseIffPrinted`) and for scripts (`ScriptReading.ScriptIsRead`,
  `ScriptWriting.ScriptIsWritten`); running the code has the outcome of a direct evaluator
  that works on names and characters (`Interning.CompiledScriptMeansItsSource`).
- **The language on its own terms.** What the operators compute (`Arithmetic`), how expressions
  without parentheses are read (`Grouping`), what each token is written as (`Wording`), when two
  names are one (`Names`), what reading gives after writing (`StoreLaws`) and how large a script
  may be (`Limits`) are stated from lists of their own, not from the tables the code goes by, and
  the text of a whole script is followed from its characters to its meaning (`ScriptTexts.TextIsScript`).
- **The machine is safe on compiled code.** One static stack depth per instruction boundary,
  kept by every step; no underflow, bad operand or bad opcode in any run; the stack array is
  never overrun; every run ends; calls leave everything below them alone.
- **Strings.** The string table tells strings apart by length and hash only, so two different
  words can be one global. The meaning theorem holds for all scripts whose strings do not
  clash, a pair of words that clash is exhibited, and for programs with two globals the
  meaning is right if and only if their names do not clash.
- **Memory.** Marking is exactly reachability; a collection at any step, or at every step,
  changes no result of a run; over every history the bytes counted are those of the objects,
  collections run exactly where the count passes the threshold, and equal strings are one object. The sweep as written keeps the wrong objects, and is
  right only on an empty list. With the intended sweep the machine runs
  on that heap, knowing nothing but its values and objects: it finds keys and compares strings
  by object, collects inside the instructions that allocate, and forgets strings and interns
  them anew. A compiled script laid out there reports what its source comes to on characters,
  prints the same lines, and leaves globals and maps that stand for the source's (`Loading.RunScript`).

Numbers are the 64-bit patterns of C doubles. The arithmetic on them, the native functions,
`strtod` and the choice of the string object that stands for some characters are fields of a
`Values.Host`, so every theorem holds for all of them.

## Where the code departs from its intention

The model follows the code; these lemmas record the departures.

- `tab_findstr` compares length and hash, not characters (src/table.c:140):
  `Interning.WordsThatClash`, `Interning.MeaningIffNoClash`.
- `sweep` frees marked objects and keeps unmarked ones (src/gc.c:157), against `removeWhite`
  (src/gc.c:182): `Collector.WrittenSweepIsRightIffEmpty`, `Histories.RootFreed`.
- The element counter of a map literal is one byte (src/parser.c:511): `CodeTyping.MapLiteralDepth`.
- OP_MAP stores the last element under 0 (src/vm.c:569-571): `Calls.LiteralIndexed`.
- `>` and `>=` are the negations of `<=` and `<` (src/parser.c:429-430), so a NaN is greater than
  everything and everything is greater than it: `Comparisons.GreaterIsConverse`, `Comparisons.QuietNanIsGreater`.
- A number's value is what `strtod` makes of the source from the token on (src/parser.c:497), so `1e5` is
  read as a number and then scanned again as a name: `Numbers.TokenIffEnds`, `Exponents.ExponentIsRead`.
- The test for `#cs` looks at the last token instead of the comment (src/lexer.c:144-166): `Lexer.BlockOpensIff`,
  `Lexer.BlockSwallowsTheRest`.
- The 32nd argument of a call is refused with a message that allows 32 (src/parser.c:393-395): `Limits.Arguments`.
- A bare expression is refused as useless by counting subexpressions (src/parser.c:767-780), so
  `a.b` is refused and `a + b` is not: `Syntax.UselessIsMemberChain` says exactly which ones are.

## Model

| member | source | states |
|---|---|---|
| Values.FillHashAt | src/vm.c:565-576 | after OP_MAP on n values the element n-1-k is found under the number key k |
| Values.FillHashKeeps | src/vm.c:565-576 | a key that is none of the literal's indices keeps the value it had before the fill loop |
| Arithmetic.OnAmounts | src/vm.c:325-515 | on numbers and booleans in any mixture an operator is the processor's on the two amounts, the left one first, a boolean counting as one or zero; `==` and `!=` included |
| Arithmetic.OnIntegers | src/vm.c:325-515 | on two integers every operator gives the integer result, as a number or a truth value |
| Arithmetic.BooleansAreNumbers | src/vm.c:325-515 | a boolean gives what its number gives on either side of any operator |
| Arithmetic.OnOthers | src/vm.c:118-131 | on every other pair `+` joins two strings, `==` and `!=` tell whether the two are the same, and the rest is an error |
| Arithmetic.OnNot | src/vm.c:308-312 | `Not` and `!` give true for null, false and the number zero, and for nothing else |
| Arithmetic.OnMinus | src/vm.c:313-324 | a minus changes the sign of a number, makes minus one or zero of a boolean, and is an error on anything else |
| Arithmetic.ArmTaken | src/vm.c:559-564 | null, false and zero take the arm of `Else`, all other values that of `Then` |
| Arithmetic.OperandTaken | src/parser.c:403-411 | `And` stops at those three values and `Or` at all others, with the left value; otherwise the right operand is the value |
| Arithmetic.CalculationPrints | src/vm.c:427-433 | `Print i op j`, compiled and run, prints what the operator says of the two integers |
| Arithmetic.CountingIsExact | src/vm.c:392-515 | what these results ask of the arithmetic can be had, together with the comparisons of IEEE 754 |
| StoreLaws.MemberStored | src/vm.c:578-608 | a member stored is the member read, by name or as an element, and all other members, elements and maps are what they were |
| StoreLaws.ElementStored | src/hash.c:74-100 | an element stored under a number is the element read, unless the number is the pattern 0xFFFFFFFFFFFFFFFF: then the store changes nothing; no literal has that pattern |
| StoreLaws.NeverStored | src/vm.c:578-640 | in a map without elements every member and every element is null |
| StoreLaws.NoMembers | src/vm.c:578-677 | only maps have members and elements, and only numbers and strings are keys: otherwise the one error or the other |
| StoreLaws.GlobalStored | src/vm.c:517-542 | a global declared or assigned is the global read, the others are what they were, and one that is not there is an error |
| Bytecode.DecodeEncode | src/vm.c:195-203 | reading back the bytes of any instruction at any position gives that instruction with its one-byte or big-endian two-byte operand |
| Machine.StepDecreases | src/vm.c:239-677 | every continuing step of any bytecode, compiled or not, strictly lowers the sum over frames of remaining bytes weighted by powers of the longest chunk plus one, so no run is infinite |
| Codegen.ConstantFound | src/parser.c:197-206 | the constant an instruction names is the value that was meant, although the pool is searched with the language's own equality |
| Limits.Constants | src/parser.c:197-206 | a constant is refused if and only if there are 256 already and it equals none of them |
| Limits.Arguments | src/parser.c:386-401 | a call compiles if and only if its parts do and it passes at most 31 arguments |
| Limits.Printed | src/parser.c:806-820 | a `Print` compiles if and only if its values do and there are at most 32 |
| Limits.Parameters | src/parser.c:694-722 | a function has at most 32 parameters, and a local is added if and only if there are at most 255 and its block has none of that name |
| Limits.Operands | src/parser.c:219-230 | `And` and `Or` compile if and only if the code of the right operand has at most 65534 bytes |
| Limits.Arity | src/vm.c:133-176 | any other number of arguments is the error, however deep the call |
| Limits.Useful | src/parser.c:767-780 | an expression alone is a statement if and only if it compiles and is not a name, a literal or an empty map followed by member names only |
| Limits.Returning | src/parser.c:822-838 | `Return` is refused in the script itself, in blocks of it too, and nowhere else |
| Limits.Depth | src/vm.c:133-176 | a call with the right number of arguments runs the body up to 64 calls deep, the script's included, and overflows at the next |
| Codegen.FunctionsAt | src/parser.c:694-726 | function number i of a compiled program is the code of declaration i |
| Emission.PatchLands | src/parser.c:184-230 | patching changes only its two placeholder bytes, and decoding them afterwards jumps exactly to the code position current at patch time, whatever is emitted later |
| Compiler.Parser.PatchJump | src/parser.c:219-230 | succeeds exactly when the distance fits 16 bits; the patched operand, read back, lands on the end of the code |
| Compiler.Parser.MakeConstant | src/parser.c:197-206 | the index and the pool are those of adding the constant without duplicates, and it fails exactly beyond 256 constants |
| Compiler.Parser.EndScope | src/parser.c:275-286 | one pop for each local of the closed block and for no other |
| Compiler.Parser.ParsePrecedence | src/parser.c:635-659 | accepts exactly when the expression parses and compiles, leaves exactly the code of the expression read, and stands where it ends |
| Compiler.Parser.IfStatement | src/parser.c:782-804 | accepts exactly when the statement parses and both arms compile, with both jumps patched to the code of the whole conditional |
| Compiler.Parser.FunctionBody | src/parser.c:694-726 | a nested function is compiled into its own chunk, with its parameters as locals, exactly as the declaration says, and its own functions come before it |
| Compiler.Compile | src/parser.c:935-958 | one pass over the tokens with backpatching gives the code of the parsed program, or no program exactly when parsing or code generation fails |
| Syntax.UselessIsMemberChain | src/parser.c:767-780 | the test on the counters refuses exactly an unparenthesised name, literal or empty map followed by member names only |
| PrattInverse.ParseIffPrinted | src/parser.c:584-659 | on one line, tokens parse to an expression if and only if they are its printing and the expression is grouped as the precedences require, nothing after it continuing it |
| Grouping.BracketedIsGrouped | src/parser.c:584-631 | an expression has the parentheses the rule table asks for if and only if it has those that a list of the operators, class by class, asks for |
| Grouping.ReadIffBracketed | src/parser.c:584-659 | on one line, tokens are read as an expression if and only if they are its tokens and it is bracketed as that list asks |
| Grouping.TwoOperators | src/parser.c:584-631 | `a x b y c` is read as `a x (b y c)` if `y` is in a tighter class, or both are `And` or both `Or`, and else as `(a x b) y c` |
| Grouping.PrefixFirst | src/parser.c:567-582 | a prefix operator takes less than any operator between two operands |
| Grouping.PrefixLast | src/parser.c:567-582 | and more than members, elements and calls |
| Grouping.AssignmentLast | src/parser.c:524-553 | an assignment takes all of `a x b` to its right |
| Grouping.TextIsExpression | src/parser.c:635-659 | the characters of a bracketed expression, however spaced on a line, are read as that expression |
| Scripts.Counted | src/parser.c:694-734 | a statement makes as many function objects as it has function declarations in it |
| ScriptReading.ScriptIsRead | src/parser.c:736-930 | the tokens of any script, with or without initializers, values to return, parameters and `Else`, on one line with `Then` or below, parse to the statements it was written for, unless the file ends on the line of a `Return` without a value, which no script may have outside its functions, and then they do not parse |
| ScriptReading.NoInitializerIsNull | src/parser.c:736-765 | a `Var` or `Global` without initializer, wherever in a script, is one initialized with `Null` |
| ScriptWriting.ScriptIsWritten | src/parser.c:736-930 | whatever parses as a script has the tokens of one that can be written, up to the end of the file, and is what that one stands for |
| ScriptWriting.TokensAreWords | src/parser.c:736-930 | the words that statement speaks of are the tokens of the other, wherever they stand |
| ScriptWriting.WellIsFormed | src/parser.c:680-692 | what can be written on lines of its own is among what it speaks of |
| ScriptTexts.TextIsScript | src/vm.c:682-701 | a text with the characters of a script's tokens, spaced and commented at will, is read as those tokens and has their meaning |
| ScriptTexts.NoInitializerMeansNull | src/parser.c:736-765 | with or without `= Null` the meaning is one and the code is one |
| Parentheses.ParenthesesAreFree | src/parser.c:489-493 | adding the parentheses an expression needs does not change its code |
| Parentheses.PrintedCodeIsCode | src/parser.c:584-659 | the tokens of any expression, printed with only the parentheses it needs, parse to an expression with exactly its code |
| Strictness.InfixesStrict | src/parser.c:648-654 | an expression whose left operand does not compile does not compile, however it is continued, so stopping at the first error is exact |
| Strictness.InfixFlags | src/parser.c:648-654 | continuing an expression keeps the facts that a call or an assignment was seen |
| Scopes.AboveCounts | src/parser.c:275-286 | closing a block drops exactly the variables declared in it |
| Scopes.StmtGrows | src/parser.c:321-384 | a statement keeps the locals before it; what it adds is initialised, at the current depth, and only in a block |
| Scopes.BlockGrows | src/parser.c:671-678 | the same for a list of declarations |
| Scopes.PendingUnused | src/parser.c:306-319 | when an initializer compiles at all, the variable being declared is not used in it: its code is the one without that variable |
| Scopes.ParamsGrow | src/parser.c:694-722 | parameters occupy the slots after the function, in order |
| Scopes.TakenIffDeclared | src/parser.c:335-355 | a declaration is refused if and only if the name was declared in the same block |
| Comparisons.GreaterIsConverse | src/parser.c:429-430 | `x > y` is `y < x`, results and errors alike, for every pair of values but those of numbers and booleans with a NaN among them |
| Comparisons.GreaterEqualIsConverse | src/parser.c:429-430 | `x >= y` is `y <= x` in exactly the same cases |
| Comparisons.NanIsGreater | src/vm.c:332-391 | with a NaN on either side `>` and `>=` are true and `<` and `<=` false, both ways round |
| Comparisons.QuietNanIsGreater | src/parser.c:429-430 | the quiet NaN is greater than every number and boolean, which are greater than it, and nothing is less than it |
| Comparisons.IeeeCompares | src/vm.c:332-391 | the comparisons of IEEE 754 read off the patterns meet what these results ask of a machine, and tell literals apart |
| Simulation.ResolveFinds | src/parser.c:306-319 | the slot the compiler resolves a name to is that of the innermost variable of the name the evaluator finds |
| Simulation.SimExpr | src/vm.c:239-677 | running the code of any expression ends as evaluating it, error or not, with the value on the stack |
| Simulation.SimStmt | src/vm.c:239-677 | running the code of any statement ends as evaluating it, and afterwards the locals are the variables in scope |
| Simulation.SimIf | src/parser.c:782-804 | the patched jumps run exactly the arm the condition selects |
| Simulation.SimBody | src/vm.c:133-176 | running a function from its first instruction, in its own frame, has the outcome of its body |
| Verifier.NextInstr | src/vm.c:199-241 | in a typed program at an invariant state there is always an instruction, its operands are in range and it finds the values it takes above slot 0 |
| Verifier.StepKeeps | src/vm.c:241-677 | every step of a typed program from an invariant state is defined and keeps the invariant: boundaries, depths, frames, slot 0, references |
| Verifier.RunsSafely | src/vm.c:178-680 | no run of a typed program comes to a point the original would read or write out of bounds in |
| Verifier.StackBound | src/common.h:11-20 | with depths of at most 256 per function the stack stays within its array over all 64 frames |
| CodeTyping.TypeExpr | src/parser.c:403-582 | the code of every expression has one stack depth per instruction boundary on all paths, ends one higher and never exceeds a depth read off the expression |
| CodeTyping.TypeStmt | src/parser.c:671-839 | the code of every statement takes the depth from the locals before it to the locals after it |
| CodeTyping.TypeFunction | src/parser.c:694-726 | the code of every function, closed by its final return, is typed from its arity |
| CodeTyping.TopIsFlat | src/parser.c:367-384 | declarations at the top of a script take no stack: a script is as deep as its deepest statement |
| CodeTyping.MapLiteralDepth | src/parser.c:509-522 | the code of a map literal ends at the promised depth if and only if it has fewer than 256 elements, and otherwise too high by that multiple of 256 |
| Programs.ParsedIsProper | src/parser.c:694-734 | in a parsed script every declaration names its own function of the program |
| Programs.ProgramTyped | src/parser.c:935-958 | every compiled script is a typed program |
| Programs.CompiledScriptIsSafe | src/vm.c:239-680 | however many instructions of a compiled script have run, the next state is defined, and if no function is deeper than 256 the stack array was never overrun |
| Programs.CompiledScriptRunsAsEvaluated | src/vm.c:682-701 | for any way of choosing string objects, running a compiled script ends as evaluating it with the same choice, with the stack as before the script was pushed |
| Interning.FaithfulIffNoClash | src/table.c:126-147 | a string table that keeps one object per length and hash gives back every string of a set if and only if no two of them clash |
| Interning.CompiledScriptMeansItsSource | src/vm.c:682-701 | if no two strings of the script and its run clash, running the compiled script ends as evaluating it on characters: same error, output, globals, maps and stack |
| Interning.WordsThatClash | src/utils.c:8-18 | `declinate` and `macallums` have one length and one hash |
| Interning.TwoGlobalsPrint | src/table.c:126-147 | what a script that declares two globals and prints the first prints: the second value if both names stand for one string object, the first otherwise |
| Interning.MeaningIffNoClash | src/table.c:126-147 | such a script means what its characters say if and only if the names do not clash |
| Interning.DeclinateIsMacallums | src/table.c:126-147 | `Var declinate = m`, `Var macallums = n`, `Print declinate` prints n on a machine that interned the first name first, and m on characters |
| Names.CanonIsName | src/utils.c:8-18 | two names have one lower-case form if and only if they agree letter by letter but for the case of the 26 letters |
| Names.OneGlobalIffSameName | src/object.c:53-67 | on characters, two declarations declare one global if and only if their names agree so |
| Names.InnermostFound | src/parser.c:306-319 | a name stands for the last declared of the variables of exactly that name, or for none if there is none |
| Calls.StepKeepsBelow | src/vm.c:239-677 | any step of any bytecode leaves the frames below the running one and the values below its slot 0 alone |
| Calls.CallReturns | src/vm.c:281-306 | from inside a call, after some number of steps, there is an error or the call has returned one value; until then everything below it is kept |
| Calls.CallIsFrameSafe | src/vm.c:133-176 | a call with the right arity ends in an error or, after some number of steps, has replaced the function and its arguments by one value with the caller right after the call; all states before keep the caller, the frames below and the values below the function |
| Calls.LiteralIndexed | src/vm.c:565-640 | OP_MAP on n values, a constant k and OP_GETI leave the literal's element n-1-k, or null outside 0..n-1 |
| VirtualMachine.Vm.Elements | src/vm.c:565-571 | the loop of OP_MAP builds the table of the values on top of the stack |
| VirtualMachine.Vm.Dispatch | src/vm.c:239-677 | one turn of the dispatch loop on the arrays is one step of the machine |
| VirtualMachine.Vm.Loop | src/vm.c:178-680 | on a typed program the unchecked loop on the arrays ends, with the outcome of the run |
| Interpreter.DoFile | src/vm.c:682-701 | compiling a token list in one pass and running it on the unchecked machine gives the meaning of the tokens on characters |
| Interpreter.DoSource | src/vm.c:682-701 | the same from a source text, with the numbers `strtod` reads; and with the numbers as they are written if none is followed by an exponent or hexadecimal digits |
| Interpreter.MeaningAsWritten | src/parser.c:495-499 | the two readings of a text agree if none of its numbers is so followed |
| Numbers.TokenIffEnds | src/parser.c:495-499 | what `strtod` reads from the start of a number token is that token if and only if no exponent and no hexadecimal digits follow it |
| Numbers.NumbersCut | src/lexer.c:307-320 | every number token of a text is the digits and the fraction the scanner takes of the rest of the source |
| Numbers.NumbersAsWritten | src/parser.c:495-499 | if no number goes on, the parser gets the tokens it would get with every number read by itself |
| Exponents.ExponentIsRead | src/parser.c:495-499 | `Print 1e5 = 3` prints the number `1e5` where `1` is written |
| Reading.EndsInEof | src/lexer.c:354-360 | the tokens the compiler is given end in an end-of-file token that carries the line it stands on |
| Lexer.Recognised | src/lexer.c:174-298 | every spelling of a reserved word, in any case, is recognised as that word, but for the ones whose test cannot succeed |
| Lexer.OnlyWords | src/lexer.c:174-298 | nothing but a spelling of a reserved word is recognised as one, so every other name is an identifier |
| Lexer.NextToken | src/lexer.c:354-400 | every scan but the last makes progress, and the tokens of a text are its first token and those of what follows it |
| Lexer.Scanner.Scan | src/lexer.c:354-400 | the token after the last one, with its line and column and what its pointer reads, and where it leaves off |
| Lexer.Scanner.SkipWhitespace | src/lexer.c:123-172 | skips blanks, comments to the end of a line, and comments over several lines by the tests the code makes |
| Lexer.BlockOpensIff | src/lexer.c:144-166 | after a token, a comment over several lines opens if and only if the token has three characters, ends in `cs` and a `#` touches it |
| Lexer.BlockNeverCloses | src/lexer.c:144-166 | once open, such a comment never closes |
| Lexer.BlockSwallowsTheRest | src/lexer.c:144-166 | so everything after it is skipped up to the end of the file |
| Lexer.UpToNul | src/lexer.c:47-50 | nothing from the first NUL on is read |
| Lexer.ScanAll | src/lexer.c:354-400 | repeated scanning gives the tokens of the file's text up to its first NUL |
| Rendering.LexScans | src/lexer.c:300-400 | each word, number, quoted text and operator, alone, is scanned whole and as its own kind |
| Rendering.ScanInvertsRendering | src/lexer.c:123-172 | tokens rendered with spaces, newlines and comments between them are scanned back, kind, characters, and exact line and column |
| Rendering.ScannersLetters | src/lexer.c:27-39 | the scanner's letters and digits are those of the alphabet written out, with `_` and `$` |
| Rendering.CommentIsGap | src/lexer.c:123-143 | a semicolon, anything on its line and the line feed separate two tokens |
| Rendering.ColumnCounts | src/lexer.c:69-101 | a column counts the characters since the last line feed |
| Wording.TokenRead | src/lexer.c:174-400 | the characters of any token of the grammar, operator, reserved word in any case, name, number or quoted text, are read as that token where a separator follows |
| Wording.TextIsRead | src/lexer.c:123-400 | a text made of such characters with blanks and comments in between is read as exactly those tokens, each with the line it ends on, and the end of the file |
| Probing.SomeEmpty | src/table.c:84-99 | while tombstones and entries fill at most part of the slots there is an empty slot for a search to end at |
| Probing.FoundContents | src/table.c:21-57 | the slot a search ends in holds the key's value if the key is there, and holds no key otherwise |
| Probing.Put | src/table.c:84-99 | writing a key into the slot found keeps every key reachable along its probe path and no key twice, and changes the map at that key only |
| Probing.Bury | src/table.c:101-114 | a tombstone removes its key and keeps every other key reachable |
| Tables.Table.FindEntry | src/table.c:21-46 | the search ends, in the slot of the key or in the first reusable one on its path |
| Tables.Table.Get | src/table.c:48-57 | the value the map has for the key, if any |
| Tables.Table.AdjustCapacity | src/table.c:59-82 | growing moves the same map into a new array and drops the tombstones |
| Tables.Table.Set | src/table.c:84-99 | the map with the key set; true if and only if the key is new; the array grows, to eight slots or twice as many, exactly if one key more would take over three quarters of it |
| Tables.Table.Remove | src/table.c:101-114 | the map without the key; true if and only if it was there |
| Tables.Table.AddTo | src/table.c:116-124 | the other table's map overridden by this one's, which stays as it is |
| Tables.Table.FindStr | src/table.c:126-147 | a key with that length and hash if and only if the table has one |
| Tables.Replay | src/table.c:48-124 | over every history of set, remove, get and add on two tables, growth and tombstones included, all answers are those of two plain maps |
| Hashes.Hash.Find | src/hash.c:22-47 | the search ends, in the slot of the key or in one it may take |
| Hashes.Hash.Get | src/hash.c:74-83 | the value the map has for the key, if any |
| Hashes.Hash.Resize | src/hash.c:49-72 | growing keeps the map and never counts more |
| Hashes.Hash.MakeRoom | src/hash.c:85-93 | the array grows, to eight slots or twice as many, exactly if one key more would take over three quarters of it, and the map stays |
| Hashes.Hash.Set | src/hash.c:85-100 | the map with the key set, unless the key is the one that marks unused slots, which is never found; true if and only if the key was absent |
| Hashes.Replay | src/hash.c:74-100 | over every history of sets and gets, the unused-slot key among them, all answers are those of a plain map |
| Chunks.Chunk.Emit | src/chunk.c:31-44 | the byte and its line and column, cut to 16 bits, are appended to three buffers that grow together, by 256 when they are full, and keep what they hold |
| Chunks.ValueArray.Add | src/value.c:90-105 | the index of the first equal constant or of the new one, as in the compiler's constant pool |
| Strings.HashString | src/utils.c:8-18 | the loop computes 32-bit FNV-1a; ignoring case it is the plain hash of the lowercased characters |
| Strings.HighCharacter | src/utils.c:8-18 | a character from 128 on is a negative `char`, which extends with ones |
| Collector.MarkedIsReachable | src/gc.c:143-149 | a set with the roots, closed under references and without anything unreachable is exactly the reachable set |
| Collector.RootsAre | src/gc.c:118-141 | a root is a temporary root, a value on the stack, a running function, an open upvalue, or the name or value of a global, and nothing else |
| Collector.KidsAre | src/gc.c:92-116 | an object mentions its closed value, its name, constants and upvalues, or its keys and values, and nothing else |
| Collector.Turn | src/gc.c:92-116 | blackening one gray object keeps every marked object that is not gray closed, pushes each object once, and brings the end nearer |
| Collector.Heap.BlackenObject | src/gc.c:92-116 | marks exactly the objects this object mentions and makes the newly marked ones gray |
| Collector.Heap.Mark | src/gc.c:188-194 | when the gray stack is empty an object is marked if and only if it is reachable from stack, frames, temporary roots, open upvalues or globals |
| Collector.Heap.RemoveWhite | src/gc.c:178-186 | the string table is restricted to marked strings |
| Collector.Heap.Sweep | src/gc.c:151-176 | the list is relinked to the objects the test keeps, in their order, marks cleared, and the bytes of the others given back |
| Collector.Heap.Collect | src/gc.c:188-199 | a whole collection with either sweep test; the threshold becomes twice the bytes left |
| Collector.Heap.Tidy | src/gc.c:188-199 | with the intended sweep the list becomes the reachable objects in their order with contents unchanged, the string table is restricted to them, and the heap is valid again |
| Collector.Heap.Reserve | src/gc.c:33-47 | the bytes are counted, and a collection runs exactly if there are any and they take the count over the threshold: then exactly the reachable objects are left and the threshold is twice their bytes; otherwise objects and threshold stay |
| Collector.Heap.Free | src/object.c:137-160 | gives the object's bytes back and never collects |
| Collector.Heap.New | src/object.c:19-27 | a new object at the head of the list, the rest of which is what a collection leaves if one was due and else what it was; the new object cannot have been swept |
| Collector.Heap.StrCopy | src/object.c:53-67 | the one string object with the length and hash of the (lowercased) characters; it has those characters if and only if no string of the table collides with them; a new one is made, and a collection run if it is due, exactly if the table has none |
| Collector.Heap.StrTake | src/object.c:41-51 | the same for characters taken over |
| Collector.IdentityIsEquality | src/object.c:29-39 | two strings of the table are one object if and only if they agree in length and hash, hence without a collision if and only if they are equal |
| Collector.WrittenSweepFreesTheLiving | src/gc.c:157 | the sweep as written keeps exactly the unreachable objects, and frees every string it leaves in the string table |
| Collector.WrittenSweepIsRightIffEmpty | src/gc.c:157 | it keeps what the intended sweep keeps if and only if the list is empty |
| Histories.OneRoot | src/gc.c:151-199 | of a heap with one object, which is a root, the sweep as written keeps nothing and the intended one keeps it |
| Histories.CollectAsWritten | src/gc.c:151-199 | a collection as written of such a heap leaves the list empty with the object still on the stack, its bytes given back |
| Histories.RootFreed | src/gc.c:151-199 | such a heap can be made, and the object freed under the machine |
| Histories.Serve | src/gc.c:33-47 | one request makes an object exactly if it is for one that is not there, and collects exactly if it asks for that or its object takes the count over the threshold, which only a collection moves |
| Histories.Replay | src/gc.c:33-199 | over every history of interning, allocation and collection each request does so, the bytes counted are those of the objects and never pass the threshold, and two strings handed out are one object if and only if they agree in length and hash |
| Histories.CopyTwice | src/object.c:53-67 | without a collision, two calls give one object if and only if the canonical texts are equal |
| Collections.StepFollows | src/vm.c:239-677 | one step neither needs nor changes a map that is not in use, and begins to use none but a new one |
| Collections.CollectTwice | src/gc.c:188-199 | two collections in a row are one that keeps what both keep |
| Collections.CollectingChangesNothing | src/gc.c:33-47 | with collections at any steps, each keeping at least the maps in use, a run has the result it has without: same error or stack, globals, output and reachable maps |
| Collections.CompiledScriptMayBeCollected | src/vm.c:682-701 | the same for every compiled script |
| Layouts.InUseIsLive | src/gc.c:118-141 | the maps in use, the running functions and their constants are all reachable from the collector's roots |
| Layouts.CollectDuringRun | src/gc.c:188-199 | after a collection in the middle of a run the heap still represents the run's state, and from there the run has the result it would have had |
| HeapRuns.SameStands | src/value.c:50-75 | comparing objects by identity is comparing what they stand for, strings of one text being one object |
| HeapRuns.FindStands | src/table.c:48-57 | looking a key object up finds what the table has under its text, and nothing exactly if it has nothing |
| HeapRuns.PutEntryStands | src/table.c:84-99 | overwriting the entry of a key object, or adding one, sets the table at its text and nowhere else |
| HeapRuns.PutIndexStands | src/hash.c:85-100 | the same for numbers, the unused key aside |
| HeapRuns.DoJoin | src/vm.c:118-131 | the operands are popped, their characters joined and interned, which may collect, and the object is pushed |
| HeapRuns.DoMap | src/vm.c:565-576 | the map is allocated, which collects exactly if its 48 bytes take the count over the threshold, while its elements are on the stack, then filled and pushed |
| HeapRuns.DoPut | src/vm.c:593-677 | OP_SET and OP_SETI change the body of one map object under a key object or number, and fail where the original does |
| HeapRuns.DoCall | src/vm.c:133-176 | a call goes by the function object's arity and pushes a frame on it, calls a native, or fails as the original does |
| HeapRuns.Dispatch | src/vm.c:239-677 | a turn of the loop on machine and heap, decoding the code of the function object, does what the step does on characters, errors included, and then stands for the state after it |
| HeapRuns.RunOnHeap | src/vm.c:178-680 | a run on machine and heap alone, collecting as its allocations ask, reports the end of the run on characters if no strings clash, and stands for the state it ends in |
| Loading.Load | src/vm.c:682-696 | a program is laid out in an empty heap; machine and heap then stand for the state its script starts in |
| Loading.RunScript | src/vm.c:682-701 | a compiled script run on a machine and heap of its own reports what its source comes to on characters; the lines printed, read off the objects, are the source's, and globals and maps in the heap stand for its own |
| Texts.ScriptTexts | src/parser.c:294-298 | every string constant of a compiled script is a literal of it or one of its names in lower case |

## Left out

- File reading, printing of values and diagnostic text; output is the sequence of printed value lists, errors are values.
- `lib_thread.c` and `vm_clone`: threads with shared, unsynchronised state.
- `lib_math.c`: natives are total functions from arguments to a number, a field of `Host`.
- IEEE arithmetic, the values `strtod` gives and number formatting: fields of `Host`; how much of a text `strtod` reads is modelled.
- Error recovery: `compile` returns no function after any error, so compiling stops at the first one.
- `exitStatement`: it leaves a value on the stack (src/parser.c:841-855).
- Compiler.Compile: refuses `Global` inside a block, which the original accepts; the code it leaves there declares a local that is never initialised and pops a value from under it (src/parser.c:750-765).
- `Then` or `Else` followed by a bare expression: the original calls itself for ever (src/parser.c:918-929) or consumes nothing; there the model has no program.
- Lexer.Recognised: leaves out the reserved words `To` and `Enum`, whose tests cannot succeed; they are scanned as the code scans them.
- Interpreter.DoFile: covers scripts whose map literals have fewer than 256 elements and whose functions are no deeper than 256 slots, and reports `Global` inside a block as a compile error; `CodeTyping.MapLiteralDepth` says what happens beyond the first, and nothing is promised beyond the second.
- Interpreter.DoSource: has the same limits.
- Interning.CompiledScriptMeansItsSource: the string object that stands for some characters is chosen once for the whole run; that strings are forgotten and interned anew is part of `HeapRuns.RunOnHeap` and `Loading.RunScript`.
- Interning.MeaningIffNoClash: the converse is stated for scripts of two globals; a clash elsewhere in a script need not show in what it prints.
- Collections.CollectingChangesNothing: a map that is freed is emptied but its number is not given to a new map; in `HeapRuns` maps are objects, and only a printed address could tell.
- Collections.CompiledScriptMayBeCollected: the same.
- Layouts.CollectDuringRun: a collection between two steps; those inside an allocating instruction are in `HeapRuns.DoJoin` and `HeapRuns.DoMap`.
- HeapRuns.Dispatch: the tables of maps and globals are searched from one end to the other for the key object; that probing finds it is `Tables` and `Hashes`. To a native function an object is its number in the order of making, in place of its address.
- Loading.Load: strings and functions are kept on the temporary roots until the script starts; during compilation the original keeps nothing.
- Upvalues: the collector marks them, but no instruction makes one and `obj_free` has no case for them.
- `isMarked`, `gc->vm` and `upvalueCount` are not initialised where objects and machines are made (src/object.c:19-27, src/object.c:69-77, src/vm.c:50-66); they are taken to start out false, the machine, and 0.
- Collections during compilation: the compiler's roots are commented out (src/gc.c:140).
- Capacities, counts and byte totals are unbounded; the hash of a string is 32 bits wide, and operands, jumps and number keys have the widths of the code.
- Lines and columns are recorded in `Chunks.Chunk` only: the compiler's own model keeps the bytes, and the trace of a runtime error is diagnostic text.
- Failing `malloc` and undefined behaviour of C.
- ScriptReading.ScriptIsRead: scripts whose statements start on lines of their own; several statements on one line are parsed too, and for those there is `ScriptWriting.ScriptIsWritten` only.
- Arithmetic.OnIntegers: integers and results up to 2^53 in size; fractions, infinities and rounding are the host's, which `Arithmetic.OnAmounts` leaves as they are.
