# Verified model of the Weave bootstrap compiler

Weave is a small S-expression language with two compilers: stage0, written in C, which
turns source text into LLVM IR, and stage1, written in Weave itself.  This project models
the parts of both that carry the most logic and proves what they are for.

**From text to forms (stage0).**  `Lexing` and `Parsing` model the lexer and the recursive
parser; `Acceptance` characterises the accepted sources by a scan over characters, and
`Rendering` shows that parsing is the exact inverse of writing, `Positions` that tokens and
forms carry the places of their own text.  `Includes` models include merging, which grows the
list it walks and survives include cycles; `MergeOrder` says where the merged forms stand.  A
run starts with an empty list of merged files, so the input file itself may be merged once
more when an include leads back to it.

**From forms to IR (stage0).**  `Reading` says how forms are read as programs and which
signatures calls are compiled against; `Writing` is its inverse for single functions and
`TopForms` for whole files, with modules, aliases and other forms around the functions.  `Weave` gives the source
language a big-step semantics with fuel, and the scoping and typing rules under which
stage0's flat, never popped environment is sound (`ProgramOk`).  `Ir` gives the emitted LLVM
subset a small-step semantics: program counter, temps, allocas, memory, a call stack.  `Gen`
says what is emitted; `Codegen` is the imperative generator with its counters, output and
environment, proved to emit exactly that; `Env`, `FnTables`, `Types` and `Constants` are its
tables.  `Blocks` proves that the output is a well-formed block graph.  `Usability` is a check
of the source alone, without types, and `Dominance` and `Escapes` prove that definitions
dominate uses in the output exactly for the functions that pass it; `Unscoped` applies this to
two functions that differ in one branch.  `Typing` proves that the output is well typed for
programs that obey the rules, and `Allocas` that allocas keep their types in all others too.  `Simulation` and `Correctness` prove that the output
means what the source means.  `TypedMemory` and `Safety` prove that it can be stuck only on a
division, at the null pointer or at a variable of a call that has returned, the last only if
pointers leave the call they were made in, as they do in `Dangling`.  `EndToEnd` and `Driver`
put the phases together.

**Arenas (stage1).**  `Arenas` models trees kept in parallel arrays and linked by ids,
`TokenParser` the parser that builds them, `Expansion` the include expansion that copies
trees from one arena into another, and `Leftovers` says what it leaves of the includes.  `Growable` and `Strings` model the arrays and buffers
below them.

Conventions of the source language's semantics.  Numbers are 32-bit and wrap; `/` truncates
and is stuck on a zero divisor and on the overflow of the least number by -1; `&&` and `||`
evaluate both operands; a `let` evaluates its initialiser before the name is bound; branches
and loop bodies are scopes, `do` and `let` bodies are not; a body that falls through returns
the value of its last value-producing statement.  A stuck run of the source corresponds to a
stuck run of the machine, a run without end to a run without end.  When a call returns, its
stack cells die in both semantics; a pointer to them keeps its value, and loading or storing
through it is stuck.  Where a handle (`i8*`) is wanted as an argument, in a `store` or by an
implicit return, the number 0 stands for the null pointer; where a number is wanted, a pointer
stands for its address, of which nothing is assumed but that it is the same in both semantics.
An explicit `return`, a `set` and a `let` convert nothing, as in the C code, whose output for
them would not be typed.

Where C code stops the process with a diagnostic, the model returns `None` or sets `fatal`.
All lemmas switch automatic induction off and give their inductions explicitly.

## Model

| member | source | states |
|---|---|---|
| Correctness.CompilePreservesMeaning | stage0/src/program.c:150-302 | For every program that obeys the rules, every function, all arguments of the declared types and every memory: the emitted function returns a value and leaves a memory if and only if the source does, and gets stuck if and only if the source does; so it also diverges exactly when the source does |
| EndToEnd.CompilerIsCorrect | stage0/src/program.c:1060-1246 | The same from the forms of a merged source file, compiled against the signature table stage0 collects with its own built-in entries, and without a diagnostic |
| EndToEnd.SameModule | stage0/src/expr.c:578-634 | Checked code is the same for every table that has the signatures of the program, and no checked program stops with a type mismatch |
| Simulation.SimExpr | stage0/src/expr.c:637-996 | Running an expression's code ends behind it with the source value at hand, all earlier temps and all allocas unchanged; it is stuck when the source is and still running after fuel-many steps when the source has not finished |
| Simulation.SimStmt | stage0/src/stmt.c:22-291 | The same for statements: afterwards every variable in scope is in its alloca, outer allocas have not moved, and the value for an implicit return is at hand |
| Simulation.SimFn | stage0/src/program.c:150-302 | The same for whole functions under any stack of callers, through recursion and loops |
| Blocks.StmtShape | stage0/src/stmt.c:197-283 | A statement's code is properly divided into blocks and cannot fall off its end exactly when 1 is returned; it defines each of its temps once, labels only from its own range, and every label it refers to |
| Blocks.FunctionsAreBlockGraphs | stage0/src/program.c:256-302 | Every emitted body has one terminator per block and none inside, every referenced label defined exactly once, no temp defined twice |
| Blocks.ModuleNumbersAreUnique | stage0/src/ir.c:22-32 | Over the whole module no temp and no label is defined twice, since the counters run on from function to function |
| Typing.EmittedIsTyped | stage0/src/program.c:150-302 | Every function that obeys the rules is emitted well typed: one type for each temp, alloca and parameter, which every instruction that uses it spells, with loads and stores through pointers to what they move |
| Typing.SlotsAgree | stage0/src/stmt.c:124-164 | So a load or store through an alloca moves the type of the alloca and spells the pointer to it |
| Typing.ModuleInOrder | stage0/src/program.c:1228-1231 | The functions of a module are those of the program, in its order and with its types |
| Typing.ModuleIsTyped | stage0/src/program.c:1060-1246 | In the module of a program that obeys the rules every function is well typed and every call spells the types of a function defined in it |
| Allocas.AllocasAgree | stage0/src/stmt.c:111-182 | Every function with distinct parameters, whether it obeys the rules or not, unless a `set` names a variable like an alloca: what is loaded or stored through an alloca is spelled as a pointer to its type, and allocas of one name have one type |
| Allocas.SpelledAllocaDisagrees | stage0/src/stmt.c:167-182 | Such a `set` does break it: it stores a number through the alloca of a parameter of any other type |
| Dominance.FlowIsSound | stage0/src/stmt.c:197-283 | A linear check against what is known at each label implies that on every path through the blocks names are defined before use |
| Escapes.DominatesExactly | stage0/src/stmt.c:22-291 | Whenever code is emitted for a function, its definitions dominate its uses along every path from the entry, feasible or not, if and only if the function passes the check of its scopes: a declaration in a branch stays usable exactly if the other branch leaves the function, one in a loop body never, an address nobody takes up is no use, and a `set` target must have an alloca |
| Dominance.ScopedDominates | stage0/src/program.c:253-302 | The check is enough, with or without a diagnostic, also for parameters that share a name |
| Escapes.HitsBreak | stage0/src/stmt.c:197-283 | A use that a front-to-back scan of the blocks reaches without a definition is reached by a real path without it |
| Usability.CheckedIsScoped | stage0/src/env.c:82-94 | Every function that obeys the scoping and typing rules passes the check |
| Dominance.DefinitionsDominateUses | stage0/src/program.c:253-302 | So in every emitted function of a program that obeys the rules each used temp and alloca has been defined before, along every path |
| Unscoped.LeakyBreaksDominance | stage0/src/env.c:82-94 | A name declared in a branch and used behind it yields 0 in the source and, in the output, an alloca used on a path that misses it; if the other branch returns, no path does |
| Safety.StuckOnlyOnFaults | stage0/src/program.c:150-302 | For programs that obey the rules over types that have values, with pointers, loads and stores, on arguments and memory of fitting types: the emitted code gets stuck if and only if the source divides by zero, overflows a quotient, accesses the null pointer, or accesses a variable of a call that has returned |
| Safety.ConfinedNeverDangles | stage0/src/program.c:150-302 | The last never happens if no function returns a pointer and no `store` stores one |
| Dangling.PointersEscape | stage0/src/expr.c:637-856 | It does happen otherwise: a program that obeys the rules returns the address of a variable and loads through it, and the emitted code gets stuck there |
| Safety.StuckOnlyOnDivision | stage0/src/program.c:150-302 | Without pointers the emitted code gets stuck if and only if the source divides by zero or overflows a quotient, whatever the arguments and the memory |
| TypedMemory.RetireTyped | stage0/src/program.c:253-302 | When a call returns and its cells die, memory is still typed, and where pointers are confined those in live cells lead to live cells |
| Codegen.EnsureType | stage0/src/expr.c:78-148 | Converts a value as `Gen.Ensure` says, or marks the type mismatch |
| Codegen.CgExpr | stage0/src/expr.c:637-856 | Appends exactly the specified code, consumes exactly the specified temps, and returns the specified value |
| Codegen.CgArith | stage0/src/expr.c:860-887 | The same for arithmetic |
| Codegen.CgCmp | stage0/src/expr.c:889-946 | The same for comparisons, with both result temps taken before the operand conversions |
| Codegen.CgLogic | stage0/src/expr.c:948-996 | The same for the strict logical operators |
| Codegen.CgCall | stage0/src/expr.c:578-634 | The same for ordinary calls: all arguments, left to right, then one call |
| Codegen.CgLet | stage0/src/stmt.c:111-164 | The same for `let`: initialiser before binding, the alloca, the inserted load, the store, the nested statements |
| Codegen.CgIf | stage0/src/stmt.c:197-240 | The same for `if-stmt`, including when the end label is left out |
| Codegen.CgWhile | stage0/src/stmt.c:242-283 | The same for `while` |
| Codegen.CgStmt | stage0/src/stmt.c:22-291 | The same for every statement form; the flag tells whether control leaves |
| Codegen.CompileFn | stage0/src/program.c:150-302 | The same for a function: parameters, header, body, implicit or default return |
| Codegen.CompileFunctions | stage0/src/program.c:1228-1231 | The same for all functions, one after another |
| Env.FindIsLast | stage0/src/env.c:16-22 | Lookup finds the latest declaration of a name, and none only if there is none |
| Env.FindAfterAdd | stage0/src/env.c:82-94 | A declaration overrides earlier ones of its name and no others |
| Env.SsaNamesDistinct | stage0/src/env.c:61-80 | Different declarations get different allocas, whatever sanitising made of their names |
| Env.SsaNamesApart | stage0/src/program.c:35-41 | Allocas never clash with temps, labels, incoming parameters or the entry block |
| Env.SsaNameIsIdentifier | stage0/src/env.c:38-59 | Alloca names are legal unquoted identifiers |
| Env.VarEnv.FindIndex | stage0/src/env.c:16-22 | The backward scan computes that lookup |
| Env.VarEnv.Add | stage0/src/env.c:82-94 | Extends the parallel arrays by one entry whose alloca carries the new length |
| Env.SanitizeName | stage0/src/env.c:38-59 | The character loop and the fix-up of a leading digit compute the sanitised name |
| FnTables.FnTable.Find | stage0/src/fn_table.c:28-34 | The linear search finds a name if and only if it is in the table |
| FnTables.FnTable.Add | stage0/src/fn_table.c:45-68 | The table refines a map with override |
| Reading.CallsAgreeExactly | stage0/src/program.c:304-382 | A function's collected signature is the signature of its definition if and only if every parameter entry counts in the header, or an empty list is the only one |
| Reading.TableAgrees | stage0/src/program.c:1086-1156 | For plainly written functions the table spells at every call, wherever the definition stands, the types of the definition, and has no other names but the built-in ones |
| Writing.ReadWritten | stage0/src/expr.c:637-856 | Every expression of the modelled language whose literals and names are writable is read back from its form |
| Writing.ReadWrittenStmt | stage0/src/stmt.c:22-291 | The same for statements |
| Writing.ReadInvertsWriting | stage0/src/program.c:469-494 | The same for whole programs |
| Reading.OperandsRead | stage0/src/expr.c:860-996 | A missing operand of an operator reads as 0, and operands beyond the second are ignored |
| Reading.StatementsRead | stage0/src/stmt.c:22-240 | A missing `else`, returned value or initialiser reads as an empty form, 0 and 0 |
| TopForms.FunctionsInPlace | stage0/src/program.c:469-494 | The compiled functions are exactly the function forms at the top and inside modules and programs at any depth, each as often as it stands there, in the order of the text |
| TopForms.AliasesInOrder | stage0/src/program.c:435-452 | The alias table is that of the alias forms standing there, a later one overriding |
| TopForms.ReadInvertsLayout | stage0/src/program.c:469-494 | Reading inverts writing for files: functions in any nesting of modules and programs, among aliases and other forms, each with or without a doc and with further sections |
| TopForms.TestsRequired | stage0/src/program.c:168-205 | A program with a function without tests is not compiled |
| Driver.CollectSignatures | stage0/src/program.c:304-403 | Collects a table in which a later form overwrites an earlier one |
| Driver.CompileForms | stage0/src/program.c:1060-1246 | The phases in order compute the compiler function that `CompilerIsCorrect` is about |
| Driver.CompileFile | stage0/src/main.c:217-234 | Parsing, merging and compiling compute the composition of their specifications |
| Types.TypeEqIsEquality | stage0/src/types.c:43-50 | Type comparison is structural equality, hence an equivalence |
| Types.SpelledAlike | stage0/src/types.c:52-69 | For all types: they are spelled alike if and only if they are equal once the stars that end a struct name are read as pointers |
| Types.SpellInjective | stage0/src/types.c:52-69 | So types without starred struct names are spelled alike if and only if they are equal |
| Types.StarredNameCollides | stage0/src/types.c:52-69 | And every type with a starred struct name, behind however many pointers, is spelled like another type |
| Types.ParsedNamesPlain | stage0/src/types.c:78-125 | Types read from atoms without a trailing star, and from such aliases, have no starred struct name |
| Constants.ConstantIsFaithful | stage0/src/expr.c:298-331 | Decoding an escaped constant as LLVM does gives the source bytes and one zero |
| Constants.EscapeInjective | stage0/src/expr.c:298-316 | Different texts are escaped differently |
| Constants.StringPool.StringLit | stage0/src/expr.c:318-344 | Every constant gets a new number, and its declared size is the size of its decoded contents |
| Lexing.Lexer.LexNext | stage0/src/lexer.c:91-128 | Returns the token specified at the position behind blanks and comments, with the exact line and column of its first character, and stands behind it; fails exactly on an unterminated string |
| Lexing.Lexer.Get | stage0/src/lexer.c:11-22 | The incremental line and column are always those of the position |
| Lexing.Lexer.Skip | stage0/src/lexer.c:24-39 | Skips exactly the blanks and the comments, each through its newline |
| Lexing.Lexer.ReadString | stage0/src/lexer.c:60-81 | Reads a literal's text through its escapes, or fails if it does not close |
| Lexing.Col | stage0/src/lexer.c:11-22 | A column is one plus the distance to the last newline, or to the start |
| Lexing.LineCountsNewlines | stage0/src/lexer.c:11-22 | A line number is one plus the number of newlines before |
| Lexing.SkipStops | stage0/src/lexer.c:24-39 | Skipping ends at a token or at the end of the input |
| Positions.TokensStand | stage0/src/lexer.c:91-128 | A token carries the line and column of the first character of its own text, which blanks and comments only part from the token before |
| Positions.EndStands | stage0/src/lexer.c:91-106 | The end carries the place behind the last character, and only blanks and comments are before it |
| Parsing.ParseList | stage0/src/sexpr.c:30-70 | The loop reads exactly the forms up to the closing parenthesis, placed where they start |
| Parsing.ParseNode | stage0/src/sexpr.c:72-106 | Reads one form, tells the end of the input apart from a stray parenthesis |
| Parsing.ParseTop | stage0/src/sexpr.c:108-120 | Parses a source as specified |
| Acceptance.AcceptsExactly | stage0/src/sexpr.c:108-120 | A source parses if and only if, by a scan of its characters, its strings close and its parentheses balance |
| Rendering.ParseInvertsRendering | stage0/src/sexpr.c:30-120 | A source parses to a forest if and only if it is a rendering of that forest, with any blanks, comments and escapes |
| Rendering.RoundTrip | stage0/src/sexpr.c:30-120 | Every forest of readable atoms has such a rendering |
| Positions.ParsedFormsStand | stage0/src/sexpr.c:30-120 | Every parsed form, at any depth, carries the place of the first character of its own text, for a list its opening parenthesis |
| Includes.ResolveInclude | stage0/src/fs.c:118-146 | Returns the first candidate that exists, in canonical form |
| Includes.SearchOrder | stage0/src/fs.c:118-146 | A relative include is looked for beside its own file only; another one in the include directories, the earliest first, and then as it is |
| Includes.DirNameSplits | stage0/src/fs.c:148-168 | The directory of a path is what stands before its last slash, or the current one |
| Includes.Merger.MergeList | stage0/src/fs.c:172-206 | The walk over the growing list terminates and yields exactly the ideal merge, which never walks merged forms again |
| Includes.Merger.MergeFile | stage0/src/fs.c:212-225 | A file is parsed and merged in its own directory |
| Includes.WalkIsClean | stage0/src/fs.c:199-203 | Afterwards no include with a path is left at the top or inside modules and programs |
| Includes.CleanStays | stage0/src/fs.c:174-203 | Walking merged forms again, in any directory, changes nothing: relative includes are resolved against their own file only |
| Includes.WalkMergesOnce | stage0/src/fs.c:193-196 | Newly merged files are distinct from each other and from earlier ones, and each is named by the forms at hand or by a file merged before it |
| Includes.WalkFindsAll | stage0/src/fs.c:184-198 | Every include of the forms, and of every file merged for them, names a merged file |
| Includes.WalkConserves | stage0/src/fs.c:212-225 | Every ordinary form occurs in the result as often as in the list and in the newly merged files together |
| MergeOrder.FormsStay | stage0/src/fs.c:172-206 | The result starts with the forms of the list, each in its place: served includes with a blank head, modules and programs with their own forms in place and more behind, all others unchanged |
| MergeOrder.FilesFollow | stage0/src/fs.c:212-225 | If no include stands inside modules and programs, the result is the list followed by the forms of each newly merged file, file by file in the order of the list of included files and each in file order |
| MergeOrder.FilesFollowInside | stage0/src/fs.c:199-203 | The same where modules and programs of the list hold includes: the files merged for one stand inside it, behind its own forms |
| Arenas.PrefixDecode | stage1/src/arena/core_ops.weave:16-25 | Adding nodes changes no tree |
| Arenas.FirstAddedIsRoot | stage1/src/arena/core_ops.weave:16-25 | No link leads to the first node that was added |
| Arenas.LinkValid | stage1/src/include_expand.weave:240-256 | Linking keeps the invariant: links lead to larger ids, no node has two predecessors |
| Arenas.LinkAppends | stage1/src/include_expand.weave:240-256 | Linking behind the last child appends exactly one tree to the children |
| Arenas.LinkKeeps | stage1/src/include_expand.weave:240-256 | and changes no tree that does not contain the parent |
| Arenas.OneParent | stage1/src/arena/core_ops.weave:119-142 | A node is a child of one parent only |
| Arenas.Arena.AddNode | stage1/src/arena/core_ops.weave:16-25 | Appends a childless node whose id is the old size |
| Arenas.AppendChild | stage1/src/include_expand.weave:240-256 | Walks to the last child and links the new one behind it |
| Arenas.CopySubtree | stage1/src/include_expand.weave:194-215 | Adds behind the destination a tree equal to the source tree, and leaves all earlier nodes as they were |
| TokenParser.TokenValue | stage1/src/sexpr_parser.weave:11-39 | The scan yields the text behind the first colon, or the whole token |
| TokenParser.ParseExprAt | stage1/src/sexpr_parser.weave:71-141 | Always advances and ends; adds the tree of the expression at the position, leaves earlier nodes as they were, and returns the next position |
| TokenParser.ParseTop | stage1/src/sexpr_parser.weave:175-205 | Adds the trees of all expressions under one marked root |
| TokenParser.ParseInvertsTokens | stage1/src/sexpr_parser.weave:71-141 | On the tokens of a tree, whatever follows them, the result is that tree and the position behind it; lists that end with the tokens may lack their parentheses |
| TokenParser.TopRoundTrip | stage1/src/sexpr_parser.weave:175-205 | On the tokens of a forest, up to the end or an end mark outside all lists, the result is the forest under the mark |
| TokenParser.EveryStreamReads | stage1/src/sexpr_parser.weave:71-205 | Every token stream is that of a forest and parses to it: a stray closing parenthesis is an empty atom, and so is the end mark inside a list; missing closing parentheses are supplied at the end |
| TokenParser.ValueOfToken | stage1/src/sexpr_parser.weave:126-131 | An atom keeps the text behind its class, colons included; string literals alone are marked |
| Expansion.IsPrintablePath | stage1/src/include_expand.weave:34-66 | The loop accepts exactly the printable paths |
| Expansion.DirnameOf | stage1/src/include_expand.weave:80-93 | The backward scan yields what precedes the last slash |
| Expansion.DirnameSplits | stage1/src/include_expand.weave:80-93 | The directory of a path is what stands before its last slash, or empty |
| Expansion.ResolveCases | stage1/src/include_expand.weave:107-128 | Paths from the three roots and absolute paths stay as they are, others are seen from the current directory, without a leading `./` |
| Expansion.ParseFileInto | stage1/src/include_expand.weave:144-175 | Looks a file up in three places and adds its tree, or adds nothing |
| Expansion.ReadIncludeAt | stage1/src/include_expand.weave:286-328 | The tests on ids tell ordinary lists, includes and malformed includes apart as the tree says |
| Expansion.Expand | stage1/src/include_expand.weave:329-334 | The pure expansion only extends the list of visited paths and never visits a path twice |
| Expansion.ExpandChildren | stage1/src/include_expand.weave:276-450 | Terminates; returns 0 exactly when the pure expansion succeeds, and then the destination node has exactly its trees as further last children and the visited paths are its; in any case the node only gets further last children, the visited paths only grow, and every destination tree that does not contain the node is as it was |
| Expansion.SpliceForms | stage1/src/include_expand.weave:355-386 | The same for the forms of one parsed file, modules opened and others copied |
| Expansion.ExpandRoot | stage1/src/include_expand.weave:478-516 | The same for a file's first form, as a new root of the destination; all earlier trees stay, also if it fails |
| Expansion.ExpandConserves | stage1/src/include_expand.weave:329-386 | Every plain child and every plain form of each newly visited file is in the result exactly as often as it was there |
| Expansion.ExpandServesAll | stage1/src/include_expand.weave:323-386 | No include is lost: every include of a printable path among the children, and in the modules of every file visited on the way, has been visited |
| Leftovers.IncludesLeftExactly | stage1/src/include_expand.weave:323-350 | The includes of printable paths in the result are exactly as many as the visited paths that do not load and the includes that stand outside modules in visited files together; so an include of a path already visited leaves nothing |
| Leftovers.IncludesLeft | stage1/src/include_expand.weave:323-350 | The same from any list of visited paths, counting the newly visited |
| Leftovers.StraysLeft | stage1/src/include_expand.weave:284-328 | Empty lists and malformed includes are in the result exactly as often as newly visited files hold them outside modules |
| Leftovers.ExpandInOrder | stage1/src/include_expand.weave:276-450 | All that comes of earlier children stands before all that comes of later ones, which see the paths visited by then |
| Leftovers.FileInPlace | stage1/src/include_expand.weave:355-386 | The forms of an included file without includes take the place of the include, in file order, modules opened |
| Leftovers.MalformedStops | stage1/src/include_expand.weave:299-328 | An include whose path is a list or empty stops the expansion of its list, wherever it stands |
| Expansion.ExpandOff | stage1/src/include_expand.weave:441-444 | Without permission to expand, the children are copied as they are |
| Growable.GrowArray.Grow | stage1/src/buffers.weave:32-59 | Growing keeps the contents, meets the request with a power of two below twice the largest request (or the first capacity), and all elements ever moved never exceed the capacity |
| Growable.GrowArray.Append | stage1/src/arrays.weave:301-316 | Appends one element |
| Growable.GrowArray.AppendAll | stage1/src/buffers.weave:163-178 | Appends a whole string |
| Growable.GrowArray.Set | stage1/src/arrays.weave:365-379 | Replaces one element, or fails outside the array and changes nothing |
| Growable.DoublingFits | stage1/src/buffers.weave:40-41 | Up to requests of 2^30 the doubling loop stays within 32 bits |
| Growable.GrowthHangs | stage1/src/buffers.weave:40-41 | Above that, in 32-bit arithmetic, no number of doublings meets the request |
| Strings.IntTextIsExact | stage1/src/string.weave:327-358 | The produced text is the decimal numeral, signed only when negative, if and only if the number is not -2^31 |
| Strings.MinTextIsWrong | stage1/src/string.weave:336-347 | For -2^31 the text ends in the character 40 |
| Strings.IntToString | stage1/src/string.weave:327-358 | The two loops over growable arrays produce that text |
| Strings.StringSlice | stage1/src/string.weave:209-231 | Copies the part of the text within its bounds, whenever start and length add up within 32 bits |
| Strings.FarEndTest | stage1/src/string.weave:219 | The test of the far end is right if and only if they add up; if not, the length is not cut and at least 2^30 characters are to be appended, which growing cannot meet unless the text itself has 2^30 |
| Decimal.NumeralIsExact | stage0/src/ir.c:34-48 | A printed number denotes itself and has no leading zero |

## Left out

- Correctness.CompilePreservesMeaning: `ProgramOk` asks for declared functions called at their arity and for the declared types wherever stage0 converts nothing; what it emits for other programs is not typed.
- EndToEnd.CompilerIsCorrect: functions whose parameter forms stage0 reads differently for calls and for the definition are outside; `Reading.CallsAgreeExactly` says which they are.
- Escapes.DominatesExactly: nothing is said of functions for which stage0 stops with a type mismatch, since it emits nothing for them; an undeclared `set` target is kept apart from temps and incoming parameters even if it is spelled like one.
- Typing.EmittedIsTyped: claimed for functions that obey the rules; where an explicit `return`, a `set` or a `let` gets a value of another type, stage0 emits ill-typed code, and only the allocas are covered (`Allocas.AllocasAgree`).
- MergeOrder.FilesFollowInside: where merged files hold includes inside modules, or modules of the list hold modules with includes, `FormsStay` gives the places of the own forms and `Includes.WalkConserves` the number of the merged ones, not the order among the latter.
- Safety.StuckOnlyOnFaults: variables of struct or `Void` type are outside, since no value of the model has such a type.
- Arenas.AppendChild: requires a child with a larger id than the parent and its children, as at every call in the modelled code; the source would link others as well.
- Simulation.SimStmt: every run of a `let` makes a new cell that lives until its call returns, as an LLVM `alloca` does; that a loop may so exhaust the stack is not modelled.
- Growable.GrowArray.Grow: allocation always succeeds, and sizes in bytes are not computed, so overflow of capacity times element size is not modelled.
- Strings.StringSlice: texts of at most 2^30 bytes; where start and length do not add up within 32 bits, `FarEndTest` states the failure, not the run.
- Includes.Merger.MergeList: node lists are values that are returned, so sharing of nodes between lists, and a head blanked through a second reference, are not captured.
- Expansion.ExpandChildren: when it returns -1, which trees have been added below the node is not stated.
- Expansion.SpliceForms: the branch for a parsed file without the top mark is not modelled, since the parser always puts it there.
- Lexing.Lexer.LexNext: sources are C strings; contents behind a zero byte are not seen.
- Expression forms `block`, `addr-of`, `make`, `get-field`, `ptr-add`, `bitcast`, `ccall` and `llvm-jit`, the statement `set-field`, and string literals inside functions: they need a byte-level memory.
- The textual form of instructions, and the separators of a printed parameter list; the output is a sequence of instructions per function.
- Embedded tests (`tests` sections are only required to be there), test mode and its synthetic main function.
- Struct definitions, type declarations in the output, the predefined functions' bodies and external declarations.
- Reading files, `realpath` and line limits: a finite map of paths to contents; files that cannot be read are absent.
- Numbers beyond 64 bits in literals follow glibc's `strtol`.
- Stage1's tokenizer, type checker, lowering and IR generation; files are given as token lists.
- Diagnostics' texts, statistics, debug output, command-line handling, LLVM and linking.
