# Verified models of FinSH, the POSIX layer and the DM9000 transmit path

A Dafny model of the parts of this repository that carry global invariants, with proofs about them.

**FinSH** is a small compiler: a line typed at the shell goes through a lexer, a recursive-descent parser, a
pool of 16 tree nodes, an address and width check, a byte-code compiler with a 128-byte text segment, and a
stack machine with 64 slots. Each stage is modelled twice, as functions and as classes that update their fields
and arrays in place, and the classes are proved to compute the functions. On top of them the stages are
composed: the meaning of a line, in a semantics of FinSH's own, is defined independently of the compiler (`Source.dfy`,
`Meaning.dfy`), and `Shell.ShellCorrect` says that typing it in, however it is spelled, has that meaning.
`Recognition.AcceptedTokens` says which lines the parser accepts, and `Interpreter.EveryLine` what becomes of every
accepted line, well typed or not: a walk over its trees that knows no instructions. What the C code relies on without
checking it, room in the text segment and a stack that never runs empty, is `Shell.Safe`, a property of the line alone:
`Shell.SafeExactly` shows that it is neither too weak nor too strong, and `Shell.AcceptedLinesAreSafe` that for a line
the parser accepts, ill-typed or not, only the size of its code matters, unless it names a variable of type `void` or
`void*`.

| file | models |
|---|---|
| `Machine.dfy`, `Limits.dfy` | words, bytes, memory, the C operators as parameters; the sizes of tables and segments, error codes |
| `Lexer.dfy`, `Scanner.dfy`, `Numbers.dfy` | `finsh_token.c` as functions, as a class, and its number conversion |
| `Printer.dfy`, `Spelling.dfy` | tokens as text, and back; the ways of writing numbers, literals and words |
| `Grammar.dfy`, `Parser.dfy` | `finsh_parser.c`, `finsh_node.c`, `finsh_var.c` as functions and as a class over the node pool |
| `Soundness.dfy` | what every parse returns |
| `Syntax.dfy`, `RoundTrip.dfy` | stratified terms and lines, their tokens and trees, and the round trip |
| `Rejection.dfy`, `Recognition.dfy` | which of these lines are refused; that the parser accepts no others |
| `Source.dfy`, `Meaning.dfy` | the expression language with its evaluator, and the meaning of terms |
| `Ast.dfy`, `Codegen.dfy`, `Compiler.dfy` | nodes and forests; `finsh_compiler.c` as functions and as a class |
| `Bytecode.dfy`, `Vm.dfy`, `Disassembler.dfy` | `finsh_ops.c` and `finsh_vm.c` as functions and as a class; the disassembler |
| `Correctness.dfy`, `Slots.dfy` | semantic preservation; the whole stack slot an expression or a line leaves |
| `Interpreter.dfy` | every tree of any types: a walk over it does what its code does |
| `CSemantics.dfy`, `Casts.dfy` | where this semantics is that of C: pointers, sums and casts |
| `Bounds.dfy`, `StackHeight.dfy` | text size and absence of errors; the height of the stack, for every forest |
| `Shell.dfy`, `Extremes.dfy` | `finsh_run_line`; lines at the limits of text segment and stack |
| `HeapSpec.dfy`, `Heap.dfy` | `finsh_heap.c` on blocks, and on headers and lists threaded through the heap array |
| `StringCopies.dfy`, `StringHeap.dfy`, `Literals.dfy` | the copies of string literals on blocks, their contents in the heap as it runs, and the literals of a parsed line |
| `Condition.dfy`, `RwLock.dfy`, `RwLockReaders.dfy` | `pthread_cond.c`, `pthread_rwlock.c` |
| `Barrier.dfy`, `MessageQueue.dfy` | `pthread_barrier.c`, `mqueue.c` |
| `Transmit.dfy` | the sender and the transmit interrupt of `dm9000a.c` |

The **heap** keeps two address-sorted lists through headers inside the heap. Its global invariant is that every
allocation splits off a remainder, so the topmost block is always free and insertion into the free list always
finds a successor; that is what makes the stale link of a block unlinked from the middle of the allocated list
harmless. The **POSIX synchronisation** objects are step machines over unboundedly many threads: a history is any
sequence of calls, steps and timeouts, and mutex and semaphore are given by their kernel contracts (a release
wakes the thread that has waited longest or counts up; a take counts down or suspends; a timed-out waiter consumes
nothing). The **transmit path** is a pipeline between sender and interrupt.

Where the code does something else than its documentation or IEEE Std 1003.1 says, the model follows the code, and
each difference has a theorem that says exactly when it shows:

- lines of n nodes with k increments all fit the text segment if and only if 6n + 12k - 1 is at most 128
  (`Extremes.TextFitsExactly`); sixteen nodes with three increments overflow it (`Extremes.ThreeIncrementsOverflow`);
- a variable of type `void` or `void*` compiles to no code, so that `1 + v` adds a value from below the stack
  (`Extremes.VoidOperandUnderflows`; the exact condition is the height of `StackHeight.LineRuns`);
- `(` in front of an operand never groups, although the grammar comment at finsh_parser.c:795 lists it: it is accepted
  if and only if what follows is a cast (`Soundness.ParenIsCast`, `Soundness.GroupingRejected`);
- a cast compiles to nothing. One to a type no wider than its operand agrees with C if and only if the type can hold the
  value (`Casts.CastAgrees`), one to a wider type if and only if the bytes above the operand are already the extension
  C asks for (`Casts.WideningAgrees`); operators of a narrow width write the low bytes of their slot only, and
  `Slots.SlotCorrect` says what the others are. `1 + (int)'a'` can be answered with -158 (`Extremes.StaleBytes`). A
  cast changes the tree only in front of the bare name of a system call (`Casts.CastRecorded`), where the number of
  the type is taken for a data type (`Casts.CastOfFunctionName`);
- a pointer is one to a double word whatever its type: reading and writing through it agree with C in every memory if
  and only if it points to a double word (`CSemantics.DerefAlwaysAgrees`, `CSemantics.DerefStoreAlwaysAgrees`; in one
  memory, `CSemantics.DerefExactly`, `CSemantics.DerefStoreExactly`), and `*p = 1` with a `char` pointer clears the
  three bytes behind (`CSemantics.CharPointerStore`);
- an address is not scaled by the size of what it points to (`CSemantics.PointerSumAgrees`), and operands narrower than
  an `int` are not promoted (`CSemantics.NarrowSumAgrees`);
- a numeric character escape always yields 0 and means what it means in C if and only if it is of at most three zeros
  (`Lexer.NumericEscape`);
- a string literal with any number of octal digits behind a backslash, with a `\x` whose digits are the sixteen
  characters from `0` to `?`, or with an unknown escape, which yields 0, is read as `Spelling.StringReadAs` says; a zero
  ends the text that is kept;
- a declaration with several initialisers performs them all if and only if it is the last statement of its line
  (`Meaning.AllInitialised`): in `int a = 1, b = 2; a;` the second is lost (`Meaning.DroppedInitialiser`);
- once a statement has left a tree an empty statement swallows the token behind it: in `1; ; 2;` the last statement is
  never seen (`Rejection.SwallowedStatement`);
- a lone `<` or `>` where a statement could begin ends the line without an error (`Recognition.TailIgnored`);
- a narrower value assigned to a wider variable brings stale bytes along: `x = 'c'` with an `int` variable is right if and
  only if the second stack slot was below 256 (`Extremes.NarrowAssigned`);
- a word at the very end of a line is delivered over and over (`Lexer.ProgressExactly`);
- the disassembler reads behind the text segment if and only if the code fills it (`Disassembler.Disassemble`; a line
  that does is given by `Extremes.FullText`);
- sizes above 0xFFFFFFF4 wrap around in the heap's size comparison (`HeapSpec.NeededBytesExact`);
- string literals of one line can be collected while it is read (`StringCopies.KeptExactly`,
  `Literals.LiteralsIntact`);
- a barrier can leave threads suspended for ever (`Barrier.ReleasedExactly`);
- a writer that times out can forsake waiting readers on a free lock (`RwLockReaders.NoLostReader`);
- the 16-bit reference count of a message queue wraps (`MessageQueue.CountsModulo`, `MessageQueue.WrapFreesOpenQueue`),
  an unlinked name can stay (`MessageQueue.UnlinkedNameGone`), and O_CREAT alone never opens an existing queue
  (`MessageQueue.CreationStandard`);
- overlapping senders can overwrite the queued packet's length (`Transmit.FifoExactly`).

## Model

| member | source | states |
|---|---|---|
| `Shell.ShellCorrect` | RTT/components/finsh/shell.c:195-236 | the whole pipeline: for every well-formed line (names known or new, well typed, at most 16 nodes, code that fits the text segment), every text that reads as it, every platform, stack and memory, typing the text in is safe, memory ends up as sequential evaluation of the statements leaves it, and the bottom of the stack holds the last value at its width; all 32 bits the shell answers with are known, and the declared variables are in the table. Right operands and assigned values may be wider than what they go with, so that `c + 100`, `c - 1`, `c << 2` and `char c = 300` are covered |
| `Shell.DeclarationsOnly` | RTT/components/finsh/shell.c:195-236 | a line that only declares variables runs too, changes no memory and leaves zero at the bottom of the stack |
| `Shell.SafeExactly` | RTT/components/finsh/finsh_vm.c:32-57 | for every line, platform, stack and memory: `Safe`, read off the line alone, holds if and only if the compiled code fits the text segment and the run stays within text and stack |
| `Shell.AcceptedLinesAreSafe` | RTT/components/finsh/shell.c:195-236 | a line parsed without error that names no variable of type `void` or `void*` is safe if and only if its code fits the text segment: mixed widths, calls in any place, ill-typed operands and variables of unknown type included |
| `Shell.ShortLinesAreSafe` | RTT/components/finsh/finsh.h:21-28 | it does when 6n + 12k - 1 is at most 128 for n nodes with k `++`/`--`, and always when k is at most two |
| `Shell.OutcomeIs` | RTT/components/finsh/finsh_vm.c:32-57 | an accepted line leaves the stack and the memory that its instructions leave one after another |
| `Shell.LineRunsExactly` | RTT/components/finsh/finsh_vm.c:32-57 | for every forest the pool can hold, the machine run over the text segment succeeds exactly when the static height is defined |
| `Shell.FinshShell.RunLine` | RTT/components/finsh/shell.c:195-236 | for every line that ends in a semicolon and is safe: a parse or compile error means no effect on memory and no value; otherwise memory, stack and answer are those of the machine run over the compiled text; the pool is clear again afterwards and the variable table is the parser's |
| `Shell.FinshShell.Execute` | RTT/components/finsh/shell.c:203-216 | compiling the tree below the root and running it only when that set no error |
| `Lexer.Progress` | RTT/components/finsh/finsh_token.c:75-128 | on every line that ends in a semicolon and holds no newline, a token other than the end takes at least one character, and at the end the end is latched |
| `Lexer.ProgressExactly` | RTT/components/finsh/finsh_token.c:75-135 | for every line without a newline or NUL: a token makes progress or reaches the end if and only if it is not a word that ends with the line; such a word is delivered with the lexer back at the start |
| `Lexer.EndIsLatched` | RTT/components/finsh/finsh_token.c:108-135 | once at the end every further token is the end again |
| `Lexer.BareWordRepeats` | RTT/components/finsh/finsh_token.c:91-102 | the shortest such line: `a` yields the identifier `a` and the same lexer state for ever |
| `Lexer.NumericEscape` | RTT/components/finsh/finsh_token.c:331-348 | a numeric escape is 0 whatever its digits, so it is the character C means if and only if it is of at most three zeros |
| `Scanner.Token.NextChar` | RTT/components/finsh/finsh_token.c:108-120 | the next character and place, in place |
| `Scanner.Token.GetString` | RTT/components/finsh/finsh_token.c:75-103 | the loop reads exactly the longest word; the buffer is left alone only when the end comes first |
| `Scanner.Token.MatchName` | RTT/components/finsh/finsh_token.c:287-301 | the table search finds a keyword exactly when the word is one, and its kind |
| `Scanner.Token.ProcChar` | RTT/components/finsh/finsh_token.c:311-353 | value, place and error of a character literal, numeric escapes included |
| `Scanner.Token.ProcString` | RTT/components/finsh/finsh_token.c:355-382 | contents, place and error of a string literal |
| `Scanner.Token.ProcNumber` | RTT/components/finsh/finsh_token.c:444-521 | kind, value modulo 2^32 and place of a number |
| `Scanner.Token.TokenRun` | RTT/components/finsh/finsh_token.c:130-285 | for every state the token kind, buffer, value, error and place of the functional lexer |
| `Printer.TokensOfText` | RTT/components/finsh/finsh_token.c:130-285 | lexing undoes writing out: for every sequence of writable tokens ending in a semicolon, the lexer returns exactly that sequence from its text |
| `Printer.TokensOfSpaced` | RTT/components/finsh/finsh_token.c:75-285 | the same for every spelling: tokens written in any way in which each is read back, with any blanks and tabs before them and none where the words do not run together |
| `Spelling.NumberReadAs` | RTT/components/finsh/finsh_token.c:444-575 | a number written with digits of base 16, 8, 2 or 10, behind `0x`, `0X`, `0`, `0b`, `0B` or nothing, in letters of either case and with a suffix `l` or `L` where one is read, is the token of its value modulo 2^32, `long` if and only if it has the suffix |
| `Spelling.NumberBack` | RTT/components/finsh/finsh_token.c:444-575 | writing any word in base 16, 8 or 2 from tables of digits and lexing it gives the word back |
| `Spelling.CharEscapeReadAs` | RTT/components/finsh/finsh_token.c:311-353 | each letter escape of a character literal, written between quotes, is the token of its code |
| `Spelling.StringReadAs` | RTT/components/finsh/finsh_token.c:355-435 | a string literal of plain characters, letter escapes, octal and `\x` escapes and unknown ones, in any order, is the token of the characters they stand for |
| `Spelling.StringCut` | RTT/components/finsh/finsh_token.c:355-382 | a string literal that fills the buffer is cut there without an error, and what is behind is lexed on |
| `Spelling.WordChars` | RTT/components/finsh/finsh_token.c:75-103 | words are exactly the sequences of letters, digits and underscores that do not begin with a digit |
| `Printer.DecimalBack` | RTT/components/finsh/finsh_token.c:495-508 | the digits written for a value below 2^32 are converted back to it |
| `Numbers.TokenSpecNumber` | RTT/components/finsh/finsh_token.c:526-575 | the loop over digits and limbs computes the limbs of the specification |
| `Numbers.LimbsExact` | RTT/components/finsh/finsh_token.c:550-570 | for digits of base 2, 8 or 16, however many, written from a table of their own: the two limbs hold the number they denote modulo 2^64 |
| `Numbers.SpecNumberExact` | RTT/components/finsh/finsh_token.c:526-575 | the result is that number modulo 2^32 |
| `Numbers.SpecNumberBack` | RTT/components/finsh/finsh_token.c:526-575 | writing a word in base 2, 8 or 16, in small or capital letters, and converting it gives it back |
| `Recognition.AcceptedTokens` | RTT/components/finsh/finsh_parser.c:80-978 | the language of the parser: for every sequence of tokens the lexer makes without an error, there is no parse error if and only if the tokens are those of some line (precedence-stratified expressions, lists of declarators, empty statements with what they swallow, up to a lone `<` or `>`), every name in it is known where it is used, every declared name is new and finds an entry, and the trees fit the pool; and then the forest and the table are those of the line |
| `Recognition.AcceptedExactly` | RTT/components/finsh/finsh_parser.c:900-978 | the same for lines of text |
| `Recognition.TailIgnored` | RTT/components/finsh/finsh_parser.c:915 | a lone `<` or `>` at the place of a statement hides whatever is behind it |
| `Rejection.LineAccepted` | RTT/components/finsh/finsh_parser.c:80-978 | a text that reads as some statements is parsed without an error if and only if its names are known or new and its trees fit the pool |
| `Rejection.SwallowedStatement` | RTT/components/finsh/finsh_parser.c:957-971 | `e; ; c;` with a token `c` is parsed to the tree of `e` alone, without an error |
| `RoundTrip.LineRead` | RTT/components/finsh/finsh_parser.c:900-978 | for every text that reads as a line whose names are known and whose trees fit the pool: the parser returns exactly the trees of the line, numbered as allocated, and the table with the declared variables; there is an error if and only if a declared name is taken or finds no entry |
| `RoundTrip.LineRoundTrip` | RTT/components/finsh/finsh_token.c:130-285 | the text in which a line is written out reads as that line |
| `RoundTrip.WordsRead` | RTT/components/finsh/finsh_token.c:75-285 | so does every other spelling of it |
| `RoundTrip.TermExact` | RTT/components/finsh/finsh_parser.c:426-445 | an expression in front of anything that does not bind to it is parsed into its tree, right-associative assignment included, consuming exactly its tokens |
| `RoundTrip.BinSpine` | RTT/components/finsh/finsh_parser.c:451-652 | the loops of the six binary levels collect operators to the left |
| `RoundTrip.CastExact` | RTT/components/finsh/finsh_parser.c:659-681 | a cast is told from an operand and its type is read back |
| `RoundTrip.TypeBack` | RTT/components/finsh/finsh_parser.c:257-376 | every type written out is read back, `unsigned` making no difference in front of a `*` |
| `RoundTrip.UnaryExact` | RTT/components/finsh/finsh_parser.c:694-734 | the unary operators, unary minus being a subtraction from a zero |
| `RoundTrip.PostSpine` | RTT/components/finsh/finsh_parser.c:742-791 | postfix operators and calls are collected to the left |
| `RoundTrip.MoreExact` | RTT/components/finsh/finsh_parser.c:848-871 | an argument list of any length is parsed into the chain of its trees |
| `RoundTrip.DeclExact` | RTT/components/finsh/finsh_parser.c:80-246 | a declaration of any number of names, each with an initialiser or without: every name enters the table with the declared type, and the trees are one assignment for each initialiser, in order, each to its own name |
| `RoundTrip.DeclaredTypes` | RTT/components/finsh/finsh_parser.c:109-205 | behind a declaration of new names each of them is looked up as a variable of exactly the declared type, in an entry that was free; the names differ; names in use before mean what they meant |
| `RoundTrip.DeclaredInOrder` | RTT/components/finsh/finsh_parser.c:98-217 | there are as many trees as initialisers, and the tree of each assigns it, read under the names declared so far, to the variable its own name means behind the whole declaration |
| `RoundTrip.DeclaredMeans` | RTT/components/finsh/finsh_var.c:27-87 | after an insertion that succeeds the name is looked up as the new variable |
| `Soundness.ParseSound` | RTT/components/finsh/finsh_parser.c:900-978 | for every line that ends in a semicolon without newline or NUL, as the shell supplies them: the result is a forest of at most 16 distinct pool nodes; without an error every operator in it has its full number of operands |
| `Soundness.AssignSound` | RTT/components/finsh/finsh_parser.c:417-895 | each level of the grammar takes nodes in order, never forgets an error, and without one returns one complete tree |
| `Soundness.DeclSound` | RTT/components/finsh/finsh_parser.c:80-246 | the same for declarations with any number of initialisers |
| `Soundness.SysSound` | RTT/components/finsh/finsh_parser.c:881-895 | a node over its operands keeps the forest distinct and complete |
| `Soundness.ParenIsCast` | RTT/components/finsh/finsh_parser.c:659-681 | a parenthesis where an operand begins is accepted if and only if it is a cast that is, and then a type follows it |
| `Soundness.GroupingRejected` | RTT/components/finsh/finsh_parser.c:659-681 | every line that begins with a parenthesis and no type behind it is rejected |
| `Parsing.FinshParser.Run` | RTT/components/finsh/finsh_parser.c:900-978 | recursive descent over the moving token state terminates on every line that ends in a semicolon without newline or NUL and leaves in the pool, below the root, exactly the forest of the functional parser, without sharing |
| `Parsing.FinshParser.AssignExpr` | RTT/components/finsh/finsh_parser.c:426-445 | in place: result, token state, error and pool are those of the grammar, and no node taken earlier has changed |
| `Parsing.FinshParser.BinExpr` | RTT/components/finsh/finsh_parser.c:451-652 | the loop of a binary level does what the recursive specification says |
| `Parsing.FinshParser.CastExpr` | RTT/components/finsh/finsh_parser.c:659-681 | casts, including the fall-back to a unary expression after a failed cast |
| `Parsing.FinshParser.UnaryExpr` | RTT/components/finsh/finsh_parser.c:694-734 | the switch over unary operators |
| `Parsing.FinshParser.PostfixExpr` | RTT/components/finsh/finsh_parser.c:742-791 | the loop over postfix operators and calls |
| `Parsing.FinshParser.PrimaryExpr` | RTT/components/finsh/finsh_parser.c:798-841 | literals, names and the error for anything else |
| `Parsing.FinshParser.ParamList` | RTT/components/finsh/finsh_parser.c:848-871 | parameters are linked behind one another in the pool in order, null ones left out |
| `Parsing.FinshParser.VariableDecl` | RTT/components/finsh/finsh_parser.c:80-246 | in place: the tree, the state, the pool and the variable table are those of the grammar function, of which `RoundTrip.DeclExact` says what they are |
| `Parsing.FinshParser.LinkStatement` | RTT/components/finsh/finsh_parser.c:915-972 | linking a statement behind the last one keeps the pool a distinct forest and drops what was linked there |
| `Parsing.FinshParser.MakeSysNode` | RTT/components/finsh/finsh_parser.c:881-895 | linking two operands under a new node in place |
| `Parsing.FinshParser.NodeAllocate` | RTT/components/finsh/finsh_node.c:30-47 | the first free entry is taken; null exactly when all 16 are taken |
| `Parsing.FinshParser.NewId` | RTT/components/finsh/finsh_node.c:49-108 | variables before system variables before system calls; an unknown name or a full pool is an error |
| `Parsing.FinshVarInsert` | RTT/components/finsh/finsh_var.c:27-53 | fails exactly when the name is taken or no entry is free, and otherwise fills the first free entry and nothing else |
| `Parsing.FinshVarLookup` | RTT/components/finsh/finsh_var.c:73-87 | the first entry of that name |
| `Meaning.TreeMeans` | RTT/components/finsh/finsh_parser.c:417-895 | the tree a term is parsed into is the tree of the expression it means in FinSH's semantics, unary plus meaning nothing |
| `Meaning.LineTree` | RTT/components/finsh/finsh_parser.c:900-978 | the statement chain is the chain of the expressions the line means |
| `Meaning.AllInitialised` | RTT/components/finsh/finsh_parser.c:915-972 | the chain of a line holds the assignments of all its initialisers if and only if no statement but the last has more than one |
| `Meaning.DroppedInitialiser` | RTT/components/finsh/finsh_parser.c:915-972 | every text of `int a = 1, b = 2; a;` with new names is parsed without an error and evaluates `a = 1` and `a` only |
| `Meaning.LineSteps` | RTT/components/finsh/finsh_compiler.c:354-694 | the long instruction sequences of a line are exactly its `++` and `--` |
| `Correctness.TreeCorrect` | RTT/components/finsh/finsh_compiler.c:28-739 | semantic preservation: for every well-typed expression of any width with at most 16 arguments to a call, right operands and assigned values of any width at least that, every stack with room and every memory, the emitted code pushes exactly the expression's value, leaves lower slots alone and has its effect on memory |
| `Interpreter.TreeIs` | RTT/components/finsh/finsh_compiler.c:28-883 | for every tree whatsoever, as the parser leaves it, in value and address position, every stack and memory: type checking it, compiling it and executing the code do what a walk over it does, on the slots, their stale bytes, the stack pointer and memory, and fail exactly where the walk does |
| `Interpreter.StatementsAre` | RTT/components/finsh/finsh_compiler.c:885-919 | the same for every line |
| `Interpreter.AcceptedExactly` | RTT/components/finsh/finsh_compiler.c:741-883 | the compiler accepts a forest if and only if no node is unknown, names a variable of unknown type, or assigns at no width |
| `Interpreter.EveryLine` | RTT/components/finsh/shell.c:195-236 | for every text that is safe and parsed without an error, mixed widths, `void` variables and calls in any place included: it is rejected if and only if a node is wrong in that way, and otherwise the shell ends with the stack and the memory of the walk |
| `Correctness.CastCorrect` | RTT/components/finsh/finsh_parser.c:659-681 | a cast that keeps the width leaves the value of its operand |
| `Correctness.AddressCorrect` | RTT/components/finsh/finsh_compiler.c:46-181 | in address position the code of an lvalue pushes its address |
| `Correctness.ArgsCorrect` | RTT/components/finsh/finsh_compiler.c:270-290 | arguments are evaluated and pushed left to right |
| `Correctness.CallCorrect` | RTT/components/finsh/finsh_ops.c:429-448 | a call takes its arguments off the stack in order, leaves one result and the system call's memory |
| `Correctness.CheckedType` | RTT/components/finsh/finsh_compiler.c:741-883 | type checking gives every well-typed tree the data type of its width, in value and address position |
| `Correctness.StoreAndReload` | RTT/components/finsh/finsh_compiler.c:293-353 | an assignment stores at the target's width and leaves the stored value |
| `Correctness.LineCorrect` | RTT/components/finsh/finsh_compiler.c:885-919 | statements with the inserted POPs evaluate in order and leave the last value in the first free slot |
| `Correctness.VmRunCorrect` | RTT/components/finsh/finsh_vm.c:32-57 | the machine stays inside text and stack, halts at the end of the text and ends with the memory and value of sequential evaluation |
| `Slots.SlotCorrect` | RTT/components/finsh/finsh_ops.c:33-607 | for every well-typed expression: the whole word in its slot, the bytes above its width included, from the expression, the memory and what the slot held before |
| `Slots.LineSlotCorrect` | RTT/components/finsh/finsh_compiler.c:885-919 | the same for a line, each statement starting from the slot the one before it leaves |
| `Casts.CastRecorded` | RTT/components/finsh/finsh_compiler.c:741-883 | a cast changes the checked tree if and only if it stands before the bare name of a system call whose node does not record the number of the type already |
| `Casts.CastOfFunctionName` | RTT/components/finsh/finsh_parser.c:659-681 | `(type) f + 1` with the name of a system call compiles an addition if and only if the type is `void`, `void*` or `char`; without the cast none is compiled |
| `Casts.CastExactly` | RTT/components/finsh/finsh_parser.c:659-681 | for a reader of any width, a cast computes what C makes of its operand if and only if the slot of the operand holds that already |
| `Casts.CastAgrees` | RTT/components/finsh/finsh_parser.c:659-681 | a cast to a type no wider than the operand agrees with C if and only if the type, signed or not, can hold the operand's value |
| `Casts.WideningAgrees` | RTT/components/finsh/finsh_parser.c:659-681 | a cast to a wider type agrees with C if and only if the bytes above the operand are the zeros or ones C extends it by; for a load they are those the slot held before |
| `Casts.CleanSlotWidens` | RTT/components/finsh/finsh_ops.c:324-350 | in a cleared slot a widened variable is right if and only if it is not a negative one of a signed type |
| `Casts.NarrowCastDiffers` | RTT/components/finsh/finsh_parser.c:659-681 | `(char)300` leaves 300 where C makes it 44 |
| `Extremes.StaleBytes` | RTT/components/finsh/shell.c:195-236 | the lines `0 + 0xFFFFFF00;` and `1 + (int)'a';` typed in one after the other: the second is answered with 0xFFFFFF62 where C makes it 98 |
| `Extremes.NarrowAssigned` | RTT/components/finsh/finsh_compiler.c:293-353 | typing `x = 'c';` in with an `int` variable stores the character in the low byte and the bytes of the second slot above: `x` is the character if and only if that slot was below 256 |
| `CSemantics.DerefExactly` | RTT/components/finsh/finsh_compiler.c:700-722 | reading through a pointer agrees with C if and only if the bytes behind what it points to are the extension of its value |
| `CSemantics.DerefAlwaysAgrees` | RTT/components/finsh/finsh_compiler.c:700-722 | it agrees in every memory if and only if the pointer's type points to a double word |
| `CSemantics.DerefStoreExactly` | RTT/components/finsh/finsh_compiler.c:293-353 | writing any well-typed value through a pointer agrees with C if and only if the bytes behind already are its upper bytes |
| `CSemantics.DerefStoreAlwaysAgrees` | RTT/components/finsh/finsh_compiler.c:293-353 | it agrees in every memory if and only if the pointer's type points to a double word |
| `CSemantics.CharPointerStore` | RTT/components/finsh/finsh_compiler.c:293-353 | `*p = 1` with a `char` pointer is well typed and clears the three bytes behind the one C writes |
| `CSemantics.NarrowSumAgrees` | RTT/components/finsh/finsh_ops.c:33-60 | a sum of unsigned operands, the left one narrower than a double word and the right one as wide or wider, is C's if and only if it fits the width of the left one |
| `CSemantics.PointerSumAgrees` | RTT/components/finsh/finsh_ops.c:54-60 | `p + n` is the address C means if and only if bytes are pointed to or n is zero |
| `Source.WidthIsUnique` | RTT/components/finsh/finsh_compiler.c:741-883 | a well-typed expression other than a call has only one width |
| `Bounds.TreeIsSilent` | RTT/components/finsh/finsh_compiler.c:741-883 | neither type checking nor code generation raises an error for a well-typed tree |
| `Bounds.LineIsSilent` | RTT/components/finsh/finsh_compiler.c:885-919 | the shell goes on to run every well-typed line |
| `Bounds.ForestSize` | RTT/components/finsh/finsh_compiler.c:183-694 | for every forest, well formed or not: n nodes with k `++`/`--` take at most 6n + 12k bytes, a byte to spare for every POP |
| `Bounds.LineSize` | RTT/components/finsh/finsh_compiler.c:885-919 | a line of n nodes with k `++`/`--` compiles to at most 6n + 12k - 1 bytes |
| `Bounds.LineFitsText` | RTT/components/finsh/finsh.h:21-28 | every line the pool can hold with at most two `++`/`--` fits the 128-byte text segment |
| `Extremes.FewIncrementsFit` | RTT/components/finsh/finsh.h:21-28 | lines of the pool fit the text segment when the size formula says so, and always with at most two increments |
| `Extremes.TextFitsExactly` | RTT/components/finsh/finsh_compiler.c:885-919 | the size formula is exact: all lines of n nodes with k increments, n at least 2k, fit the text segment if and only if 6n + 12k - 1 is at most 128 |
| `Extremes.ThreeIncrementsOverflow` | RTT/components/finsh/finsh_compiler.c:885-919 | the text `x++; x++; x++; x; ...` with ten plain uses is parsed without error into 16 nodes and compiles to 131 bytes: it is not safe |
| `Extremes.FullText` | RTT/components/finsh/finsh_vm.c:113-120 | a text that is safe and whose code fills the segment to the last byte |
| `StackHeight.LineRuns` | RTT/components/finsh/finsh_ops.c:33-607 | for every forest of at most 16 nodes, well typed or not: the line's code runs, from any state with n + 2 free slots, exactly when the static height is defined, and leaves the stack at that height, at most n up |
| `StackHeight.ForestRuns` | RTT/components/finsh/finsh_compiler.c:28-739 | the same for the code of a forest in the middle of an expression |
| `StackHeight.LineNeverUnderflows` | RTT/components/finsh/finsh_compiler.c:885-919 | every complete line of the pool whose identifiers emit code never reaches below where it started, needs at most n + 2 slots and leaves between one and n values |
| `StackHeight.Balanced` | RTT/components/finsh/finsh_compiler.c:28-739 | each tree of such a forest leaves at least one slot |
| `StackHeight.ArgsFromPool` | RTT/components/finsh/finsh_ops.c:429-448 | the pool of 16 nodes leaves a call at most 14 arguments, so that the argument vector of 16 suffices |
| `Source.NodesLimitArgs` | RTT/components/finsh/finsh_ops.c:429-448 | the same bound for source expressions, from the number of their nodes |
| `Extremes.VoidOperandUnderflows` | RTT/components/finsh/finsh_compiler.c:46-181 | the text `1 + v;` with `v` of type `void` is parsed and compiled without error and is not safe: its addition takes an operand from below the stack |
| `Compiler.CodeGenerator.TypeCheck` | RTT/components/finsh/finsh_compiler.c:741-883 | in place: afterwards the pool holds the checked forest, no other node has changed, and the error code is the last one set |
| `Compiler.CodeGenerator.Compile` | RTT/components/finsh/finsh_compiler.c:28-739 | appends exactly the code of the forest to the text and advances the compile position by its length |
| `Compiler.CodeGenerator.CompileOwn` | RTT/components/finsh/finsh_compiler.c:43-735 | the switch over node kinds emits the node's own instructions and sets its error |
| `Compiler.CodeGenerator.Emit` | RTT/components/finsh/finsh_compiler.c:24-26 | an instruction is appended byte by byte, little-endian, and the bytes behind stay zero |
| `Compiler.CodeGenerator.RunStatement` | RTT/components/finsh/finsh_compiler.c:898-917 | cutting a statement off its siblings compiles that statement alone and keeps the rest of the chain |
| `Compiler.CodeGenerator.Run` | RTT/components/finsh/finsh_compiler.c:885-919 | the text segment ends up holding the code of the whole line followed by zeros, and the first stack slot is cleared |
| `Machine.BytesRoundTrip` | RTT/components/finsh/finsh.h:32-50 | 16- and 32-bit operands read back as written |
| `Machine.LoadStore` | RTT/components/finsh/finsh_ops.c:312-420 | a load at the width and address of a store returns what was stored |
| `Machine.StoreExactly` | RTT/components/finsh/finsh_ops.c:389-420 | a store writes the low bytes of the value, the lowest first, and no other byte |
| `Machine.LoadExactly` | RTT/components/finsh/finsh_ops.c:312-387 | a load adds up the bytes at its address, the lowest first |
| `Bytecode.OpTableInverse` | RTT/components/finsh/finsh_ops.c:556-607 | the table entry at each emitted opcode number, below 48, is the operation meant |
| `Bytecode.RunEncoded` | RTT/components/finsh/finsh_vm.c:48-56 | the fetch loop over encoded instructions performs exactly those instructions |
| `Bytecode.RunZeros` | RTT/components/finsh/finsh_vm.c:48-56 | the cleared text behind the code is a run of no-ops up to the end |
| `Codegen.LineIsEncodable` | RTT/components/finsh/finsh_compiler.c:28-739 | every emitted operand fits its field |
| `Disassembler.FetchesOffsets` | RTT/components/finsh/finsh_vm.c:48-56 | the offsets at which the machine fetches are exactly the emitted instruction starts |
| `Disassembler.LineHasNoNoOp` | RTT/components/finsh/finsh_compiler.c:28-739 | the compiler never emits a zero opcode |
| `Disassembler.Disassemble` | RTT/components/finsh/finsh_vm.c:113-367 | the disassembler visits every instruction start once, in order; it stops behind the last unless the code fills the segment, and exactly then reads on behind it |
| `Vm.VirtualMachine.Call` | RTT/components/finsh/finsh_ops.c:429-448 | the loop that takes arguments off the stack, the call and its result |
| `Vm.VirtualMachine.Dispatch` | RTT/components/finsh/finsh_ops.c:33-607 | each operation updates stack, stack pointer, program counter and memory as specified |
| `Vm.VirtualMachine.Run` | RTT/components/finsh/finsh_vm.c:32-57 | the fetch loop computes the specified final state |
| `HeapSpec.RunInv` | RTT/components/finsh/finsh_heap.c:58-146 | after any sequence of allocations, collections and releases the blocks tile the heap, no two free blocks are neighbours, and the topmost block is free |
| `HeapSpec.AllocateContract` | RTT/components/finsh/finsh_heap.c:58-98 | success adds exactly one live block of the size asked for, disjoint from every survivor; failure happens exactly when after collecting no free block has room for the size and a header |
| `HeapSpec.AllocateThenFree` | RTT/components/finsh/finsh_heap.c:58-113 | releasing what was allocated without collecting restores the tiling |
| `HeapSpec.GcExact` | RTT/components/finsh/finsh_heap.c:118-146 | garbage collection releases precisely the live blocks whose data address no typed variable holds and keeps every other as it is |
| `HeapSpec.LiveDisjoint` | RTT/components/finsh/finsh_heap.c:58-113 | live blocks lie inside the heap and do not overlap |
| `HeapSpec.ListsApart` | RTT/components/finsh/finsh_heap.c:151-215 | the free and the allocated list share no header and every header is a block's |
| `HeapSpec.NeededBytesExact` | RTT/components/finsh/finsh_heap.c:64 | the size comparison is right exactly for sizes up to 0xFFFFFFF4; beyond, the 32-bit sum wraps and asks for no more than a header |
| `StringCopies.KeptExactly` | RTT/components/finsh/finsh_node.c:155-172 | on every heap and whatever the variables hold: no copy of a line's literals is lost if and only if all are granted and each collection finds the earlier ones held by variables |
| `StringCopies.CopiesKeptExactly` | RTT/components/finsh/finsh_node.c:155-172 | when no variable holds the first copy: if and only if it is granted and none of the others needs a collection |
| `StringCopies.KeptApart` | RTT/components/finsh/finsh_node.c:155-172 | intact copies lie in live blocks that do not overlap |
| `StringCopies.KeptAreLive` | RTT/components/finsh/finsh_node.c:155-172 | intact copies are that many different live blocks at the end |
| `StringCopies.FreshHeapExactly` | RTT/components/finsh/finsh_heap.c:58-98 | on the empty heap: exactly when there is one literal only and it has room, or all together with their headers leave a unit of the heap |
| `StringCopies.CollectingReuses` | RTT/components/finsh/finsh_heap.c:118-146 | with no variable set, a copy that needs a collection gets the address of the first literal |
| `StringCopies.TenLiterals` | RTT/components/finsh/finsh_heap.c:58-98 | ten literals of one character are too many for the empty heap |
| `StringHeap.NewCopy` | RTT/components/finsh/finsh_node.c:166-169 | in place: the heap stays valid, the new block holds the text and its zeros, the payloads of all survivors are unchanged, null exactly when nothing is granted |
| `StringHeap.TextsReadable` | RTT/components/finsh/finsh_node.c:155-172 | if no copy is lost, every literal can be read in its block after the last copy, whatever was allocated behind it |
| `StringHeap.HeldSpells` | RTT/components/finsh/finsh_node.c:166-169 | in a memory that shows the heap, the characters of such a text and a zero stand at its address |
| `Literals.LiteralsPlaced` | RTT/components/finsh/finsh_node.c:155-172 | reading a line takes one copy for each literal, in the order of the nodes, and the string nodes of the trees that are kept hold the addresses of theirs |
| `Literals.LiteralsIntact` | RTT/components/finsh/finsh_node.c:155-172 | the literals of a line are all intact, each in a live block of its own, under the exact condition of `StringCopies.KeptExactly` |
| `Literals.LiteralsReadable` | RTT/components/finsh/finsh_node.c:155-172 | then each string node of the parsed line points at the text of its literal |
| `Literals.CopiesCanBeTaken` | RTT/components/finsh/finsh_node.c:155-172 | every environment can be given the copies of a line |
| `Heap.FinshHeap.constructor` | RTT/components/finsh/finsh_heap.c:40-53 | one free block fills the heap and the allocated list is empty |
| `Heap.FinshHeap.Alloc` | RTT/components/finsh/finsh_heap.c:58-98 | in place: headers and both threaded lists again describe a valid heap, the result is the specified block, its payload is zero, and the payloads of all survivors are unchanged |
| `Heap.FinshHeap.Free` | RTT/components/finsh/finsh_heap.c:100-113 | in place: unlinking a block from the allocated list and inserting it into the free list never leaves a stale link, merges with both neighbours and keeps all other payloads |
| `Heap.FinshHeap.Collect` | RTT/components/finsh/finsh_heap.c:118-146 | the walk over the allocated list terminates while freeing under itself and does what the specification says |
| `Heap.FinshHeap.BlockInsert` | RTT/components/finsh/finsh_heap.c:151-188 | inserting into an address-sorted list threaded through the heap; a header that goes last must bring its own end of list |
| `Heap.FinshHeap.BlockRemove` | RTT/components/finsh/finsh_heap.c:190-215 | removing from such a list writes no word but links |
| `Heap.FinshHeap.BlockSplit` | RTT/components/finsh/finsh_heap.c:217-231 | the remainder gets a header of its own and takes the block's place in the free list |
| `Heap.FinshHeap.BlockMerge` | RTT/components/finsh/finsh_heap.c:233-283 | a block that joined the free list is merged with exactly its free neighbours |
| `Heap.FinshHeap.IsUnused` | RTT/components/finsh/finsh_heap.c:124-137 | the loop over the variables finds whether any typed one holds the address |
| `RwLock.Exclusion` | RTT/components/pthreads/pthread_rwlock.c:95-265 | in every interleaving of any number of threads: never two writers, never a writer with a reader; the count is -1 exactly for one writer and otherwise the number of readers; the wait counters are the threads in their wait windows |
| `RwLock.Admission` | RTT/components/pthreads/pthread_rwlock.c:95-210 | a reader is admitted only when no writer holds the lock or waits; a writer only when nobody holds it |
| `RwLock.AdmittedExactly` | RTT/components/pthreads/pthread_rwlock.c:95-210 | in every reachable state: a reading call that tests the lock is granted if and only if no writer holds it or waits, a writing call if and only if nobody holds it; a granted call gains exactly that hold and returns success, a refused try returns EBUSY with nothing new, and any other call counts itself as a waiter |
| `RwLock.WaitingRound` | RTT/components/pthreads/pthread_rwlock.c:106-208 | a waiter gives up the mutex, takes a token or queues last, and tests the lock anew when woken; without having been woken it returns ETIMEDOUT |
| `RwLock.TimeoutExactly` | RTT/components/pthreads/pthread_rwlock.c:130-208 | exactly a suspended call with a limit can time out, and that changes no hold |
| `RwLock.EntryAndExit` | RTT/components/pthreads/pthread_rwlock.c:95-265 | a call begins by taking the mutex when it is free and ends by giving it back, and neither changes who holds the lock |
| `RwLock.UnlockExactly` | RTT/components/pthreads/pthread_rwlock.c:212-265 | a holder that unlocks gives back exactly one hold of its own: a writer waiting on a lock left free is woken, or a token left; without waiting writers all suspended readers are woken; otherwise nobody |
| `RwLock.SuccessHolds` | RTT/components/pthreads/pthread_rwlock.c:95-265 | a call about to return success holds what it asked for |
| `RwLock.NoLostWakeup` | RTT/components/pthreads/pthread_rwlock.c:212-265 | whenever the lock is free, the mutex unheld and a writer waits, a token is pending for writers or a woken writer is on its way, timed writers and try-locks included |
| `RwLock.NextInv` | RTT/components/pthreads/pthread_rwlock.c:95-265 | every step of every call keeps the invariant behind these results |
| `RwLockReaders.NoLostReader` | RTT/components/pthreads/pthread_rwlock.c:70-265 | for every history of any number of threads: waiting readers are never left without a wakeup on a free lock if and only if no timed-out writer that was the last to wait leaves a free lock nobody is coming for |
| `RwLockReaders.NextReaders` | RTT/components/pthreads/pthread_rwlock.c:160-186 | each step keeps that rule unless it is such a leaving, and that always breaks it |
| `RwLockReaders.ForsakenReader` | RTT/components/pthreads/pthread_rwlock.c:160-186 | a run of three threads after which a reader stays suspended on a lock nobody holds, every other thread is outside, and no thread can make a step |
| `Condition.ConditionVariable.BroadcastAll` | RTT/components/pthreads/pthread_cond.c:89-120 | terminates, wakes everybody suspended at the call in FIFO order, and leaves the larger of one and the old value |
| `Condition.ConditionVariable.Signal` | RTT/components/pthreads/pthread_cond.c:122-133 | wakes the longest waiting thread or leaves a token |
| `Barrier.NobodyReleasedEarly` | RTT/components/pthreads/pthread_barrier.c:57-77 | in every run no call is on its way to success before as many have arrived as the barrier was made for |
| `Barrier.LateCallersRejected` | RTT/components/pthreads/pthread_barrier.c:65 | once all have arrived every later call ends in EINVAL |
| `Barrier.EveryCallAccounted` | RTT/components/pthreads/pthread_barrier.c:57-77 | after every history the calls counted are exactly those still inside and those that returned with success: no counted call ever leaves with EINVAL |
| `Barrier.DecidesExactly` | RTT/components/pthreads/pthread_barrier.c:62-76 | a call under the mutex gets EINVAL once all have arrived, releases everybody suspended and returns with success as the last one, and is counted and waits otherwise |
| `Barrier.ReleasedExactly` | RTT/components/pthreads/pthread_barrier.c:66-73 | when the last arrival finds k threads between unlocking and taking, exactly k - 1 of them stay suspended for ever: all are released if and only if k is at most 1 |
| `Barrier.LostWakeup` | RTT/components/pthreads/pthread_barrier.c:66-73 | a run of three threads in which one is left behind |
| `MessageQueue.CountsModulo` | RTT/components/pthreads/mqueue.c:88-167 | after every history: the 16-bit reference count is the number of open handles modulo 2^16, a queue is listed until it is freed, and it is freed only once unlinked and with a multiple of 2^16 handles open |
| `MessageQueue.Lifetime` | RTT/components/pthreads/mqueue.c:244-289 | after every history in which no queue ever has 2^16 handles open: the reference count is the number of open handles, and a queue is freed, and unlisted, exactly when it has been unlinked and its last handle is closed |
| `MessageQueue.WrapFreesOpenQueue` | RTT/components/pthreads/mqueue.c:136-142 | one creation and 65535 further openings, then unlinking: the queue is freed with 65536 handles open |
| `MessageQueue.HandlesCanBeClosed` | RTT/components/pthreads/mqueue.c:244-264 | with fewer handles every open handle's queue is still listed and can be closed |
| `MessageQueue.CreationGives` | RTT/components/pthreads/mqueue.c:99-134 | a handle given by O_CREAT is a new address, one handle of a new queue of that name listed first, everything else unchanged; otherwise nothing changes and the reply is EEXIST exactly for O_EXCL on a listed name and ENFILE without memory |
| `MessageQueue.OpeningGives` | RTT/components/pthreads/mqueue.c:135-167 | a handle given without O_CREAT is that of the first listed queue of the name: its count and its handles go up by one and nothing else changes; otherwise nothing changes, no listed queue has the name, and the reply is ENOENT |
| `MessageQueue.UnlinkingGives` | RTT/components/pthreads/mqueue.c:266-289 | unlinking is answered with success if and only if a listed queue has the name; it marks the first of them, or frees it with a count of zero, and touches no handle and no other queue |
| `MessageQueue.ClosingGives` | RTT/components/pthreads/mqueue.c:244-264 | closing gives one handle back and touches no other queue; the queue goes if and only if it was unlinked and its count is used up |
| `MessageQueue.ExclusiveCreation` | RTT/components/pthreads/mqueue.c:106-113 | exclusive creation succeeds exactly when no listed queue has the name and memory is granted |
| `MessageQueue.UnlinkedNameGone` | RTT/components/pthreads/mqueue.c:266-289 | unlike in IEEE Std 1003.1, opening an unlinked name fails if and only if the queue unlinked had a count of zero and no other listed queue has the name |
| `MessageQueue.CreationStandard` | RTT/components/pthreads/mqueue.c:99-134 | O_CREAT without O_EXCL does what IEEE Std 1003.1 asks if and only if no listed queue has the name |
| `MessageQueue.PosixMq.MqOpen` | RTT/components/pthreads/mqueue.c:88-167 | new state and reply as specified, invariant kept |
| `MessageQueue.PosixMq.MqClose` | RTT/components/pthreads/mqueue.c:244-264 | new state as specified, invariant kept |
| `MessageQueue.PosixMq.MqUnlink` | RTT/components/pthreads/mqueue.c:266-289 | new state and reply as specified, invariant kept |
| `MessageQueue.PosixMq.Delete` | RTT/components/pthreads/mqueue.c:17-45 | the search from the head removes exactly the queue meant |
| `Transmit.WritePacket` | MySouce/dm9000a.c:390-423 | the words written are the packing of the concatenated buffers, however the bytes are divided |
| `Transmit.UnpackPack` | MySouce/dm9000a.c:398-423 | the words determine the bytes: nothing is lost or reordered and at most one zero is added |
| `Transmit.Pipeline` | MySouce/dm9000a.c:425-452 | for senders that do not overlap, under any completion interrupts: sem_ack + packet_cnt is 1 outside a call and 2 inside, at most two packets are under way, and requests carry the right lengths in FIFO order |
| `Transmit.FifoExactly` | MySouce/dm9000a.c:425-452 | for every history in which no packet finds 2^8 others under way, overlapping or not: requests keep the order and lengths of the packets, in every way the packets under way can finish, if and only if each packet that found one queued had the length already queued |
| `Transmit.FifoKept` | MySouce/dm9000a.c:425-452 | that condition suffices for every history, the wrap of the byte-wide counter included |
| `Transmit.CountsModulo` | MySouce/dm9000a.c:425-452 | for every history: sem_ack and the packets under way balance, packet_cnt is their number modulo 2^8, and two requests are open at once if and only if more than 2^8 are under way |
| `Transmit.EverySenderLeaves` | MySouce/dm9000a.c:425-452 | after every history, overlapping or not, the packets under way can complete and every waiting sender takes an acknowledgement, until the pipeline is as at the beginning |
| `Transmit.ThirdPacket` | MySouce/dm9000a.c:439-452 | one completion shows the loss: the queued packet is requested with its own length if and only if the packet handed over behind it has the same length |
| `Transmit.OverlapOverwrites` | MySouce/dm9000a.c:439-452 | two overlapping senders are enough to lose a length |
| `Transmit.Dm9000.Tx` | MySouce/dm9000a.c:379-449 | enqueueing a packet as specified, with its words in transmit memory |
| `Transmit.Dm9000.WaitAck` | MySouce/dm9000a.c:446-452 | taking the acknowledgement as specified |
| `Transmit.Dm9000.TransmitDone` | MySouce/dm9000a.c:200-224 | the interrupt as specified |

## Left out

- Shell.FinshShell.RunLine: requires `Safe`, because the C code overruns its text segment or its stack otherwise; `Shell.SafeExactly` shows that nothing more is required. Lines end in a semicolon and hold no newline and no NUL, as `finsh_run_line` is given those that fit the line buffer; after 80 characters shell.c:427 goes back to its start without clearing it, and old text can follow the semicolon. Without a final semicolon `Lexer.ProgressExactly` applies.
- Parsing.FinshParser.Run: the same lines; on others the lexer may never reach the end.
- Shell.FinshShell.Execute: requires the static height to be defined, for the same reason.
- Vm.VirtualMachine.Run: requires that the run stays within text and stack, for the same reason.
- Bounds.LineFitsText: holds for at most two `++`/`--`; `Extremes.TextFitsExactly` is the bound for any number.
- Correctness.TreeCorrect: right operands and assigned values narrower than what they go with, `void` and `void*` variables and a call as the leftmost operand leave stale high bytes or no opcode at all, and so have no value of their own; what they do to the stack and to memory is the subject of `Interpreter.TreeIs`, and casts that change the width that of `Casts.CastExactly`. Memory is modelled apart from the text segment and the stack, so writes through a pointer into either are not covered.
- RoundTrip.LineRoundTrip: names that are words, and string literals without escapes and shorter than the buffer; other spellings are the subject of `RoundTrip.WordsRead`. Names are taken by their first 16 characters, the byte behind which C leaves uninitialised and the model takes as zero.
- Recognition.AcceptedExactly: lines without a lexical error. A token with one is an error of the parse as soon as it is read; behind a lone `<` or `>` it never is.
- Scanner.Token.ProcString: a string literal of 128 characters or more runs over the token buffer in C; the model ends it there. Words longer than the buffer are not limited (the shell's lines are shorter than it).
- Scanner.Token.ProcChar: a numeric escape of four or more digits runs over the four bytes of `buf` (finsh_token.c:314, 339) in C; the model reads any number of digits.
- Heap.FinshHeap.Alloc: sizes up to 0xFFFFFFF4, measured in units of four bytes with headers of two units; what lies beyond is stated by `HeapSpec.NeededBytesExact`. Releasing an address that is not a live block is not modelled.
- Parsing.FinshParser.NewString: the address of a string copy is a parameter for each node; `Literals.LiteralsReadable` is about parameters that are what the heap grants and memories that show the heap. Writing through a null pointer, when a copy is not granted, is not modelled.
- StringCopies.CopiesKeptExactly: the first copy gets an address that no variable holds already; `StringCopies.KeptExactly` asks for nothing.
- MessageQueue.PosixMq.MqClose: requires an open handle; a surplus close underflows the count in C.
- MessageQueue.Lifetime: fewer than 2^16 handles to a queue; beyond, `MessageQueue.CountsModulo` holds.
- Transmit.Pipeline: senders that do not overlap; all others are the subject of `Transmit.FifoExactly`.
- Transmit.FifoExactly: fewer than 2^8 packets under way when one is handed over; `Transmit.FifoKept` and `Transmit.CountsModulo` hold beyond.
- RwLock.Exclusion: unlocking is called only by a holder; the calls are modelled as steps between scheduling points, not as methods.
- CSemantics.NarrowSumAgrees: unsigned operands and addition only, on platforms that add words modulo 2^32.
- Meaning of the C operators at each width, including division by zero, shifts out of range and sign: a parameter (`Machine.Platform`), and so are system calls and the system tables.
- `finsh_var_delete` (finsh_var.c:55-71), POSIX semaphores, `clock_time.c`, lock destruction and the attribute functions: no invariant to state, or the code does not do what its name says.
- Kernel semaphores: their 16-bit value is unbounded here.
- Line editing, history, completion, printing, thread creation, receive path, PHY and bus set-up: input, output and hardware access.
