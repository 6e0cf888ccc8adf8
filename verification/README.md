# Verified models of the toolchain

The repository holds a small language twice, as a current toolchain (`bootstrap/`) and as an older
tree-walking interpreter (`bootstrap-olg/`), and two algorithms written in that language
(`HASH_MAP.md`, `MERGE_SORT.md`). This project models their hard parts in Dafny and proves what
they are meant to do. `dafny verify dfyconfig.toml` checks everything.

**The tree machine** (`Ast`, `Walker`, `WalkerMachine`, `RegularTables`). The walker replaces recursion by an array of
tasks with phase counters and runs four operation tables. An operation table is a function value from an
operation, a node and a context to a new context, an answer and perhaps a fault; the walker is proved for
every such table: it ends, it fits into `2*height-1` slots, and it is the recursive traversal. The walker as a
machine on its array calls the operations of one of the four machines through a header.

**The four tables.** `Exec` proves the executor equal to a direct recursive evaluator with lexical scopes.
`Bits` and `ExecLaws` say what its arithmetic is worth.
`Checker` proves the checker equal to recursive typing rules, and `Soundness` relates the two: what an
accepted program cannot do at run time. Their domain are the well-shaped programs (`Ast.IsExpr`,
`Ast.IsStmt`): integers and booleans, `+ - * /` and unary minus, expression-ifs with two expression arms,
statement-ifs with statements or blocks as arms, and identifiers as assignment targets. `Dump` proves the
tree dump equal to a recursive printer, `DumpReads` that the dump tells the tree, and `Free` that freeing releases
every node once and never reads a released one. The operations that change fields in the source are methods of classes (`ExecMachine`,
`TypeChecker`, `AstDump`, `AstFree`), each proved to be the entry of its table, and the
walker runs through them. `BlockNode` is the growing array of a block.
`Drivers` holds the commands that run a walker of `2*height+1` slots over a machine, from the parsed tree, or the tokens,
to the exit code.

**The parser.** `Grammar` holds the grammar tables and reducers, `Engine` the meaning of the interpreter
that runs them, `ParserMachine` the interpreter itself with its checkpoints and its newline cache.
`Printing`, `PrintParse` and `RoundTrip` prove that printed expressions parse back in every layout;
`Programs`, `ProgramParse` and `ProgramRoundTrip` prove the same of whole programs, with the exact recursion depth that
each takes; `Dangling` shows what the parser accepts beyond them, `GivingUp` and `GivingUpPrograms` what it releases
where a parse is given up. `Refusals` says where rules refuse, and `ParserSafety` that no token stream breaks a reducer.

**The lexer.** `Scanner` says how a text is cut into pieces, `ScannerMachine` is the reader and the character loop that cut
it, `Words` the keyword table and the scanning of operators, `Places` what lines and columns are. `TokenLog` is
the replayable log of steps over the pieces, `LexerMachine` the lexer itself, the log over the character loop.
`Spelling` writes tokens out as text, and `Sources` puts lexer and parser together, from text to text.

**Maps and sorting.** `ProbeTable` and `HashMap` are the open-addressed map with backward-shift deletion,
`Hashing` and `ChainMap` the chained map, `MergeSort` the stable bottom-up sort.

**The older interpreter.** `FlowLanguage`, `FlowSemantics`, `FlowMachine` and `FlowFuel` prove that one shared
flag and a stack of catch frames implement structured outcomes; `FlowCases` looks at two corners of them. `FlowLaws`
says what names, operators, conditions, patterns and parameters mean there, and `FlowScopes` that scopes are lexical in
every run. `Ladder` and `LadderMachine` prove that the precedence ladder parses what is printed with the fewest
parentheses, `LadderLaws` which operator of two takes the operand between them.

**The virtual machine.** `Commands` says what a command list means and how it is laid out as bytes, `Vm` runs
the bytes, and `VmLaws` says what the commands compute.

## What the proofs brought to light

- The checker accepts a bare definition in an if-arm as if it always took place. Exactly when checker and executor stay in
  step says `Soundness.StaysInStepIff`, that then no accepted program misses a name, `Soundness.InStepProgramsRun`
  (an instance: `Soundness.BareDefinitionsEscapeTheirArm`).
- The checker does not compare the two sides of an assignment. A bool variable stays 0 or 1 where every assignment is
  typed, and at an assignment exactly if the value is 0 or 1 (`Soundness.TypedProgramsConform`,
  `Soundness.AssignmentConformsIff`; an input: `Soundness.AssignmentsAreNotTyped`).
- An operator without a right operand is read and dropped exactly behind a chain of its level (`Dangling.DroppedIff`);
  behind a lone operand one operator of the level is given back and the other makes the rule refuse
  (`Dangling.DanglingOperatorIs`). So a program can be read that is too deep once it is printed
  (`Dangling.OneParseIsNotEnough`); exactly when it is not says `ProgramRoundTrip.WhatIsParsedReprints`, and that written
  programs never are, `ProgramRoundTrip.WhatIsWrittenReprints`.
- Given up at the depth limit behind the second operator of a chain, a parse releases the operand before it twice
  (`GivingUp.TwiceIff`; for whole programs `GivingUpPrograms.ProgTwiceIff`, an input:
  `GivingUpPrograms.EchoReleasesTwice`); a parse that is not given up releases nothing twice (`GivingUp.OnlyIfGivenUp`).
- The second production of `braced_block` ends in a reducer that asserts it has no arguments, where it would be
  handed three. The parser is still safe, because that production is never completed
  (`ParserSafety.SecondProductionIsFaulty`, `ParserSafety.BracedIsSafe`).
- A rewind forward to the end of the token log misplaces the tokens lexed next, exactly if the lexer does not stand
  behind its last logged step (`TokenLog.RewindIsSafeIff`; an input: `TokenLog.ForwardRewindsMisplace`). The parser only
  rewinds backwards (`ParserMachine.RuleGoesForward`).
- A NUL that the lexer reads ahead is lost, and what stands behind it on its line gets a column that is too small, by as
  many as were lost (`Scanner.PieceStandsAt`; an input: `Scanner.NulMisplaces`).
- A NUL that begins a token is read as a name without letters, the one thing that cannot be written out again
  (`Sources.TextRoundTrips`; an input: `Sources.NulDoesNotRoundTrip`). Any other character that means nothing, such as `@`,
  is a name, too (`Spelling.IsName`).
- The two range operators are in the keyword table, but scanning never finds them: two dots are no operator
  (`Words.ScanMissesRangesOnly`).
- The step of a counting loop of the older interpreter may be an expression, but only an assignment or a `match` can be
  executed there: behind any other step the loop dies (`FlowCases.ExpressionStepsRunOnce`; an input:
  `FlowCases.CallStepDies`), and a `match` arm that breaks does not end the loop but makes its next condition fail
  (`FlowCases.StepDecides`; an input: `FlowCases.BreakingStepDies`).
- A labelled `continue` of the older interpreter ends the loop it names instead of continuing it
  (`FlowCases.LabelledIteration`, `FlowCases.LabelledRange`; an input: `FlowCases.ContinueByLabelEnds`).
- `HASH_MAP.md:162` calls `probeEmpty` with the key alone; it is read as probing the map's own buckets.

## Model

| member | source | states |
|---|---|---|
| Ast.ListHeight | bootstrap/ast.c:139-172 | The height a block is built from is at least the height of every statement in it. |
| Walker.StepDecreases | bootstrap/walker.c:85-177 | Whatever the operation table answers, one turn of the loop lowers the work that the tasks on the stack stand for: every walk ends. |
| Walker.PerformWork | bootstrap/walker.c:85-177 | What a phase hands to new tasks is bounded by the work it accounts for, also when both arms of a condition are chosen. |
| Walker.ChildrenAreLower | bootstrap/walker.c:85-177 | Every task pushed under a node needs at least one slot less than the node, and a then-arm, pushed on top of the else-arm, two less: the induction step of the stack bound. |
| Walker.DriveRun | bootstrap/walker.c:55-182 | With `2*height-1` slots above what is already on the stack, driving the stack machine from a pushed task ends exactly as running that task by itself and going on below it; no overflow, for any table. |
| Walker.DriveArms | bootstrap/walker.c:119-159 | The same where an operation table chooses one arm, the other, both or none: two tasks wait above their parent and still fit. |
| Walker.RunIsTraverse | bootstrap/walker.c:85-177 | Running one task through its phase counter is the recursive traversal of its node. |
| Walker.BlockIsTraverse | bootstrap/walker.c:160-166 | The phase counter of a block visits its statements one after the other between scope push and scope pop. |
| Walker.WalkIsTraversal | bootstrap/walker.c:55-182 | For every tree and every operation table, `2*height-1` slots suffice and the walk has the outcome and the final context of the plain recursive traversal. |
| Walker.WalkCarries | bootstrap/walker.c:55-182 | Where one table does on the image of every context what another does on the context, the two walks do the same: what a walk over a machine of any kind rests on. |
| WalkerMachine.AnyWalkIs | bootstrap/walker.h:16-42 | A walk through the header of a machine is the walk with that machine's own table, for all four machines. |
| WalkerMachine.CallHeader | bootstrap/walker.h:16-42 | Calling an operation through the header changes the machine behind it as its table says, with the same answer and fault. |
| WalkerMachine.Walker.constructor | bootstrap/walker.c:9-27 | A new walker over a machine has an empty task stack of the given size and holds no error. |
| WalkerMachine.Walker.Call | bootstrap/walker.c:55-182 | An operation of the walk is called on the machine; a fault ends the run. |
| WalkerMachine.Walker.Push | bootstrap/walker.c:29-36 | Pushing a task enters its node, and fails with a stack overflow exactly when the array is full. |
| WalkerMachine.Walker.Pop | bootstrap/walker.c:38-45 | Popping a task leaves its node and gives the slot back. |
| WalkerMachine.Walker.PushChosen | bootstrap/walker.c:123-126 | The two decisions are asked one after the other; the else-arm lies below the then-arm, and each is pushed only if its decision said yes. |
| WalkerMachine.Walker.Iterate | bootstrap/walker.c:85-177 | One turn of the loop, on the array of tasks in place and on the machine, is one step of the step machine. |
| WalkerMachine.Walker.WalkerRun | bootstrap/walker.c:55-182 | The whole method, on its array and through the methods of the machine it runs, equals the recursive traversal whenever the array has `2*height-1` slots; an error is reported and kept, and a walker that holds an error refuses to run. |
| RegularTables.TraverseIf | bootstrap/walker.c:119-159 | For a table whose enter and leave only shift a context, a condition is its test, then the chosen arms, then the closing operation. |
| Exec.Owner | bootstrap/exec.c:55-64 | A name is found in the innermost scope that has it, and nowhere exactly if no scope has it. |
| Exec.WrapIsModular | bootstrap/exec.c:100-132 | 64-bit results are the mathematical result modulo 2^64, and the result itself where it is in range. |
| Exec.ExpressionRefines | bootstrap/exec.c:82-171 | Walking an expression leaves exactly its value on the operand stack, needs at most its height in slots, and fails exactly as the direct recursive evaluator does. |
| Exec.ChoiceRefines | bootstrap/exec.c:134-153 | The pair of if-decisions, through the `if_taken` flag and a value pushed back for the second decision, walks the then-arm or the else-arm, never both, and leaves the operand stack as it was. |
| Exec.StatementRefines | bootstrap/exec.c:33-196 | Walking a statement changes scopes and output exactly as the direct evaluator with lexical scopes, and leaves the operand stack as it found it. |
| Exec.BlockRefines | bootstrap/exec.c:33-44 | A block runs in a scope of its own and leaves the scope stack at its entry depth. |
| Exec.ProgramRefines | bootstrap/walker.c:55-182 | For every well-shaped program, the task-stack walker with the executor's table gives the printed output, the final variables and the success or error of the direct recursive evaluator. |
| Exec.ProgramNeverMisusesStacks | bootstrap/exec.c:66-80 | No well-shaped program can overflow or underflow the operand stack or use a number as a reference; after success both stacks are back where they were. |
| Exec.ExecuteFaults | bootstrap/exec.c:33-196 | The direct evaluator stops a program only for an undefined name, a redefinition, a division by zero or a literal out of range. |
| Exec.ExecuteInRange | bootstrap/exec.c:100-171 | Every variable and every printed value stays a signed 64-bit number. |
| Exec.ArithmeticInRange | bootstrap/exec.c:100-121 | Truncating division leaves the 64-bit range for no operands but the least number and -1, which wrap. |
| Exec.ExecMachine.constructor | bootstrap/exec.c:200-247 | A new machine has empty stacks and no output. |
| Exec.ExecMachine.Push | bootstrap/exec.c:74-80 | A push appends one slot or reports a full stack, leaving it as it was. |
| Exec.ExecMachine.PopNumber | bootstrap/exec.c:66-72 | A pop returns the top slot, reports an empty stack, and reports a reference where a number is wanted. |
| Exec.ExecMachine.FindScope | bootstrap/exec.c:55-64 | The loop from the innermost scope outwards finds the owner of a name. |
| Exec.ExecMachine.ApplyIdentifierRef | bootstrap/exec.c:82-89 | A reference to the owning scope is pushed, or the name is undefined. |
| Exec.ExecMachine.ApplyIdentifier | bootstrap/exec.c:91-98 | The value in the owning scope is pushed, or the name is undefined. |
| Exec.ExecMachine.ApplyExpr | bootstrap/exec.c:100-121 | The right operand is on top; the result replaces both; division truncates and a zero divisor is an error. |
| Exec.ExecMachine.ScopePushNew | bootstrap/exec.c:33-38 | One empty scope is opened. |
| Exec.ExecMachine.ScopePop | bootstrap/exec.c:40-44 | The innermost scope is closed. |
| Exec.ExecMachine.ApplyIfCond | bootstrap/exec.c:134-137 | The top becomes 1 if it was not 0. |
| Exec.ExecMachine.ApplyUExpr | bootstrap/exec.c:123-132 | The top is negated in 64 bits; any other operator is an error. |
| Exec.ExecMachine.ApplyIfThenDecision | bootstrap/exec.c:139-148 | The test is consumed if the then-arm is taken and pushed back if not, and the flag remembers which. |
| Exec.ExecMachine.ApplyIfElseDecision | bootstrap/exec.c:150-153 | The else-arm is taken exactly if the then-arm was not, consuming the value that was pushed back. |
| Exec.ExecMachine.ApplyValueOf | bootstrap/exec.c:155-171 | A literal is read in range and pushed. |
| Exec.ExecMachine.Echo | bootstrap/exec.c:173-175 | The top value is printed. |
| Exec.ExecMachine.Define | bootstrap/exec.c:177-187 | A name is added to the innermost scope, unless that scope has it already. |
| Exec.ExecMachine.Assign | bootstrap/exec.c:189-196 | The reference on top names the scope entry that takes the value below it. |
| Exec.ExecMachine.Apply | bootstrap/exec.c:200-247 | Every operation of the table is one of these methods or does nothing, and does to the machine what the table says, with the same answer and the same fault. |
| ExecLaws.OperandFaults | bootstrap/exec.c:100-121 | Operands are evaluated from left to right, and the first fault is the fault. |
| ExecLaws.OperatorIs | bootstrap/exec.c:100-121 | If the operands of `+`, `-` and `*` are worth `a` and `b`, the value is in range and has the bits of `a + b`, `a - b` and `a * b`. |
| ExecLaws.QuotientIs | bootstrap/exec.c:108-117 | A quotient `v` of `a` by `b` leaves the rest `a - v * b`, which is smaller than the divisor and 0 or of the sign of `a`; divided by -1 it has the bits of `-a`; a zero divisor is an error. |
| ExecLaws.NegationIs | bootstrap/exec.c:123-132 | Unary minus: the value is in range and has the bits of `-a`. |
| ExecLaws.ChoiceIs | bootstrap/exec.c:134-153 | Only the arm that the test chooses is evaluated. |
| ExecLaws.LiteralIs | bootstrap/exec.c:155-171 | The digits of `n` are worth `n`, or are out of range from 2^63 on; `true` is 1 and `false` 0. |
| ExecLaws.ValueIs | bootstrap/exec.c:100-171 | However often an expression overflows on the way: if operands of divisions and tests fit into 64 bits, its value has the bits of the mathematical value, and is the mathematical value where that fits. |
| ExecLaws.EchoPrints | bootstrap/exec.c:173-175 | A program of one echo prints the mathematical value. |
| Checker.FirstMatch | bootstrap/typetab.c:306-326 | The first overload with exactly these parameter types, and none exactly if no overload has them. |
| Checker.FindFuncType | bootstrap/typetab.c:306-326 | The nested loops over overloads and parameters find that first match. |
| Checker.OnlyIntsHaveOperators | bootstrap/typetab.c:281-297 | Among all types, `+ - * /` are defined for two ints only and unary minus for one int only. |
| Checker.ExpressionChecks | bootstrap/checker.c:66-217 | Walking an expression with the checker's table succeeds exactly if the typing rules give it a type, and then its node carries that type. |
| Checker.IfExpressionChecks | bootstrap/checker.c:187-217 | An expression-if is accepted exactly if its test is bool and both arms have one type, though both arms are walked. |
| Checker.StatementChecks | bootstrap/checker.c:187-241 | Walking a statement accepts exactly what the rules accept and leaves the type scopes that the rules give. |
| Checker.ProgramChecks | bootstrap/checker.c:15-241 | For every well-shaped program the walker with the checker's table decides exactly the recursive typing rules. |
| CheckerMachine.TypeChecker.constructor | bootstrap/checker.c:247-278 | A new checker has no scopes and no types. |
| CheckerMachine.TypeChecker.ScopePush | bootstrap/checker.c:15-24 | One empty scope is opened. |
| CheckerMachine.TypeChecker.ScopePop | bootstrap/checker.c:26-30 | The innermost scope is closed; without scopes nothing happens. |
| CheckerMachine.TypeChecker.Put | bootstrap/checker.c:32-35 | The name goes to the innermost scope, which is opened if there is none. |
| CheckerMachine.TypeChecker.Get | bootstrap/checker.c:37-45 | The loop from the innermost scope outwards finds the type of the innermost scope that has one. |
| CheckerMachine.TypeChecker.CheckOwnershipTransfer | bootstrap/checker.c:47-59 | A transfer is refused exactly if one of the two types is not primitive. |
| CheckerMachine.TypeChecker.ValueOf | bootstrap/checker.c:66-79 | A literal's node gets the type of its kind. |
| CheckerMachine.TypeChecker.ApplyIdentifier | bootstrap/checker.c:81-99 | The node gets the type of its name; an unknown name is an error. |
| CheckerMachine.TypeChecker.ApplyExpr | bootstrap/checker.c:101-161 | The node gets the result type of the matching operator, if both operands may be handed over. |
| CheckerMachine.TypeChecker.ApplyUExpr | bootstrap/checker.c:163-185 | The same for one operand. |
| CheckerMachine.TypeChecker.ApplyIfCond | bootstrap/checker.c:187-200 | The test must be bool. |
| CheckerMachine.TypeChecker.ApplyIfPost | bootstrap/checker.c:202-206 | A statement-if is void. |
| CheckerMachine.TypeChecker.ApplyIfExprPost | bootstrap/checker.c:208-217 | Both arms must be there and of one type. |
| CheckerMachine.TypeChecker.Define | bootstrap/checker.c:219-236 | The name gets the type of its initializer in the innermost scope; identifier and statement nodes are typed. |
| CheckerMachine.TypeChecker.Assign | bootstrap/checker.c:238-241 | An assignment is void; its two sides are not compared. |
| CheckerMachine.TypeChecker.Apply | bootstrap/checker.c:247-278 | The same of the checker; both decisions say yes. |
| Soundness.TypedNamesAreDefined | bootstrap/checker.c:37-45 | A name to which the type scopes give a type is defined in execution scopes with the same names. |
| Soundness.TypedExpressionsEvaluate | bootstrap/checker.c:66-217 | A typed expression can fail at run time only for a division by zero or a literal out of range. |
| Soundness.CheckedStatementsRun | bootstrap/checker.c:15-241 | The simulation: an accepted statement keeps type scopes and execution scopes in step, or stops for one of three faults. |
| Soundness.CheckedProgramsRun | bootstrap/checker.c:15-241 | Soundness: an accepted program whose arms define nothing outside their braces runs to its end or stops for a division by zero, a redefinition or a literal out of range. |
| Soundness.StaysInStepIff | bootstrap/checker.c:219-236 | For every accepted statement, its arms braced or not, that finishes from scopes in step: the scopes are in step afterwards if and only if every name that the checker adds to the innermost scope was there before or is added by the arms that the tests choose. |
| Soundness.InStepStatementsRun | bootstrap/checker.c:15-241 | Soundness without braces: an accepted statement or block every statement of which meets that condition can only stop for one of the three faults. |
| Soundness.InStepProgramsRun | bootstrap/checker.c:15-241 | The same of the two walks of a whole program. |
| Soundness.BracedRunsInStep | bootstrap/parser.c:238-243 | A program whose arms define nothing outside their braces meets the condition from every state. |
| Soundness.BareDefinitionsEscapeTheirArm | bootstrap/parser.c:238-240 | An instance: for every test and every initializer, `if c then x := e` and `echo x` are accepted together, and fail with an undefined name if and only if the test is false and no scope has an `x`. |
| Soundness.TypedStatementsConform | bootstrap/checker.c:219-241 | A program whose every assignment gives its target a value of the type that the innermost owning scope gives it keeps every variable at its type: from conforming scopes, an accepted, braced statement or block that finishes leaves conforming scopes. |
| Soundness.TypedProgramsConform | bootstrap/checker.c:15-241 | The same of the two walks, the checker's and the executor's, of a whole program. |
| Soundness.AssignmentConformsIff | bootstrap/checker.c:238-241 | The converse at the assignment: from conforming scopes, they conform afterwards if and only if the target is not bool or the assigned value is 0 or 1. |
| Soundness.WriteConformsIff | bootstrap/exec.c:189-196 | Writing a variable keeps the scopes conforming exactly if the variable is not typed bool or the value is a truth value. |
| Soundness.BoolsAreTruths | bootstrap/checker.c:66-217 | An expression typed bool has the value 0 or 1 in conforming scopes. |
| Soundness.SameOwner | bootstrap/checker.c:37-45 | In conforming scopes checker and executor mean the same variable by a name. |
| Soundness.AssignmentsAreNotTyped | bootstrap/checker.c:238-241 | An input: `x := b` and `x = i` with a bool and an integer literal are accepted, and the bool variable conforms afterwards exactly if the literal is 0 or 1. |
| Dump.ShowDeeper | bootstrap/ast-dump.c:184-221 | Indenting all lines of a printed tree is printing it one level deeper: what the correction of the arms relies on. |
| Dump.PrintsTree | bootstrap/ast-dump.c:86-263 | Walking a node leaves exactly one chain for it, the lines of the recursive tree printer at the node's own depth, and the depth counter where it was. |
| Dump.PrintsIf | bootstrap/ast-dump.c:184-221 | An if collects test, then-arm and else-arm walked at different depths and corrects them to one: the else-arm, popped first, is indented once more. |
| Dump.PrintsRest | bootstrap/ast-dump.c:111-126 | A block's statements leave one chain each, in order. |
| Dump.PrintsProgram | bootstrap/ast-dump.c:26-324 | For every printable program and enough task slots, the dump leaves one chain, which is the recursive printer's text. |
| Dump.AstDump.StackPush | bootstrap/ast-dump.c:86-98 | A chain is pushed. |
| Dump.AstDump.StackPop | bootstrap/ast-dump.c:100-106 | The last chain is popped; an empty stack is an error. |
| Dump.AstDump.ScopePop | bootstrap/ast-dump.c:111-126 | As many chains as the block has statements are joined in order under its title. |
| Dump.AstDump.ApplyExpr | bootstrap/ast-dump.c:143-158 | Two chains are joined in order under the operator's line. |
| Dump.AstDump.IndentAdd | bootstrap/ast-dump.c:184-186 | Every line of a chain is indented. |
| Dump.AstDump.PopParts | bootstrap/ast-dump.c:188-211 | The parts of an if come off the stack in reverse order. |
| Dump.AstDump.ApplyWrapping | bootstrap/ast-dump.c:160-247 | Unary minus, echo and a definition put their line, and a definition its name, before the one chain on top. |
| Dump.AstDump.ApplyIfPost | bootstrap/ast-dump.c:188-221 | Test and else-arm are indented once more and all parts are joined under their titles. |
| Dump.AstDump.ApplyAssign | bootstrap/ast-dump.c:249-255 | Value and target come off the stack in reverse order and are printed target first. |
| Dump.AstDump.ApplyEnter | bootstrap/ast-dump.c:257-259 | Entering a node goes one level down. |
| Dump.AstDump.ApplyLeave | bootstrap/ast-dump.c:261-263 | Leaving it goes one level up. |
| Dump.AstDump.Print | bootstrap/ast-dump.c:305-324 | All chains are printed, first to last. |
| Dump.AstDump.ApplyLeaf | bootstrap/ast-dump.c:128-141 | A literal or a name is one line; a literal of another kind is an error. |
| Dump.AstDump.Apply | bootstrap/ast-dump.c:265-303 | Every operation of the table is one of these methods or does nothing, with the answer and the fault that the table says. |
| DumpReads.OperatorLines | bootstrap/ast-dump.c:143-171 | The four operators and unary minus have the lines `expr +`, `expr -`, `expr *`, `expr /` and `uexpr -`. |
| DumpReads.TitleTells | bootstrap/ast-dump.c:86-263 | The first line of a node tells its form, its operator and its name or text. |
| DumpReads.ReadsBack | bootstrap/ast-dump.c:86-263 | Two trees that are printed as the beginning of the same lines, with nothing deeper behind them, are the same but for positions, and so is what follows. |
| DumpReads.DumpDetermines | bootstrap/ast-dump.c:26-324 | Two trees are dumped as the same lines if and only if they differ in nothing but where their tokens stood. |
| Free.FreesTree | bootstrap/ast-free.c:6-33 | Walking a tree whose nodes lie apart releases its memory in post-order, without a double release and without reading a released node. |
| Free.FreesBlock | bootstrap/ast-free.c:6-8 | A block's array of statements outlives the statements and is released before the node. |
| Free.ClosesDefine | bootstrap/ast-free.c:10-19 | A definition's identifier is not walked; its text and node are released with the definition. |
| Free.NodesOnce | bootstrap/ast-free.c:31-33 | The post-order names every node of the tree once and nothing else. |
| Free.ChildrenFirst | bootstrap/ast-free.c:31-33 | In it every child comes before its parent. |
| Free.FreesProgram | bootstrap/ast-free.c:6-69 | Conservation: the freeing walk ends without a fault, has released exactly the memory that the tree owns (nodes, texts, statement arrays), each piece once, in post-order, every child before its parent. |
| FreeMachine.AstFree.FreeBlock | bootstrap/ast-free.c:31-33 | A block of memory is released unless it was before. |
| FreeMachine.AstFree.FreeTheBlock | bootstrap/ast-free.c:6-8 | A block's array is released. |
| FreeMachine.AstFree.FreeTheDefine | bootstrap/ast-free.c:10-19 | Text and node of the defined identifier are released, the text first. |
| FreeMachine.AstFree.FreeTheIdentifier | bootstrap/ast-free.c:21-24 | An identifier's text is released. |
| FreeMachine.AstFree.FreeTheValue | bootstrap/ast-free.c:26-29 | A literal's text is released. |
| FreeMachine.AstFree.FreeTheNode | bootstrap/ast-free.c:31-33 | A node is released when the walk leaves it; NULL is not. |
| FreeMachine.AstFree.ReadTheNode | bootstrap/walker.c:85-95 | A node that was released must not be read again. |
| FreeMachine.AstFree.Apply | bootstrap/ast-free.c:39-69 | Every operation of the table is one of these methods or does nothing, with the answer and the fault that the table says. |
| Free.OwnedIsReleased | bootstrap/ast-free.c:6-33 | The post-order lists exactly the memory that the tree owns: nodes, texts and statement arrays. |
| Drivers.FreeAst | bootstrap/main.c:28-40 | A walker with `2*height+1` slots over the freeing table, run on any tree, does the plain recursive traversal; on a tree whose nodes lie apart it ends without a fault and has released exactly its memory, in post-order. |
| Drivers.ExecTree | bootstrap/main.c:73-86 | A new machine, a new walker with `2*height+1` slots over its table, one run: exit code and output are those of the direct evaluator in the empty world. |
| Drivers.CheckTree | bootstrap/main.c:120-133 | The exit code says whether the typing rules accept the program. |
| Drivers.DumpTree | bootstrap/main.c:223-237 | The lines printed are those of the recursive printer. |
| Drivers.RunExec | bootstrap/main.c:42-87 | From the tokens on: exit code 4 and no output where the parser accepts no program, else exit code and output of the direct evaluator on the parsed tree. |
| Drivers.ExecuteSame | bootstrap/exec.c:33-196 | Execution depends on a program's meaning only, not on where its tokens stand. |
| Drivers.LayoutChangesNothing | bootstrap/main.c:42-87 | In whatever layout a written program is read, it exits with the same code and prints the same. |
| BlockNode.Block.constructor | bootstrap/ast.c:126-137 | A new block has no statements, room for two, and height 1. |
| BlockNode.Block.EnsureCapacity | bootstrap/ast.c:139-154 | Room for one more statement: the array doubles when it is full, and the statements stay where they were or move up by one. |
| BlockNode.Block.ShiftRight | bootstrap/ast.c:149-153 | The backward loop moves every statement up by one without losing any. |
| BlockNode.Block.Append | bootstrap/ast.c:156-163 | The statement list gets the statement at its end and the cached height stays one more than the greatest. |
| BlockNode.Block.Prepend | bootstrap/ast.c:165-172 | The same at its front. |
| BlockNode.HeightJoins | bootstrap/ast.c:156-172 | The height of a joined list is the greater of the two: why a running maximum is enough. |
| Engine.NextSolid | bootstrap/parser.c:427-452 | Looking through a newline run stops at the first other token and only ever moves over newlines. |
| Engine.FirstTerm | bootstrap/parser.c:420-425 | The fold point is the first terminal behind the first node, and is missing exactly if there is none. |
| PrintParse.PassesOver | bootstrap/parser.c:247-253 | Productions of a factor whose first terminal does not match are passed over without reading anything. |
| PrintParse.ChainRuns | bootstrap/parser.c:260-270 | A chain of operators of one level is folded to the left, operator by operator, in place of the left operand, or is found too deep. |
| PrintParse.IfTailParses | bootstrap/parser.c:238-239 | An expression-if with two expression arms is read by the first production. |
| PrintParse.LevelParses | bootstrap/parser.c:238-270 | At every precedence level, a written expression not followed by an operator of that level is reduced to exactly its tree, or found too deep exactly if the recursion limit leaves no room. |
| RoundTrip.PrintedExpressionParses | bootstrap/parser.c:402-590 | Wherever a printed expression stands, with any newlines before and between its tokens and no operator behind it, the table interpreter returns exactly its tree, has read exactly its tokens, and fails exactly when the depth limit leaves no room. |
| RoundTrip.NewlinesAreTransparent | bootstrap/parser.c:427-452 | Two layouts of one expression parse to trees that differ in positions only; a newline run behind the expression is given back unread. |
| RoundTrip.EveryExpressionRoundTrips | bootstrap/parser.c:238-270 | Every expression tree has a written form from which the parser returns that tree. |
| RoundTrip.WritesAt | bootstrap/parser.c:247-270 | The written form has the parentheses that every level asks for, and none of its left operands ends in an open else-arm. |
| RoundTrip.WritingIsUnambiguous | bootstrap/parser.c:238-270 | Two written expressions with the same tokens mean the same tree. |
| Refusals.OptSepsParse | bootstrap/parser.c:274-286 | Optional separators read every newline and semicolon there is and never refuse. |
| Refusals.LevelRefuses | bootstrap/parser.c:247-270 | Before a token that begins no expression, every expression rule refuses without reading anything. |
| Refusals.StmtRefuses | bootstrap/parser.c:288-294 | Before a token that begins no statement, the statement rule refuses. |
| Refusals.EmptyBlockParses | bootstrap/parser.c:274-307 | A block of nothing but separators is an empty block. |
| ProgramParse.SimpleParses | bootstrap/parser.c:288-294 | A written echo, definition or assignment parses to its tree, or is too deep exactly if the limit leaves no room; an assignment's name is first tried as a definition and given back. |
| ProgramParse.ArmIsNoExpr | bootstrap/parser.c:238-243 | The statement behind a `then` is first tried as an expression arm, which fails or is not followed by `else`, however deeply conditions nest, or is too deep exactly if the limit leaves no room for that attempt. |
| ProgramParse.TailParses | bootstrap/parser.c:238-243 | What stands behind an `if` is read by the right one of its four productions, sharing or re-reading the test, or is too deep exactly if the limit leaves no room. |
| ProgramParse.RestParses | bootstrap/parser.c:296-303 | The list of further statements takes every statement with the separators before it, and gives back the separators behind the last, behind which one more statement is looked for; it is too deep exactly if the limit leaves no room for one of these. |
| ProgramParse.BlockParses | bootstrap/parser.c:283-312 | A written block, up to a closing brace or the end of the input, parses to the block of its statements' trees, or is too deep exactly if the limit leaves no room; the first statement takes one level less than the others. |
| ProgramParse.StmtParses | bootstrap/parser.c:288-294 | Wherever a written statement stands, the parser returns exactly its tree, or finds it too deep exactly if the limit leaves no room. |
| ProgramRoundTrip.WrittenProgramParses | bootstrap/parser.c:272-318 | In any layout of separators and newlines, a written program parses to the tree it means, up to the end of the input, if the limit leaves room for it, and is too deep otherwise. |
| ProgramRoundTrip.WritableIsStmt | bootstrap/parser.c:272-318 | The programs that can be written lie in the walkers' domain. |
| ProgramRoundTrip.EveryProgramRoundTrips | bootstrap/parser.c:238-318 | Printing a program, one statement a line, and parsing the print returns the program if the limit leaves room for the print, and is too deep otherwise. |
| ProgramRoundTrip.WhatIsWrittenReprints | bootstrap/parser.c:366-395 | A written program that is parsed once, in whatever layout, is parsed again as it is printed, to the same tree: the first parse shows that there is room. |
| ProgramRoundTrip.BlockLeast | bootstrap/parser.c:283-318 | The printed form takes no more room than any other way of writing the block. |
| RoundTrip.WritesLeast | bootstrap/parser.c:238-270 | Of all written forms of an expression, the one with the fewest parentheses recurses least. |
| ProgramRoundTrip.WhatIsParsedReprints | bootstrap/parser.c:366-395 | On every token stream: parsing, printing and parsing again gives what the first parsing gave, for every program of the walkers' domain, if the limit leaves room for the print, and is too deep otherwise. |
| Dangling.DanglingOperatorIs | bootstrap/parser.c:476-527 | For every written expression with one more operator of its level and no operand behind it: too deep if the limit leaves no room for the expression; behind a chain the operator is read and dropped; behind a lone operand the first operator of the level is given back unread, and at the second the whole rule refuses, from behind the operand. |
| Dangling.DroppedIff | bootstrap/parser.c:476-527 | So the operator is dropped if and only if the expression before it is a chain of one operation or more. |
| Dangling.DanglingOperatorIsDropped | bootstrap/parser.c:512-527 | Behind a chain of one operation or more, one more operator of its level that no operand follows is read and dropped; the chain is the result. |
| Dangling.NestedProgramParses | bootstrap/parser.c:402-590 | A family of programs that the parser reads with four levels of recursion less than their printed forms need, because a dropped operator stands for parentheses. |
| Dangling.OneParseIsNotEnough | bootstrap/parser.c:402-590 | An input: a program under 1020 minuses is parsed within the limit of 4096, and its print is too deep. |
| ProgramRoundTrip.ParsePrinted | bootstrap/parser.c:366-395 | The parser as a machine, run on the printed program, returns it exactly if the limit leaves room for it. |
| GivingUp.ReleasesTwiceIff | bootstrap/parser.c:512-564 | The loop that releases the arguments of an activation goes one index too far; what it finds there was released before exactly if the activation has folded and waits for a right operand. |
| GivingUp.OnlyIfGivenUp | bootstrap/parser.c:512-587 | On every token stream and for every rule: only a parse that is given up at the depth limit releases a node twice. |
| GivingUp.TwiceIff | bootstrap/parser.c:512-564 | For every written expression at every level and depth: parsing it releases nodes twice if and only if the first part that the limit has no room for stands behind the second operator, or a later one, of a chain around it. |
| GivingUpPrograms.LevelOnce | bootstrap/parser.c:247-270 | Where no expression begins, no rule of expressions releases anything twice. |
| GivingUpPrograms.ArmTwice | bootstrap/parser.c:238-243 | An arm behind `then`, tried as an expression first: given up in that trial or as the statement that it is, it releases nodes twice exactly if the condition holds of the reading it is given up in. |
| GivingUpPrograms.TailTwice | bootstrap/parser.c:238-243 | The same for what stands behind an `if`. |
| GivingUpPrograms.StmtTwice | bootstrap/parser.c:288-294 | The same for every written statement. |
| GivingUpPrograms.BlockTwice | bootstrap/parser.c:283-312 | The same for every written block, up to a closing brace or the end of the input. |
| GivingUpPrograms.ProgTwiceIff | bootstrap/parser.c:272-318 | For every written program in every layout: parsing it releases nodes twice if and only if the first part that the limit has no room for, in the order in which the parser tries them, is an expression cut off behind the second operator, or a later one, of a chain around it. |
| GivingUpPrograms.EchoReleasesTwice | bootstrap/parser.c:512-564 | An input: the program `echo x + x + ((...))` with 1023 pairs of parentheses or more releases a node twice. |
| GivingUp.ThirdButNotSecond | bootstrap/parser.c:512-564 | Inputs: `x + x + ((...))` too deep is such an expression, `x + ((...))` never is. |
| GivingUp.ThirdOperandIsReleasedTwice | bootstrap/parser.c:512-564 | The parser, run on the first of them with 1024 pairs of parentheses or more, releases a node twice. |
| ParserSafety.ReduceFits | bootstrap/parser.c:95-231 | Wherever the tables put a reducer, its assertions hold for arguments that fit the nodes before it, and its result fits the rule (with one exception, below). |
| ParserSafety.SecondProductionIsFaulty | bootstrap/parser.c:309-312 | The exception: the reducer of the second production of `braced_block` asserts no arguments and would be handed three. |
| ParserSafety.BracedIsSafe | bootstrap/parser.c:309-312 | That production is never completed: where the first one fails behind its brace, no closing brace follows the separators. |
| ParserSafety.NoBraceBehind | bootstrap/parser.c:283-307 | If a block is not followed by a closing brace, then none stands behind the separators at its beginning. |
| ParserSafety.ParserIsNeverBroken | bootstrap/parser.c:454-590 | On every token stream no reducer's assertion fails, no argument is cast to what it is not, no repetition runs without progress, and what comes out of every rule has the rule's shape. |
| ParserMachine.RuleGoesForward | bootstrap/parser.c:454-590 | A rule never ends before the position it began at: all rewinds of the parser go backwards. |
| ParserMachine.SameStart | bootstrap/parser.c:402-418 | The comparison loop decides whether two productions begin with the same nodes. |
| ParserMachine.FindFoldPoint | bootstrap/parser.c:420-425 | The search loop finds the fold point. |
| ParserMachine.Parser.constructor | bootstrap/parser.c:344-364 | A new parser stands before the first token. |
| ParserMachine.Parser.MoveForward | bootstrap/parser.c:597-612 | The next token of the log becomes the current one. |
| ParserMachine.Parser.Save | bootstrap/parser.c:332-335 | A checkpoint keeps the mark of the token log and the current token. |
| ParserMachine.Parser.Restore | bootstrap/parser.c:337-340 | Going back to a checkpoint makes the token of the checkpoint current again; it is only asked to go backwards. |
| ParserMachine.Parser.TokenMatches | bootstrap/parser.c:427-452 | With the newline probe and its cache, a terminal matches exactly if the next token that is not a newline is of its kind, and newlines are read exactly if it matches: the cache never changes an answer. |
| ParserMachine.Parser.TakeToken | bootstrap/parser.c:486-495 | A matching token is taken; a token that does not match is left with any newlines before it. |
| ParserMachine.Parser.NextShares | bootstrap/parser.c:496-497 | Whether the next production takes over what is matched. |
| ParserMachine.Parser.ParseByRule | bootstrap/parser.c:454-590 | The recursive interpreter over mutable parser fields does what the specification does, restores the recursion counter, and gives up the whole parse at the depth limit. |
| ParserMachine.Parser.TryProductions | bootstrap/parser.c:465-587 | The nested loops over productions and nodes with prefix sharing, left folding and rewinding do what the specification does. |
| ParserMachine.Parser.CollectList | bootstrap/parser.c:529-548 | The repetition gathers every result of a rule in one block. |
| ParserMachine.ParseProgram | bootstrap/parser.c:366-395 | The parser returns a tree exactly if the program rule reduces and the input ends behind it; the tree is a block of parsed statements. |
| TokenLog.TurnIsSound | bootstrap/lexer.c:121-192 | One turn of the lexer, replayed or fresh, returns the step that a single pass over the source would log at this place, and leaves the line and column behind it. |
| TokenLog.NextIsFaithful | bootstrap/lexer.c:113-192 | From every synchronised state, the next token is the one that an uninterrupted reading returns from this log position, with the same line and column; the log only grows. |
| TokenLog.RewindIsSafeIff | bootstrap/lexer.c:108-192 | For every source, state and mark: the next token after a rewind carries the position that the source has there, and line and column stay in step, if and only if something is left to replay, the end was seen, or the lexer's own position is the one behind its last logged step; otherwise the next fresh token is misplaced and the log no longer agrees with the source. |
| TokenLog.BackwardRewindsAreSafe | bootstrap/lexer.c:108-192 | After any rewind backwards, reading goes on as if it had never happened. |
| TokenLog.ForwardRewindsMisplace | bootstrap/lexer.c:108-192 | An input: rewinding forward to the end of the log after replaying part of it gives the next fresh token a wrong column. |
| LexerMachine.Lexer.constructor | bootstrap/lexer.c:25-52 | A new lexer has an empty log and stands at line 1, column 1. |
| LexerMachine.Lexer.Mark | bootstrap/lexer.c:104-106 | A mark is a place in the log that is not between the two steps of a block comment. |
| LexerMachine.Lexer.RewindTo | bootstrap/lexer.c:108-111 | Only the place in the log moves. |
| LexerMachine.Lexer.NextSignificant | bootstrap/lexer.c:113-192 | The next significant token, replayed from the log or read by the character loop, is the one that the log of the text's pieces has there; it fails exactly if reading on comes to where the text fails. |
| LexerMachine.Lexer.Replay | bootstrap/lexer.c:121-190 | A logged step is handed out again with its position, block comments as a pair. |
| LexerMachine.Lexer.LexFresh | bootstrap/lexer.c:138-190 | What the character loop reads next is logged with the position behind it; it fails exactly behind the last piece of a text that does not end well. |
| LexerMachine.Lexer.LogEnd | bootstrap/lexer.c:145-150 | The end is logged with the column behind a character that is not there. |
| LexerMachine.Lexer.LogPiece | bootstrap/lexer.c:151-190 | A token, with the comment behind it, is the next piece of the text. |
| LexerMachine.Lexer.LogToken | bootstrap/lexer.c:69-102 | A token is logged with the position behind it; a line comment's step is sealed behind the comment, a block comment gets the newline that it stands for as a second step. |
| Places.PlaceIsUnique | bootstrap/lexer.c:194-313 | A character has one place only: line by the newlines before it, column by the characters behind the last of them. |
| Places.AdvanceIsPlace | bootstrap/lexer.c:194-313 | Moving a position on character by character, a newline to column 1 of the next line, leads from the place of one text's end to the place of both texts' end. |
| TokenLog.StepsAdvance | bootstrap/lexer.c:121-192 | Lexing a piece moves line and column on over exactly its characters, comments included. |
| TokenLog.PosAtIsPlace | bootstrap/lexer.c:194-379 | The line is 1 plus the newlines before the reader's offset, the column 1 plus the characters behind the last of them. |
| TokenLog.TokensArePlaced | bootstrap/lexer.c:121-192 | Every token in the log stands at the place of its first character, the newline for a block comment at the place behind the comment. |
| TokenLog.NextIsPlaced | bootstrap/lexer.c:113-192 | So does the next token, whatever was read, marked and rewound before. |
| Scanner.PiecesAreText | bootstrap/lexer.c:194-379 | A text that lexes to its end is its pieces, one behind the other, but for NULs that were read ahead; a text without NULs is exactly its pieces. |
| Scanner.CutsApart | bootstrap/lexer.c:194-379 | Every piece takes at least one character, and what it takes and what is left are the text, but for a NUL. |
| Scanner.OnlyWord | bootstrap/lexer.c:381-396 | A word of the keyword table, and no other word, is of its kind: newlines and the starts of comments are known by their kinds. |
| Scanner.PieceStandsAt | bootstrap/reader.c:60-68 | For every text and piece: the line said is the right one; the column said is the right one if and only if no character of that line was lost, and otherwise too small by as many as were. |
| Scanner.PiecesStandRight | bootstrap/lexer.c:194-379 | In a text without NULs every piece stands where it is said to stand. |
| Scanner.NulMisplaces | bootstrap/reader.c:60-68 | An input: in `a`, NUL, blank, `b`, the `b` is said to stand at column 3 and stands at column 4. |
| ScannerMachine.Reader.constructor | bootstrap/reader.c:9-26 | A new reader has the whole text before it. |
| ScannerMachine.Reader.GetCh | bootstrap/reader.c:28-58 | The next character is the last one given back, or the next of the text. |
| ScannerMachine.Reader.UngetCh | bootstrap/reader.c:60-68 | A character that is given back is read next; a NUL, or one more than the buffer holds, is lost. |
| ScannerMachine.CharLexer.constructor | bootstrap/lexer.c:25-52 | A new lexer stands before the text, at line 1, column 1. |
| ScannerMachine.CharLexer.StepBack | bootstrap/lexer.c:266-290 | The character read ahead is given back, unless it is a NUL, and the column with it. |
| ScannerMachine.CharLexer.Finish | bootstrap/lexer.c:284-296 | A word is what the keyword table says; a newline begins the next line. |
| ScannerMachine.CharLexer.FinishNumber | bootstrap/lexer.c:273-282 | A number is its digits, and the character behind them is given back. |
| ScannerMachine.CharLexer.JoinsOperator | bootstrap/lexer.c:283-286 | One more character joins an operator exactly if there is one, it is punctuation, and the table has the longer operator. |
| ScannerMachine.CharLexer.NextToken | bootstrap/lexer.c:194-313 | The loop with its watch state and its buffer of 128 characters cuts off the token that the specification cuts off the text, and moves line and column over exactly its characters; it fails exactly where the specification does: at a byte beyond ASCII, at a word, number or string that is too long, and at a string that does not end. |
| ScannerMachine.CharLexer.SkipLine | bootstrap/lexer.c:317-337 | Everything up to the newline, or the end of the text, is skipped. |
| ScannerMachine.CharLexer.SkipUntilAnchor | bootstrap/lexer.c:339-369 | The counter of matched characters finds the first end of the comment, with `**/` as well, and fails exactly if there is none; line and column move along. |
| ScannerMachine.CharLexer.SkipBehind | bootstrap/lexer.c:154-178 | Behind the start of a comment, and of nothing else, the comment is skipped. |
| LexerMachine.TokensStandRight | bootstrap/lexer.c:54-379 | From characters to the log: in a text without NULs every token in the log stands where its first character does. |
| LexerMachine.NextStandsRight | bootstrap/lexer.c:54-379 | So does the token handed out next, whatever was read, marked and rewound before. |
| Spelling.SpelledIsLexed | bootstrap/lexer.c:194-313 | Round trip: tokens of the grammar, written out with a blank behind each, are lexed to themselves, up to the end of the text. |
| Spelling.SpelledCuts | bootstrap/lexer.c:194-313 | One token that is written out before a blank, whatever follows, is cut off again, with its kind and its value. |
| Spelling.FixedPiece | bootstrap/tokens.c:11-111 | Every kind that the grammar knows by one spelling is that word of the keyword table. |
| Spelling.LexedIsLegible | bootstrap/lexer.c:194-313 | Whatever the text: every number, truth value and name that is lexed from it can be written out, unless it is a name without letters. |
| Sources.ParsedIsLegible | bootstrap/parser.c:402-590 | On every token stream from the lexer: names and literals of the tree that any rule builds are names and literals of the stream. |
| Sources.BlockIsSpellable | bootstrap/parser.c:238-318 | A program whose names are names and whose literals are literals is printed in tokens that can be written out. |
| Sources.SourceIsLexed | bootstrap/lexer.c:194-313 | Such a program, written out as a text, is lexed to exactly its printed tokens. |
| Sources.TextRoundTrips | bootstrap/main.c:42-87 | From text to text: whatever text a program was lexed and parsed from, the program written out as a text is lexed and parsed to the same program if and only if its names have letters and the recursion limit leaves room for the printed form; a text without NULs has no other names. |
| Sources.NulDoesNotRoundTrip | bootstrap/lexer.c:282-302 | An input: `echo` and a NUL is a program, and written out it is not that program any more. |
| Sources.LexAll | bootstrap/lexer.c:113-192 | The lexer, asked for token after token, returns all tokens of the text in order, and fails exactly if some part of the text is no token. |
| Sources.ReadBack | bootstrap/main.c:42-87 | The machines one behind the other: a program written out, lexed character by character and parsed comes back, exactly if there is room for its printed form. |
| Words.TableIsGrouped | bootstrap/tokens.c:11-111 | The 98 entries of the keyword table are grouped by first character, by descending length inside a group, as its comment asks; all symbols and no letters are operators. |
| Words.BuildRanges | bootstrap/lexer.c:417-423 | One pass over the table gives every character the exact range of its entries, empty where there is none. |
| Words.TableRanges | bootstrap/lexer.c:417-423 | For the table of the language this is set up once, before the first token. |
| Words.Find | bootstrap/lexer.c:381-396 | The search inside a range, given up at the first shorter entry, finds exactly what a search of the whole table finds. |
| Words.ProcessWord | bootstrap/lexer.c:381-396 | Every word is classified exactly as a linear search of the keyword table classifies it. |
| Words.CouldBeOperator | bootstrap/lexer.c:398-415 | One more character makes an operator exactly if the table has it as an operator. |
| Words.ScanOperator | bootstrap/lexer.c:283-296 | The character loop takes what the scanning specification takes; the punctuation test never cuts an operator short. |
| Words.ScanIsLongestIff | bootstrap/lexer.c:283-296 | Scanning character by character finds the longest operator exactly if every prefix of it is an operator. |
| Words.ScanIsLongest | bootstrap/lexer.c:283-296 | On every input not beginning with two dots it returns the longest operator of the table. |
| Words.ScanMissesRangesOnly | bootstrap/lexer.c:283-296 | It fails to exactly on the inputs that begin with a range operator: two dots are no operator, so `..=` and `..<` are never scanned. |
| ProbeTable.NoKeyBeyondFreeSlot | HASH_MAP.md:96-109 | A free slot on the probe path proves the key absent from the whole table. |
| ProbeTable.InsertStaysPlaced | HASH_MAP.md:149-168 | Filling the first free slot of a key's probe path keeps every entry reachable from its home and all keys unique. |
| ProbeTable.ShiftSkips | HASH_MAP.md:191-225 | An entry whose home lies cyclically behind the hole may stay. |
| ProbeTable.ShiftMoves | HASH_MAP.md:191-225 | An entry whose home does not lie behind the hole may move into it, and every other entry stays reachable but for the new hole. |
| ProbeTable.ShiftEnds | HASH_MAP.md:191-225 | When the shift reaches a free slot, every entry is reachable again. |
| HashMap.LookupAfterWith | HASH_MAP.md:149-168 | Putting a key changes its own lookup, for every equal key, and no other. |
| HashMap.LookupAfterWithout | HASH_MAP.md:191-225 | Removing a key changes its own lookup and no other. |
| HashMap.LiveIsSize | HASH_MAP.md:149-225 | The number of live slots is the number of keys. |
| HashMap.HashMap.constructor | HASH_MAP.md:75-81 | Sixteen free slots represent the empty map. |
| HashMap.HashMap.Probe | HASH_MAP.md:96-109 | The probe stops at the key or at the first free slot of its path, having passed only other keys, and fails exactly if all slots hold other keys. |
| HashMap.HashMap.ProbeEmpty | HASH_MAP.md:111-119 | The first free slot of a key's path. |
| HashMap.HashMap.Get | HASH_MAP.md:121-135 | The value of the key in the finite map that the table represents. |
| HashMap.HashMap.Put | HASH_MAP.md:149-168 | The table represents the map with the key replaced or added; `count` grows exactly if it was new; a free slot remains. |
| HashMap.HashMap.Grow | HASH_MAP.md:170-189 | Re-filing every entry in a row of twice the size changes nothing of the map and vacates the old row. |
| HashMap.HashMap.Remove | HASH_MAP.md:191-225 | The table represents the map without the key, which is returned if it was there; the backward shift leaves every entry reachable. |
| HashMap.HashMap.PutNew | HASH_MAP.md:158-165 | A new key: the table grows first if it is three quarters full, and the key is probed for again. |
| HashMap.HashMap.Insert | HASH_MAP.md:162-164 | The first free slot of the key's path takes the entry, and one more is counted. |
| HashMap.HashMap.MoveSlot | HASH_MAP.md:181-187 | One slot of the old row is moved to the new row and vacated. |
| HashMap.HashMap.ShiftOne | HASH_MAP.md:205-216 | One slot of the shift moves into the hole or stays, by the cyclic distance test. |
| HashMap.HashMap.ShiftBack | HASH_MAP.md:202-219 | The shift ends and repairs the table. |
| HashMap.HashMap.TakeEntry | HASH_MAP.md:145-147 | The entry is moved out and its slot is free. |
| MergeSort.MergeSorts | MERGE_SORT.md:29-55 | Merging two sorted runs gives a sorted run, under any strict weak order. |
| MergeSort.MergeKeepsTies | MERGE_SORT.md:29-55 | It keeps the order of elements that tie, those of the left run first. |
| MergeSort.KeepsTiesPermutes | MERGE_SORT.md:3-8 | A sequence that keeps the ties of every element is a permutation. |
| MergeSort.NextPair | MERGE_SORT.md:59-80 | Merging the next pair of runs of one width, the last run short or missing, extends the part sorted at twice the width. |
| MergeSort.MergeBy | MERGE_SORT.md:29-55 | The in-place merge through the staged left run: every write goes into a vacated slot, none is vacated in the end, and the array holds the merge of its two runs with everything else untouched. |
| MergeSort.MoveOut | MERGE_SORT.md:30-34 | An element is moved out and its slot is vacated. |
| MergeSort.MoveIn | MERGE_SORT.md:38-52 | An element is only ever moved into a vacated slot. |
| MergeSort.MergeHeads | MERGE_SORT.md:38-47 | The loop that compares heads never overtakes the unread part of the right run. |
| MergeSort.MoveLeftTail | MERGE_SORT.md:48-54 | What is left of the staged run fills exactly the gap. |
| MergeSort.StageLeft | MERGE_SORT.md:30-34 | Staging moves the left run out and vacates its slots. |
| MergeSort.Sort | MERGE_SORT.md:59-80 | The bottom-up sort leaves a sorted, stable permutation of its input. |
| Hashing.HashOf | bootstrap/hmap.h:33-45 | The loop computes the 64-bit FNV-1a hash, 0 for the empty string. |
| Hashing.IndexIsRemainder | bootstrap/hmap.h:29-31 | For a power of two, masking is the remainder. |
| Hashing.DoublingSplitsBuckets | bootstrap/hmap.h:47-80 | When the capacity doubles, a key stays in its bucket or moves up by the old capacity. |
| ChainMap.FiledInsert | bootstrap/hmap.h:122-137 | A node put behind the head of its key's bucket keeps every node in one place of one bucket. |
| ChainMap.FiledRemove | bootstrap/hmap.h:173-208 | So does taking a node out of its chain. |
| ChainMap.ChainMap.constructor | bootstrap/hmap.h:82-92 | A new map has eight empty buckets. |
| ChainMap.ChainMap.Seek | bootstrap/hmap.h:158-171 | The walk along a bucket finds the node of the key, or proves that no node of the map has it. |
| ChainMap.ChainMap.Get | bootstrap/hmap.h:158-171 | The value of the key in the finite map. |
| ChainMap.ChainMap.Put | bootstrap/hmap.h:99-138 | The map with the key set, and its old value; capacity stays a power of two and size within three quarters of it. |
| ChainMap.ChainMap.Overwrite | bootstrap/hmap.h:115-123 | Only the one value changes. |
| ChainMap.ChainMap.Insert | bootstrap/hmap.h:105-137 | One node is added, behind the head of its bucket. |
| ChainMap.ChainMap.InsertNode | bootstrap/hmap.h:105-137 | The links of the one chain are rewired and no other. |
| ChainMap.ChainMap.ComputeIfAbsent | bootstrap/hmap.h:141-156 | An existing value is returned and kept; otherwise the computed one is put. |
| ChainMap.ChainMap.Remove | bootstrap/hmap.h:173-208 | The map without the key, and its old value. |
| ChainMap.ChainMap.Unlink | bootstrap/hmap.h:180-206 | The first node, or a later one through its predecessor, is taken out of the chain. |
| ChainMap.ChainMap.Grow | bootstrap/hmap.h:47-80 | Rehashing every node into twice the buckets keeps every node and changes no lookup. |
| ChainMap.MoveAll | bootstrap/hmap.h:58-76 | The old chains are taken apart in order while they are rewired; every node ends in its new bucket once. |
| ChainMap.Refile | bootstrap/hmap.h:60-74 | One node goes to the end of its new chain. |
| FlowMachine.Machine.Raise | bootstrap-olg/exec.c:182-192 | A raise jumps to the innermost catch frame, or ends the program if there is none. |
| FlowMachine.Machine.Eval | bootstrap-olg/exec.c:1237-1246 | While a return, break or continue is pending, evaluation has no effect; otherwise it agrees with the outcome semantics and counts its depth. |
| FlowMachine.Machine.EvalInner | bootstrap-olg/exec.c:1395-1478 | Names, operators, unwrapping, closures and calls agree with the outcome semantics. |
| FlowMachine.Machine.InvokeUser | bootstrap-olg/exec.c:2006-2048 | A call runs in a new frame below the closure; return, break and continue end at it, and scope and flag are as before. |
| FlowMachine.Machine.ExecStmt | bootstrap-olg/exec.c:1724-1729 | While a flag is pending a statement has no effect; otherwise flag, label, value, scope, depth and catch frames are exactly what the structured outcome says. |
| FlowMachine.Machine.ExecInner | bootstrap-olg/exec.c:1731-1984 | The same for every kind of statement. |
| FlowMachine.Machine.EvalArgs | bootstrap-olg/exec.c:1395-1424 | Arguments are evaluated from left to right, up to a raise. |
| FlowMachine.Machine.ExecIf | bootstrap-olg/exec.c:1796-1805 | A condition runs one arm and leaves its flag pending. |
| FlowMachine.Machine.ExecFor | bootstrap-olg/exec.c:1849-1869 | A counting loop binds its counter once, in the scope around it. |
| FlowMachine.Machine.ExecBare | bootstrap-olg/exec.c:1980-1982 | An expression executed as it stands: a `match` runs an arm, an `if` hands on to one, and everything else ends the program. |
| FlowMachine.Machine.RunArms | bootstrap-olg/exec.c:1922-1941 | The first arm with a pattern that matches runs, and leaves its flag pending; without one the program ends. |
| FlowMachine.Machine.MatchAny | bootstrap-olg/exec.c:1929-1937 | The patterns of an arm are tried from left to right, up to the first that matches. |
| FlowMachine.Machine.MatchOne | bootstrap-olg/exec.c:1652-1684 | A name matches its value, `_` matches everything, a name that is not bound nothing; literals are compared, and a guard is tested. |
| FlowMachine.Machine.ExecIn | bootstrap-olg/exec.c:1870-1905 | A loop over a range evaluates the range once. |
| FlowMachine.Machine.ExecSeq | bootstrap-olg/exec.c:1988-2002 | Statements run one after the other until a flag is pending. |
| FlowMachine.Machine.ExecBlock | bootstrap-olg/exec.c:1988-2002 | A block stops at the first statement that leaves a flag, and its scope is closed on every way out but a raise. |
| FlowMachine.Machine.ExecRegion | bootstrap-olg/exec.c:1686-1720 | A raise from whatever blocks and calls inside the guarded part lands here, with scope, recursion depth and catch stack as at entry; one from the handlers goes further out. The name of the handler is bound even if it is `_`. |
| FlowMachine.Machine.AfterBody | bootstrap-olg/exec.c:1821-1921 | What a loop does with the flag behind its body: its own break and continue are cleared, labelled ones and returns are passed on. |
| FlowMachine.Machine.RunLoopUntil | bootstrap-olg/exec.c:1821-1848 | A loop with an optional end condition agrees with the outcome semantics. |
| FlowMachine.Machine.RunWhile | bootstrap-olg/exec.c:1821-1848 | A loop with a leading condition agrees with it. |
| FlowMachine.Machine.RunFor | bootstrap-olg/exec.c:1849-1869 | A counting loop agrees with it, its step an assignment or an expression executed as it stands; a flag that an arm of the step leaves pending leaves the next condition without a value, and the program dies. |
| FlowMachine.Machine.RunRange | bootstrap-olg/exec.c:1880-1888 | A loop over a range, rising or descending, with or without its last bound, goes through the integers of the range in order and agrees with it. |
| FlowMachine.FirstElement | bootstrap-olg/exec.c:1881-1884 | The loop's test, one of four, holds exactly if the range has an integer left, which is its current bound. |
| FlowMachine.Machine.InIterate | bootstrap-olg/exec.c:1636-1648 | One iteration binds the ordinal, if there is one, and then the element, and says whether the loop goes on and with which flag it is left. |
| FlowMachine.RunProgram | bootstrap-olg/exec.c:2063-2175 | For every program the flag-and-frame interpreter ends with the exit code or failure of the outcome semantics, and has printed what it prints, also where it raises, dies or outlasts its fuel. |
| FlowFuel.ExecMore | bootstrap-olg/exec.c:1724-1984 | More fuel for loops changes nothing of a statement that ends: the outcome semantics is one semantics. |
| FlowFuel.LoopMore | bootstrap-olg/exec.c:1821-1869 | The same for loops. |
| FlowFuel.TopLevelMore | bootstrap-olg/exec.c:2063-2175 | The same for the declarations of a program. |
| FlowFuel.ProgramMore | bootstrap-olg/exec.c:2063-2175 | More fuel changes nothing of a program that ends. |
| FlowCases.LabelledIs | bootstrap-olg/exec.c:1973-1979 | A labelled loop of any kind is its iterations, seen through the label. |
| FlowCases.LabelledIteration | bootstrap-olg/exec.c:1973-1979 | For every body, condition and step: a labelled loop is over after an iteration that ends in a `break` without a label or in a `break` or `continue` with its own label; it comes to its end condition or step exactly if the iteration ends normally or in a `continue` without a label; everything else leaves it. |
| FlowCases.LabelledRange | bootstrap-olg/exec.c:1973-1979 | The same of a labelled loop over a range. |
| FlowCases.ContinueByLabelEnds | bootstrap-olg/exec.c:1973-1979 | An input: a labelled loop that only continues its own label ends after one iteration, where without the label it never ends. |
| FlowCases.BareIsItsArm | bootstrap-olg/exec.c:1922-1941 | An expression executed as it stands comes down to the body of one arm of a `match`, or ends the program. |
| FlowCases.StepDecides | bootstrap-olg/parser.c:1671-1688 | For every counting loop, by the form of its step, once the condition held and the body is through: the loop goes on exactly behind an assignment whose name is bound and whose value evaluates, or behind an arm that ends normally; it dies at its next condition exactly if an arm returns, breaks or continues; otherwise the step itself ends it. |
| FlowCases.ExpressionStepsRunOnce | bootstrap-olg/parser.c:1671-1688 | A step that is neither an assignment nor can come down to a `match`, such as a call, never lets its loop reach a second iteration. |
| FlowCases.CallStepDies | bootstrap-olg/exec.c:1980-1982 | An input: `loop i := 0; true; f() { }` dies, because a call is not an executable statement. |
| FlowCases.BreakingStepDies | bootstrap-olg/exec.c:1849-1869 | An input: `loop i := 0; true; match 0 { _ => break } { }` dies at its next condition. |
| FlowLaws.FindCellIs | bootstrap-olg/exec.c:231-236 | Lookup: the binding found lies in the first frame, by parent steps from the current one, that binds the name, and is the last binding of it there; there is none exactly if no frame of the chain binds it. |
| FlowLaws.NameIs | bootstrap-olg/exec.c:1251-1266 | A name is worth the value of that binding; without one the run dies. |
| FlowLaws.BoundIsFound | bootstrap-olg/exec.c:218-236 | What is bound in a frame is found from there, whatever the name meant before. |
| FlowLaws.OthersStay | bootstrap-olg/exec.c:218-236 | And no other name means another binding afterwards, from any frame. |
| FlowLaws.WrittenIsRead | bootstrap-olg/exec.c:1554-1562 | An assignment changes the value of one binding and of no other. |
| FlowLaws.WritingKeepsNames | bootstrap-olg/exec.c:1554-1562 | And no name means another binding afterwards. |
| FlowLaws.ShadowingPrints | bootstrap-olg/exec.c:1744-1785 | An instance: `x := 1; { x := 2; println(x) }; println(x)` prints 2 and 1. |
| FlowLaws.OperatorIs | bootstrap-olg/exec.c:1275-1326 | The operators on the values of two operands, the left one evaluated first. |
| FlowLaws.ConditionIs | bootstrap-olg/exec.c:242-256 | A condition is a truth value, an integer by its difference from 0, or an error, which is false; anything else dies. |
| FlowLaws.ParameterIsArgument | bootstrap-olg/exec.c:2006-2048 | A function that returns its `k`th parameter returns its `k`th argument, for any number of parameters, and leaves only its frame behind. |
| FlowLaws.WrongCallsDie | bootstrap-olg/exec.c:2006-2021 | With another number of arguments nothing runs, and only functions can be called. |
| FlowLaws.PatternIs | bootstrap-olg/exec.c:1652-1684 | A literal matches the equal value of its kind and no value of another kind; `_` matches everything. |
| FlowScopes.ExecGood | bootstrap-olg/exec.c:1724-2004 | Every statement keeps this: parents lie below their frames, closures are frames that exist, and frames are never removed, given another parent or shortened. |
| FlowScopes.LoopGood | bootstrap-olg/exec.c:1724-1986 | So does every loop, for any fuel. |
| FlowScopes.ProgramGood | bootstrap-olg/exec.c:2006-2116 | And so does every run of a program, from its first declaration to the end of any call behind it. |
| FlowScopes.ChainStays | bootstrap-olg/exec.c:210-236 | The frames in which a name is looked for from a place stay the same for the rest of the run. |
| FlowScopes.ScopeIsLexical | bootstrap-olg/exec.c:2006-2048 | A function called at any later point of the run, from anywhere, looks names up in its own frame and then in the frames of the place where it was written. |
| FlowScopes.NamesResolve | bootstrap-olg/exec.c:1251-1266 | In every state of a run, a name fails exactly if no frame of its chain binds it. |
| Commands.SlotRoundTrip | bootstrap/vm.c:33-44 | Eight bytes, least significant first, give back the operand they were made of. |
| Commands.EncodeAllAt | bootstrap/vm.c:214-226 | The bytes of a command list are the bytes before, of and behind each command. |
| Commands.SlotIsExact | bootstrap/vm.c:51-82 | A slot holds the mathematical result of an operation exactly if C defines that result; all others wrap. |
| Commands.QuotientInRange | bootstrap/vm.c:69-82 | The least number divided by -1 is the one quotient that C does not define. |
| Vm.VmEngine.constructor | bootstrap/vm.c:180-212 | A new machine has zeroed code and an empty stack. |
| Vm.VmEngine.AddCommand | bootstrap/vm.c:214-226 | A command that fits is appended byte by byte; one that does not is an overflow and leaves the code as it was. |
| Vm.VmEngine.WriteCommand | bootstrap/vm.c:214-226 | The kind is written, then every operand in eight bytes, and nothing behind them. |
| Vm.VmEngine.Pop | bootstrap/vm.c:10-19 | The top is popped; an empty stack stops the machine. |
| Vm.VmEngine.PushOn | bootstrap/vm.c:21-31 | A slot is pushed; a full stack stops the machine. |
| Vm.VmEngine.ExecPush | bootstrap/vm.c:33-44 | The eight bytes behind the kind are pushed as one slot and skipped. |
| Vm.VmEngine.ExecArithmetic | bootstrap/vm.c:51-67 | Two operands are popped and the wrapped result is pushed, right operand on top. |
| Vm.VmEngine.ExecDiv | bootstrap/vm.c:69-82 | Division truncates; a zero divisor stops the machine. |
| Vm.VmEngine.ExecuteKind | bootstrap/vm.c:163-178 | The executor found by kind does what the command means, and leaves the instruction pointer behind its operands. |
| Vm.VmEngine.Execute | bootstrap/vm.c:251-277 | Executing the bytes for any number of steps is interpreting the command list: stack, output, stop and error state. |
| Vm.VmEngine.AtBoundary | bootstrap/vm.c:251-277 | Before each step the instruction pointer is on a command boundary. |
| VmLaws.OperationIs | bootstrap/vm.c:51-67 | From a stack that ends in `y` and `x`, a sum, a difference and a product leave one slot with the bits of `y + x`, `y - x` and `y * x` in their place. |
| VmLaws.ResultIsExact | bootstrap/vm.c:51-67 | Where that fits into 64 bits it is exact: the difference and `x` add up to `y`. |
| VmLaws.QuotientIs | bootstrap/vm.c:69-82 | A quotient leaves a rest smaller than the divisor, 0 or of the dividend's sign; a zero divisor stops the machine. |
| VmLaws.NotIs | bootstrap/vm.c:46-49 | `not` leaves 1 for 0 and 0 for all else. |
| VmLaws.DupIs | bootstrap/vm.c:84-88 | `dup` leaves the top twice, or overflows with the top where it was. |
| VmLaws.EchoIs | bootstrap/vm.c:144-148 | `echo` prints the top as a signed number and takes it away. |
| VmLaws.UnderflowIs | bootstrap/vm.c:10-19 | With too few operands the stack ends up empty and the machine stops. |
| VmLaws.CodeRuns | bootstrap/vm.c:251-277 | The code of any arithmetic tree, anywhere in a command list, leaves one slot more, with the bits of the tree's mathematical value and exact where that fits. |
| VmLaws.PrintingRuns | bootstrap/vm.c:251-277 | Followed by `echo` and `halt` it prints that value and stops. |
| VmLaws.PrintFormula | bootstrap/vm.c:214-277 | The machine itself: an arithmetic tree emitted as bytes and executed prints its mathematical value. |
| VmLaws.TestProgramPrints | bootstrap/vm_test.c:8-31 | The arithmetic part of the repository's own test program prints 0 and 5 and stops. |
| VmLaws.EncodesTo | bootstrap/vm.c:214-226 | The kinds as numbers, and the byte of a small operand first of eight. |
| Ladder.PrintedParses | bootstrap-olg/parser.c:750-869 | Parsing the minimally parenthesised print of a tree at any level returns the tree and stops right behind it, if nothing follows that the level would take. |
| Ladder.ChainRuns | bootstrap-olg/parser.c:750-828 | A left-associative chain is rebuilt by the loop of its level. |
| Ladder.Lifts | bootstrap-olg/parser.c:750-828 | What a tighter level parsed, every looser level returns, if nothing follows that it would take. |
| Ladder.FallbackParses | bootstrap-olg/parser.c:830-844 | A printed `??` parses back at the loosest level, which reads at most one. |
| Ladder.UnwrapRuns | bootstrap-olg/parser.c:968-1045 | Chains of postfix unwraps are rebuilt by the postfix loop. |
| Ladder.ParenParses | bootstrap-olg/parser.c:1313-1321 | Parentheses start over at the loosest level and leave no trace. |
| LadderMachine.LadderParser.ParseLevel | bootstrap-olg/parser.c:750-828 | Each level on the mutable cursor does what its specification does. |
| LadderMachine.LadderParser.Rung | bootstrap-olg/parser.c:750-828 | One rung: the tighter level, then its operators in a loop. |
| LadderMachine.LadderParser.Fallback | bootstrap-olg/parser.c:830-844 | At most one `??`. |
| LadderMachine.LadderParser.Prefix | bootstrap-olg/parser.c:895-912 | Prefix operators nest to the right. |
| LadderMachine.LadderParser.Postfix | bootstrap-olg/parser.c:968-1045 | Postfix unwraps nest to the left; other postfix operators are not modelled. |
| LadderMachine.LadderParser.Primary | bootstrap-olg/parser.c:1268-1321 | Of the primaries, literals, names and parentheses. |
| LadderMachine.LadderParser.Expression | bootstrap-olg/parser.c:846-869 | An expression of the operator ladder is its loosest level. |
| LadderMachine.ParsePrinted | bootstrap-olg/parser.c:846-869 | The parser as a machine, run on the print of a tree, returns the tree and stops at its end. |
| LadderLaws.RungIs | bootstrap-olg/parser.c:777-844 | The operators of the eleven rungs, listed tightest first, have their levels. |
| LadderLaws.TighterFirst | bootstrap-olg/parser.c:750-828 | For operands `x y z` and any operators `p`, `q` of two different rungs, the tighter first: `x p y q z` is `(x p y) q z`. |
| LadderLaws.TighterLast | bootstrap-olg/parser.c:750-828 | With the looser operator first: `x q y p z` is `x q (y p z)`. |
| LadderLaws.SameRung | bootstrap-olg/parser.c:750-828 | Two operators of one rung group to the left. |
| LadderLaws.FallbackBehind | bootstrap-olg/parser.c:830-844 | `??` binds looser than every rung, behind another operator. |
| LadderLaws.FallbackBefore | bootstrap-olg/parser.c:830-844 | And before it. |
| LadderLaws.FallbackOnce | bootstrap-olg/parser.c:830-844 | A second `??` is not read. |
| LadderLaws.PrefixIsTighter | bootstrap-olg/parser.c:895-912 | Prefix operators bind tighter than every rung and nest to the right. |
| LadderLaws.DescendingRange | bootstrap-olg/parser.c:784-818 | `>` right before `..=` or `..<` is one operator of the range rung. |
| LadderLaws.FiveTokens | bootstrap-olg/parser.c:750-869 | On the five tokens `x p y q z`, for any two operators of the rungs: grouped to the left exactly if `p` is as tight as `q` or tighter. |

## Left out

- Files, terminals, the command line, logging, colours, error texts and the failure of `malloc`: they carry no
  meaning here. A `longjmp` is an error result. Diagnostics of the parser (the deepest token reached) are left out.
- Addresses: nodes are known by numbers, distinct in a tree whose nodes were allocated one by one. Reading a
  type nobody wrote, or a slot as what it is not, is the fault `BadReference`.
- Exec.ExecMachine.ApplyValueOf: the digits of a literal are read as a number; white space and signs that
  `strtoll` would also accept cannot come from the lexer and are not modelled.
- Soundness.CheckedProgramsRun: redefinition in one scope, which the checker does not look for, stays a possible
  fault, and definitions in if-arms must sit in braces; without braces the claim is false of some programs, and
  `Soundness.InStepProgramsRun` has the condition in place of the braces.
- The statement `if c then e1 else e2` with expression arms, which the parser accepts and which leaves a value on
  the operand stack, lies outside the walkers' domain.
- Dump: lines are numbers and texts without colours; the linked print chains are sequences.
- ParserMachine: a token's line and column are its place in the stream; a block's own position is 0; a
  lexical error, which the parser takes for a refusal and goes on (bootstrap/parser.c:491-495), is not modelled. That
  the parser rejects all malformed input is not claimed, see `Dangling`.
- GivingUpPrograms.ProgTwiceIff: stated for written programs; that every node of a failed attempt is released at all is
  not modelled.
- Drivers: the parser marks nodes with token positions, the checker and the deallocator know them by addresses; only
  execution, which looks at neither, is followed from the tokens on.
- Drivers.RunExec: what a program prints that the parser accepts outside the walkers' domain is not stated.
- TokenLog: the source is its pieces; `LexerMachine` proves that these are what the character loop reads.
- LexerMachine.Lexer.NextSignificant: where the text fails it returns an error, and what it does after that is not
  modelled: the source keeps a step that is marked as failed, and the next call reads on behind the character.
- ScannerMachine.Reader.GetCh: the text stands for the file and the buffer that is filled from it; read errors are left out.
- Sources.LexAll: asks for all tokens first, where the parser asks for them one by one. That the parser then sees the
  same tokens rests on `TokenLog.NextIsFaithful` and `ParserMachine.RuleGoesForward` and is not stated in one place.
- HashMap: hash and equality are function values of which only the stated congruence is assumed; sizes are
  unbounded numbers. The table-full error of `probe` is proved unreachable from the other operations.
- ChainMap: NULL keys, which every operation answers with 0, and the deallocator of values are left out; a missing
  value is `None`, not 0.
- MergeSort: indices are unbounded numbers.
- FlowMachine.RunProgram: loops run on fuel, and a run that outlasts its fuel is `Unfinished`; `FlowFuel` proves
  that more fuel changes no finished run. Deferred statements, `is` bindings and `check`, compound assignment and swap,
  constructor patterns, short-circuit operators, strings, arrays and records, default parameters and the width of
  integers are not modelled.
- FlowMachine.Machine.ExecIn: ranges, with and without an ordinal; strings and arrays, which the source also runs
  through (bootstrap-olg/exec.c:1888-1901), are not modelled.
- FlowLaws.OperatorIs: of the binary operators `+`, `-`, `<` and `==`, on unbounded integers.
- FlowMachine.Machine.MatchOne: names, integer and boolean literals and guards; constructor patterns and enum values are
  not modelled.
- Vm: the string, constant and address commands are not modelled; the commands that the table has no executor
  for are.
- Vm.VmEngine.ExecArithmetic: signed overflow is undefined in the source and wraps here; `Commands.SlotIsExact` says
  which results that concerns.
- Vm.VmEngine.ExecDiv: the least number divided by -1 is undefined in the source and wraps here; `Commands.QuotientInRange`
  says that it is the only such quotient.
- LadderMachine.LadderParser.Postfix: of the postfix operators only the unwraps are modelled; calls, indexing, members
  and `is` are refused where the source parses them.
- LadderMachine.LadderParser.Primary: literals, names and parentheses only, of the many primaries of the source.
- LadderMachine.LadderParser.Expression: covers the operator ladder above these two only.
- Ladder: the flags that switch off `??`, struct literals and messages are modelled as off. Descending ranges are parsed, not printed.
- Quick sort, binary search, linked lists, plain vectors and stacks would only add easy members. Ownership rules,
  channels and arenas are described in prose and have no implementation to model.
