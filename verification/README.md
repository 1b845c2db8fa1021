# A verified model of Shell++

Shell++ is a tree-walking interpreter for a dynamic shell language. This project models the parts of it where
mutable machinery has to agree with something much simpler, and proves that it does:

- **The statement interpreter.** Break, continue and return are stop flags pushed up a chain of executor objects,
  scopes are tables on mutable stacks, deferred statements sit on the nearest main executor. `BigStep` is a
  reference semantics in which the same things are outcomes of a function; `Interpreter` runs statements through the
  executor objects of `Executors` and is proved to end in the same store, output, exception and flags. About the
  reference semantics the project proves scope balance, rebinding safety, the order of deferred statements, the
  meaning of list comprehensions, and independence of the fuel that bounds a run. What loops, catch clauses, calls and
  the simple statements and expressions do is said a second time without the reference functions, in `Loops`,
  `Catching`, `Returns`, `Statements` and `Expressions`.
- **Binding of call arguments** (`Arguments`): positional, keyword and default values, variadic and `**` parameters.
- **Three scanners**: the main lexer (`Lexer`, `Escapes`), the splitter of `{...}` in string literals
  (`LiteralString`, `LiteralBodies`) and the extraction of `${...}` from command words (`ExtractExpr`).
- **Pipelines** (`Pipeline`): `pipe`, `fork`, `dup2` and `close` over descriptor tables with reused numbers.
- **The bucketed hash map** (`HashMap`) against a finite map, **AND-OR lists** (`AndOr`) and **destructuring
  assignment** (`Destructuring`).

Exceptions are outcomes. User objects are a small value language; functions, tables and stacks are identified by
index where the program uses shared pointers. Every method that changes state is proved against a function of its
inputs and the old state, and the theorems are about those functions.

Some things the source does that a reader may not expect, all of them stated as results:

- A loop name of a comprehension that assignments reach outside is written outside, so a later row of an outer clause
  sees it: `[x for y in [0, 1] for x in [[x]]]` boxes the second element twice (`Scoping.AssignableNamesClobber`). With
  separate loop names, none of them assignable outside, a comprehension means what it denotes, whatever its expressions
  mention (`Scoping.FreshMeaning`). `Comprehension.CompRun` describes every first run, the clobbering ones included, by
  a denotation that threads the loop names which outlive their clause.
- `Pop` leaves the recorded position of the function table as it was. Once a recursive call has returned, a parameter
  named like a global is hidden from assignments: they write the global, and reading still finds the parameter
  (`Comprehension.SetThenRead`, `Scoping.RecursionHides`). In such an activation `[x for x in [[x]]]` gives the old `x`
  (`Scoping.HiddenKeepsOldValue`, `Scoping.HiddenExample`).
- A deferred statement is popped exactly by a round in which it defers nothing. Otherwise it stays and runs again, and
  the last statement that it deferred is dropped unexecuted (`Defers.RoundPops`): `defer if g { g = false; defer s }`
  runs its statement twice and `s` never (`Defers.RunsTwice`). A statement that defers whenever it ends, such as
  `defer { defer s }`, keeps the deferred statements from ever coming to their end (`Defers.RedeferNeverEnds`,
  `Defers.DeferFirst`).
- In a recursive call the snapshot that `defer` takes of a parameter is the outermost activation's: only the tables up
  to the first function table are copied, and every other name is read live (`Snapshot.RecursiveSnapshot`,
  `Snapshot.DeferredReads`).
- A recursive call that returns writes its value into the tables of the activations below it, so an outer activation
  that ends without `return` gives that value and not null (`Returns.RecursionWrites`, `Returns.LeakedReturn`).
- Equality is not symmetric: `true == 3` holds and `3 == true` does not (`Expressions.EqualityIsOneSided`).
- A catch variable keeps an older value when the try block has assigned the same name (`Catching.BoundObject`).
- A missing required parameter is bound to null whenever the argument count happens to fit; it is rejected exactly
  when more parameters are missing than defaults are overridden (`Arguments.CountAccepts`,
  `Arguments.MissingParameterAccepted`). The null stays in the function's default table and lowers the required count,
  so for `f(a, b = 2)` the call `f()` fails at first and succeeds after `f(b = 1)` (`Arguments.EarlierCallsCount`,
  `Arguments.RejectedThenAccepted`).
- In variadic mode a default that carries a parameter's name hides the value given by position
  (`Arguments.DefaultHidesPositional`).
- A numeric escape in an unterminated string makes the lexer read the last digit twice (`Lexer.LastDigitTwice`).
- With an odd number of double quotes before its closing brace a `${...}` is not substituted
  (`ExtractExpr.OneExpression`). Braces inside an expression are balanced, but an inner `${` is not counted, so the
  first inner brace already ends the expression (`ExtractExpr.BalancedExpression`, `ExtractExpr.InnerExpressionCuts`).
- A child of a pipeline keeps the read end of its own output pipe open (`Pipeline.TwoReaders`).
- Assigning an existing key of the hash map writes the last pair of its bucket, and reading looks only at the first
  (`HashMap.AssignIs`, `HashMap.MapObject.Element`).
- The two AND-OR evaluators can return different non-zero statuses (`AndOr.StatusDiffers`).
- An exception leaves a call unchanged exactly when it was not thrown as an object; a thrown object loses its identity
  and the call site reports a plain error (`Defers.DefersRunOnEveryExit`, `BigStep.Invoke`).

## Model

| member | source | states |
|---|---|---|
| `Executors.Executor.SetStop` | src/interpreter/stmt-executor.cc:1013-1025 | the mutable flags of a whole parent chain after `set_stop` are those of the pure rule `Propagate`, for every kind of executor |
| `Executors.PropagateStop` | src/interpreter/stmt-executor.cc:51-58 | a break, continue or return raised on a live chain leaves exactly that stop pending on it |
| `Executors.PropagateGo` | src/interpreter/stmt-executor.cc:1018-1024 | the go that a while loop forwards leaves an unstopped chain unstopped |
| `Executors.MainAbsorbs` | src/interpreter/expr-executor.cc:793-801 | no break, continue or return ever gets past a call |
| `Executors.Executor.GetMainExecutor` | src/interpreter/scope-executor.cc:27-37 | the loop up the parents ends at the nearest main executor, which receives the deferred statements |
| `Interpreter.Interp.ExecStmt` | src/interpreter/stmt-executor.cc:742-890 | flag refinement: any statement run through executor objects ends with the store, output, exception and flags the reference outcome prescribes |
| `Interpreter.Interp.ExecList` | src/interpreter/stmt-executor.cc:33-59 | a statement list stops exactly where the reference list stops, although it only tests its own flag |
| `Interpreter.Interp.ExecWhile` | src/interpreter/stmt-executor.cc:966-1025 | the loop that polls its own flag after each body ends as the reference loop; break is absorbed, return and exceptions pass |
| `Interpreter.Interp.WhileRound` | src/interpreter/stmt-executor.cc:980-1010 | one condition and one body either settle the whole loop or leave the flag that lets it go on |
| `Interpreter.Interp.ExecForIn` | src/interpreter/stmt-executor.cc:1027-1126 | all iterators advance together until the shortest list ends; continue and break stay inside, return leaves |
| `Interpreter.Interp.ExecRows` | src/interpreter/stmt-executor.cc:1060-1100 | the loop over rows, which polls its own flag before it takes the next row, ends as the reference rows |
| `Interpreter.Interp.ExecIf` | src/interpreter/stmt-executor.cc:922-964 | if, else and else-if chains forward every stop of the branch that ran |
| `Interpreter.Interp.ExecTry` | src/interpreter/stmt-executor.cc:626-733 | a caught exception ends normally with the catch block's outcome, any stop inside passes unchanged |
| `Interpreter.Interp.ExecCatches` | src/interpreter/stmt-executor.cc:642-698 | the loop over the clauses ends as the reference clauses, whose meaning `Catching` gives |
| `Interpreter.Interp.ExecScoped` | src/interpreter/stmt-executor.cc:966-979 | the scope guard restores the stack on normal, stopped and throwing exits alike |
| `Interpreter.Interp.ExecValue` | src/interpreter/stmt-executor.cc:892-920 | return, throw, print and expression statements, the return value written to every function table |
| `Interpreter.Interp.Invoke` | src/interpreter/expr-executor.cc:754-801 | a call in the middle of an expression leaves the caller's flags live and gives the reference value or exception |
| `Interpreter.Interp.InvokeFunc` | src/objects/func-object.cc:450-470 | the function table pushed for a call is popped on every exit, and the caller's deferred statements come back |
| `Interpreter.Interp.Activate` | src/objects/func-object.cc:450-483 | a call's table, body, deferred statements and return value, on every exit of the body |
| `Interpreter.Interp.ExecDefers` | src/interpreter/scope-executor.cc:39-47 | the pop loop over the defer stack equals the reference run of the deferred statements |
| `Interpreter.Interp.Defer` | src/interpreter/stmt-executor.cc:1236-1251 | the pushed statement gets a stack made of the copied tables up to the function table |
| `Interpreter.Interp.UntilFuncTable` | src/interpreter/symbol-table.cc:416-431 | the copy loop stops with the first function table from the bottom, or copies all |
| `Interpreter.Interp.ExecComp` | src/interpreter/expr-executor.cc:965-1006 | the first run of a comprehension, while no other is running on its stack, done by building and executing statements, gives the reference value under a guard |
| `Interpreter.Interp.MountStatement` | src/interpreter/expr-executor.cc:1008-1106 | the loop that mounts blocks from the last clause to the first builds the nested for/if/append statement |
| `Interpreter.NestOutcome` | src/interpreter/expr-executor.cc:1008-1106 | a rewritten comprehension never breaks, continues, returns or defers |
| `Interpreter.Interp.FindSite` | src/interpreter/symbol-table.cc:283-323 | the index loop from the top finds the innermost table that binds the name |
| `Interpreter.Interp.SetVar` | src/interpreter/assign-executor.cc:127-139 | an identifier is written where it is found, else in the top table, and the function-table rule decides what can be found |
| `Interpreter.Interp.SetOnFuncs` | src/interpreter/symbol-table.h:458-467 | the return value reaches every function table of the stack and no other table |
| `Interpreter.Interp.BindParams` | src/objects/func-object.cc:128-132 | the parameters of a positional call are entered in order |
| `Interpreter.Interp.RunProgram` | src/interpreter/scope-executor.cc:49-60 | whole programs: root executor, statements, deferred statements, same end as the reference run |
| `Loops.ForMeaning` | src/interpreter/stmt-executor.cc:1027-1126 | how a for loop ends, without the loop: rows pass from store to store while they end normally or continue, and behind them it ends normally at the length of the shortest list or behind the first row that breaks, or with the row that returns, raises or gets stuck; such rows exist and decide the end |
| `Loops.ForRuns` | src/interpreter/stmt-executor.cc:1052-1100 | any rows that passed, with a way to end behind them, give the result of the loop over rows |
| `Loops.WhileMeaning` | src/interpreter/stmt-executor.cc:966-1025 | the same for while: rounds whose condition held and whose body let it go on, then a condition that does not hold, an error, or a body that breaks or leaves |
| `Catching.TryMeaning` | src/interpreter/stmt-executor.cc:626-698 | without an exception no clause is looked at; otherwise the first clause that names a fitting type runs with the object bound, no later one is looked at, and without any the exception leaves as it came |
| `Catching.OneClause` | src/interpreter/stmt-executor.cc:653-709 | one clause naming the type t runs iff t is the exception's kind, Exception or object, or for a thrown value its type name or object (Exception too for errors) |
| `Catching.CatchesIs` | src/objects/obj-type.cc:386-419 | the type test of the clauses is the table of type names, written out for every form of value |
| `Catching.BoundObject` | src/interpreter/stmt-executor.cc:711-720 | in the clause the bound name reads as the object, unless the statement's table had the name already |
| `Returns.CallGivesReturned` | src/objects/func-object.cc:472-484 | a call whose body ends by return gives what the expression of a return statement of the body evaluated to, in the store in which the body stopped; deferred statements do not change it |
| `Returns.CallGivesLast` | src/objects/func-object.cc:472-484 | a body `pre; return x` whose first part ends normally gives the value of x there |
| `Returns.ListReturns` | src/interpreter/stmt-executor.cc:892-914 | a statement list that ends by return stopped at one of its return statements, with the value of its expression written, and only tables were popped since |
| `Returns.OnEveryFuncTable` | src/interpreter/symbol-table.h:458-467 | the value is in every function table of the stack, and no other binding changes |
| `Returns.CallWithoutReturn` | src/objects/func-object.cc:475-484 | without return the call gives what the topmost table that binds the return name has, its own or an outer activation's, then a global, then null |
| `Returns.RecursionWrites` | src/interpreter/symbol-table.h:458-467 | a recursive call that returns leaves its value in the function tables of the activations below |
| `Returns.LeakedReturn` | src/objects/func-object.cc:475-484 | an activation that ends without return with that value in its table gives it |
| `Returns.ParamsRead` | src/objects/func-object.cc:128-132 | each parameter reads as its argument, every other name as before |
| `Expressions.OperatorValue` | src/interpreter/expr-executor.cc:437-560 | left operand first, the right one only if that succeeds, and the value or type error for every operator and pair of types |
| `Expressions.ListsEqual` | src/objects/array-object.cc:161-183 | lists of one length: the first pair without equality decides, else equal iff all elements are |
| `Expressions.EqualityIsOneSided` | src/objects/simple-object.cc:75-86 | a concrete pair that is equal one way round only |
| `Expressions.NameValue` | src/interpreter/symbol-table.cc:283-323 | a name has the value in the topmost table that binds it, then in main, else it is a lookup error |
| `Expressions.InOrder` | src/interpreter/expr-executor.cc:651-680 | several expressions are evaluated from left to right until one fails |
| `Expressions.CallSteps` | src/interpreter/expr-executor.cc:754-791 | function first, then arguments; the errors of a non-function and of a wrong number of arguments |
| `Expressions.BodyRaises` | src/interpreter/expr-executor.cc:788-790 | an exception of the body leaves the call as it is, a thrown object as the plain error |
| `Statements.IfMeaning` | src/interpreter/stmt-executor.cc:922-964 | which branch runs for every value of the condition, else-if chains included |
| `Statements.InSequence` | src/interpreter/stmt-executor.cc:33-49 | a list ends with its first statement that does not end normally |
| `Statements.ValueStatements` | src/interpreter/stmt-executor.cc:735-752 | print adds the value at the end of the output, throw raises it; nothing happens when the expression fails |
| `Statements.PrintsInOrder` | src/interpreter/stmt-executor.cc:33-49 | the output comes in the order of the print statements |
| `Statements.OwnErrors` | src/interpreter/stmt-executor.cc:1546-1557 | global outside the root scope, and a for over no lists or over a value that is none, are errors of their kinds |
| `Statements.AssignShapes` | src/interpreter/assign-executor.cc:60-112 | one value a name, all values as one list to one name, the elements of one list, and the type error otherwise |
| `Statements.WhereWritten` | src/interpreter/symbol-table.cc:283-358 | the table an assignment writes, its old flag kept, and that nothing else changes, for stacks with and without a function table |
| `Statements.DeclarationBinds` | src/interpreter/stmt-executor.cc:206-219 | a declaration adds a function with an empty stack and binds its name in the top table, unless the name is there |
| `BigStep.RunStmt` | src/interpreter/stmt-executor.cc:742-890 | scope balance: after any statement, however it ends, every stack that existed has the same tables in the same order |
| `BigStep.RunRows` | src/interpreter/stmt-executor.cc:1060-1100 | scope balance over all iterations of a for loop, and deferred statements only grow |
| `BigStep.RunComp` | src/interpreter/expr-executor.cc:965-1006 | scope balance of comprehensions, and the deferred statements are those from before |
| `BigStep.Invoke` | src/interpreter/expr-executor.cc:754-801 | scope balance of calls on all exits, for every stack of the store; an exception that leaves a call is never a thrown object |
| `BigStep.Activate` | src/objects/func-object.cc:450-470 | when an activation is over every stack has the tables it had when the activation began, the pushed function table still on top of the function's own; an exception that leaves it is never a thrown object |
| `BigStep.DefersStep` | src/interpreter/scope-executor.cc:39-47 | one round runs the last deferred statement on its own stack and then drops the last one |
| `SymbolTables.PopExt` | src/interpreter/symbol-table.h:374-385 | whatever ran between a push and its pop, popping restores the stack exactly |
| `SymbolTables.LeaveReady` | src/objects/func-object.cc:459-465 | the cleanup of a call always finds the function table it pushed on top |
| `Rebinding.CallsNeverRebindMain` | src/interpreter/symbol-table.cc:325-358 | rebinding safety: no call, with all the calls, defers and comprehensions it makes, changes a main-table binding that is not global |
| `Rebinding.DeferredReadsSnapshot` | src/interpreter/symbol-table.cc:416-431 | a name bound in the function table when `defer` ran is still read with that value on the deferred statement's stack after any further statements |
| `Snapshot.DeferredReads` | src/interpreter/scope-executor.cc:39-47 | when its turn comes, after the rest of the body and all statements deferred later, a deferred statement reads every name bound in the copied tables with the value it had when `defer` ran, and every other name with the value the activation's stack gives it now |
| `Snapshot.RecursiveSnapshot` | src/interpreter/symbol-table.cc:416-431 | in a recursive activation the deferred statement reads the outermost activation's parameter although the activation itself reads its own |
| `Snapshot.TurnComes` | src/interpreter/scope-executor.cc:39-47 | if the run of the deferred statements comes to its end, every one's turn comes, with exactly the earlier ones still pending, whatever the later ones defer |
| `Rebinding.InvokeLeft` | src/interpreter/symbol-table.cc:325-358 | the invariant behind both: a table outside the running stacks is left alone by every call |
| `Rebinding.RunListLeft` | src/interpreter/symbol-table.cc:325-358 | the same invariant over every statement list |
| `Defers.ReverseOrderOnce` | src/interpreter/scope-executor.cc:39-47 | deferred statements that do not defer run exactly once each, the last one first |
| `Defers.DefersRunOnEveryExit` | src/objects/func-object.cc:459-470 | on normal, return and throwing exits of a body its deferred statements run, once each in reverse order iff they defer nothing; the exception passes only after them, unchanged iff it was not thrown as an object |
| `Defers.ReverseOrderIff` | src/interpreter/scope-executor.cc:39-47 | a run that comes to its end executes as many statements as there are entries, old and new, and it is the old ones once each in reverse order iff nothing is deferred on the way |
| `Defers.ProgramRunsDefers` | src/interpreter/scope-executor.cc:49-60 | a program that does not get stuck ends as its root statements did, all its deferred statements run after them |
| `Defers.RoundPops` | src/interpreter/scope-executor.cc:42-46 | a round pops the statement it ran iff that deferred nothing; otherwise the last statement deferred by it is dropped |
| `Defers.RedeferNeverEnds` | src/interpreter/scope-executor.cc:39-47 | with a statement pending, at any place, that defers whenever it ends, no amount of fuel brings the run to its end |
| `Defers.DeferFirst` | src/parser/parser.cc:238-280 | a block or a taken branch that starts with `defer` is such a statement |
| `Defers.RunsTwice` | src/interpreter/scope-executor.cc:39-47 | a concrete program whose deferred statement runs twice while the one it defers never runs |
| `Defers.StmtKeeps` | src/interpreter/scope-executor.cc:23-25 | a statement without `defer` in it leaves the pending statements unchanged, whatever it calls |
| `Comprehension.CompRun` | src/interpreter/expr-executor.cc:965-1106 | every first run of a comprehension with pure parts, while no other is running on its stack, yields the list or exception of the denotation in which the loop names that outlive their clause are threaded from row to row |
| `Comprehension.NestRun` | src/interpreter/expr-executor.cc:1008-1042 | on any stack, the nested statement appends the denotation of its clauses to the accumulator and changes nothing else but the reachable loop names, which end with the threaded values |
| `Comprehension.RowsRun` | src/interpreter/stmt-executor.cc:1060-1100 | the loop over rows meets the denotation of the rows that are left, under bindings earlier rows left behind |
| `Comprehension.RowRun` | src/interpreter/stmt-executor.cc:1102-1114 | the run of one row meets the threaded denotation of that row: a hidden name reads as before, names of the clause's own table do not outlive the clause |
| `Comprehension.EvalPure` | src/interpreter/expr-executor.cc:65-162 | a pure expression evaluates to its value under the loop bindings and leaves the store unchanged |
| `Comprehension.SetThenRead` | src/interpreter/symbol-table.cc:283-358 | an assigned name reads back its value iff it is not hidden (bound below the recorded function table and global in main); no other name changes |
| `Scoping.ThreadIs` | src/interpreter/expr-executor.cc:965-1106 | when no expression mentions a dirty name, the threaded denotation is the flat-map/filter one, and no name but the leaking ones reads differently afterwards |
| `Scoping.CompMeaning` | src/interpreter/expr-executor.cc:965-1106 | the first run yields exactly the flat-map/filter denotation, zip of the shortest length included, or raises its exception; only names assignable at entry or bound twice can be dirty |
| `Scoping.FreshMeaning` | src/interpreter/expr-executor.cc:965-1106 | the same for separate loop names none of which is assignable at entry, with no condition on what the expressions mention |
| `Scoping.AssignableNamesClobber` | src/interpreter/stmt-executor.cc:1102-1114 | for every value of x, what `[x for y in [0, 1] for x in [[x]]]` yields with x hidden, assignable or fresh: it is the denotation iff x is not assignable at entry |
| `Scoping.HiddenKeepsOldValue` | src/interpreter/symbol-table.cc:325-348 | `[x for x in [[x]]]` yields the denotation when x is not hidden and the old value of x when it is |
| `Scoping.RecursionHides` | src/interpreter/symbol-table.h:374-385 | after a further function table was pushed and popped, the hidden names are exactly the ones bound on the stack and global in main |
| `Scoping.RecursionReturns` | src/interpreter/symbol-table.h:374-385 | in the activation `f(7, true)` of a concrete function the recursive call returns to the same tables with the recorded position of its own function table |
| `Scoping.HiddenExample` | src/interpreter/symbol-table.cc:325-348 | there the comprehension yields `[7]` and its denotation is `[[7]]` |
| `Fuel.ProgramMore` | src/interpreter/scope-executor.cc:49-60 | any two amounts of fuel that suffice give a program the same end, so fuel only bounds the observation |
| `Fuel.RunStmtMore` | src/interpreter/stmt-executor.cc:742-890 | more fuel does not change a statement that came to an end |
| `Arguments.FuncDecl.HandleSimple` | src/objects/func-object.cc:108-166 | succeeds iff the count fits and each keyword names a parameter after the positionals; then the i-th parameter has the i-th positional, a named one its keyword's value, every other one its default or null, and the default table has gained a null for exactly the missing parameters; on failure it is unchanged and the error names the first culprit |
| `Arguments.ExactBinding` | src/objects/func-object.cc:108-126 | with every parameter supplied or defaulted, the count check is implied by the two natural conditions, in both directions |
| `Arguments.CountAccepts` | src/objects/func-object.cc:113-126 | the count check accepts iff at most as many parameters are missing as defaults are overridden |
| `Arguments.MissingCount` | src/objects/func-object.cc:113-126 | the number of missing parameters from the counts the source compares (pigeonhole) |
| `Arguments.MissingIsNull` | src/objects/func-object.cc:394-402 | an accepted missing parameter is bound to null, and null comes from nowhere else |
| `Arguments.MissingParameterAccepted` | src/objects/func-object.cc:154-159 | a concrete call without a required parameter that is accepted |
| `Arguments.DefaultsAfter` | src/objects/func-object.cc:394-402 | after any sequence of calls the default table is the given one plus a null for each parameter that some accepted call left out |
| `Arguments.EarlierCallsCount` | src/objects/func-object.cc:108-126 | after any sequence of calls a call is accepted iff its keywords fit and its shortfall is at most the number of parameters left out so far; no accepted call becomes rejected |
| `Arguments.RejectedThenAccepted` | src/objects/func-object.cc:113-126 | a concrete call that is rejected on a fresh function and accepted after another call |
| `Arguments.FuncDecl.BindKeywords` | src/objects/func-object.cc:137-152 | exactly the keywords that name parameters beyond the positionals are bound; otherwise the first offender is reported |
| `Arguments.FuncDecl.FillRest` | src/objects/func-object.cc:154-159 | the loop over fill flags completes the table of values without touching other names, and adds a null default for exactly the missing parameters |
| `Arguments.FuncDecl.RefillDefaults` | src/objects/func-object.cc:161-165 | the last loop rewrites exactly the defaults of unfilled parameters, in any order of the table |
| `Arguments.FuncDecl.HandleVariadic` | src/objects/func-object.cc:168-206 | succeeds iff enough positionals are given and every keyword is a default; then keywords and other defaults have their values, the other parameters their positionals in order, the last one the rest; the error is the count, else the first keyword that is no default |
| `Arguments.VariadicConserves` | src/objects/func-object.cc:176-191 | with defaults apart from the parameters, bound prefix followed by the variadic tuple is the positional list |
| `Arguments.DefaultHidesPositional` | src/objects/func-object.cc:193-195 | exactly when a positional survives a default of the same name |
| `Arguments.FuncDecl.HandleKwargs` | src/objects/func-object.cc:208-296 | the i-th regular parameter has the i-th positional, a named one its keyword's value, every other one its default or null, and the last one exactly the extra keywords; the first keyword that repeats a positional is the error; the default table gains a null for exactly the missing regular parameters, and nothing on failure |
| `Arguments.FuncDecl.SplitKeywords` | src/objects/func-object.cc:250-274 | the loop fails iff some keyword repeats a positional, naming the first, else fills the named parameters and collects the rest |
| `Arguments.KeywordsSplit` | src/objects/func-object.cc:250-274 | the keywords split disjointly into regular and extra ones, none lost or duplicated |
| `Arguments.KeywordLands` | src/objects/func-object.cc:250-295 | every keyword of an accepted call ends in one place with its value |
| `Lexer.Lexer.Scanner` | src/parser/lexer.cc:277-587 | the scanner terminates with the tokens and the error count that the positional reading of the input gives |
| `Lexer.Lexer.ScanRound` | src/parser/lexer.cc:281-584 | one round of the switch reads one token (none for blanks and comments) and ends right behind it |
| `Lexer.Lexer.ScanStringEscape` | src/parser/lexer.cc:71-125 | an escape's text, and the cursor position from which the caller's advance resumes after `Back` |
| `Lexer.Lexer.ScanAnsiEscapeCode` | src/parser/lexer.cc:36-46 | the longest run of octal digits is converted and the cursor steps back, past the end mark at the end of the input |
| `Lexer.Lexer.ScanString` | src/parser/lexer.cc:156-185 | a string literal's text up to the unescaped quote; one error iff the input ends first |
| `Lexer.Lexer.ScanNumber` | src/parser/lexer.cc:221-256 | one loop with a point counter reads integers, reals, and words when a second point comes |
| `Lexer.Lexer.ScanIdentifier` | src/parser/lexer.cc:187-219 | the longest identifier, classified by the keyword table unless it follows a dollar sign |
| `Lexer.Lexer.ScanWord` | src/parser/lexer.cc:258-275 | a word runs to the first separator, escapes resolved |
| `Lexer.Lexer.Advance` | src/parser/lexer.h:82-98 | the position after an advance, from a proper state and from the state `Back` leaves |
| `Lexer.OneEos` | src/parser/lexer.cc:553-558 | every scan ends in exactly one end-of-source token |
| `Lexer.LongestMatch` | src/parser/lexer.cc:309-551 | an operator token is in the operator table, stands in the input, and no longer operator stands there |
| `Lexer.LastDigitTwice` | src/parser/lexer.cc:36-46 | an octal escape at the end of the input yields its character and its last digit again |
| `Lexer.PrintThenScan` | src/parser/lexer.cc:277-587 | scanning the spellings of any printable tokens separated by one blank gives those tokens back |
| `Lexer.RoundTrip` | src/parser/lexer.cc:277-587 | print-then-scan is the identity followed by one end of source, without errors |
| `Lexer.StringAfter` | src/parser/lexer.cc:156-185 | a text with backslashes and quotes escaped is read back unchanged |
| `Lexer.SpellingReads` | src/parser/lexer.cc:281-584 | the spelling of any printable token, followed by a blank or the end, is read as that token |
| `Escapes.CodedRoundTrip` | src/parser/lexer.cc:71-185 | any text without the end byte, its control characters, backslashes and quotes spelled as escapes, scans back to itself between quotes of either kind |
| `Escapes.UnknownEscape` | src/parser/lexer.cc:116-121 | a backslash before any other character stays, and so does the character |
| `Escapes.OctalEscape` | src/parser/lexer.cc:83-89 | a numeric escape takes the zero and all octal digits behind it, or is the null character |
| `Escapes.UnicodeEscape` | src/parser/lexer.cc:91-97 | a unicode escape takes all hexadecimal digits behind it; without any both characters stay |
| `Escapes.WordCodedReads` | src/parser/lexer.cc:127-154 | a word with its control characters and separators spelled as escapes is read back as its text |
| `Escapes.RealReads` | src/parser/lexer.cc:221-256 | digits, a point and more digits are read as one real |
| `Escapes.IntSaturates` | src/parser/lexer.cc:221-256 | a number above the largest int is read as the largest int |
| `Escapes.CommentSkipped` | src/parser/lexer.cc:281-300 | a comment reaches to the end of its line and gives no token |
| `Escapes.OperatorTable` | src/parser/lexer.cc:309-551 | the operators, one by one |
| `Pipeline.Job.LaunchJob` | src/cmd-exec.cc:539-604 | over every n of at least 2, whichever unused descriptors pipe picks: all children wired to their neighbours, the shell's table at the end as at the start |
| `Pipeline.Job.ForkChild` | src/cmd-exec.cc:554-558 | one child gets its neighbours' pipe ends and no other end but its own read end |
| `Pipeline.Process.SetUpFilesDescriptor` | src/cmd-exec.cc:185-213 | for any three open descriptors, which file each standard number ends at, and that every higher entry is kept unless it was one of the three |
| `Pipeline.OneWriter` | src/cmd-exec.cc:593-598 | the write end of pipe i is open in child i and in no other process |
| `Pipeline.TwoReaders` | src/cmd-exec.cc:542-558 | the read end of pipe i is open in child i+1, and in child i, and nowhere else |
| `LiteralString.ParserLiteralString.Scanner` | src/parser/parser_literal_string.cc:8-82 | the mode automaton yields the split of the literal, or throws when the split does |
| `LiteralString.ParserLiteralString.MoveInBraces` | src/parser/parser_literal_string.cc:10-73 | one character inside braces changes brace count, quote and command mode as the automaton step does |
| `LiteralString.SplitRenders` | src/parser/parser_literal_string.cc:8-109 | a successful split is well formed and renders back to the input |
| `LiteralString.RenderSplits` | src/parser/parser_literal_string.cc:8-109 | splitting the rendering of any well-formed list gives that list back |
| `LiteralString.ThrowsIff` | src/parser/parser_literal_string.cc:75-77 | it throws exactly on inputs that end inside an open brace |
| `LiteralString.Alternate` | src/parser/parser_literal_string.cc:84-109 | tokens alternate strictly, starting with plain text |
| `LiteralBodies.BodyPassed` | src/parser/parser_literal_string.cc:33-73 | a body with balanced braces, quoted texts and commands leaves the scan inside braces as it was, at any depth |
| `LiteralBodies.PartFound` | src/parser/parser_literal_string.cc:8-82 | a text and a part with such a body are the first two tokens, whatever follows |
| `LiteralBodies.JoinedSplits` | src/parser/parser_literal_string.cc:8-109 | a literal put together from texts and parts splits into exactly these |
| `HashMap.MapObject.SetItem` | src/objects/map-object.cc:149-157 | the whole table after an assignment, for any hash |
| `HashMap.AssignIs` | src/objects/map-object.cc:149-189 | the table invariant survives, and the assignment changes k's own pair iff k is new or last in its bucket |
| `HashMap.DeleteIs` | src/objects/map-object.cc:289-306 | deletion removes exactly k and keeps the invariant, for any hash |
| `HashMap.MapObject.Element` | src/objects/map-object.cc:191-222 | reading succeeds iff the key is the first of its bucket; with an injective hash it is the map lookup |
| `HashMap.MapObject.Exists` | src/objects/map-object.cc:242-256 | membership for any table |
| `HashMap.MapObject.constructor` | src/objects/map-object.cc:84-93 | of pairs with equal hashes the first stays, and the table is sound |
| `HashMap.MapObject.Add` | src/objects/map-object.cc:108-138 | left-biased union, for any hash, invariant kept |
| `HashMap.MapObject.Filter` | src/objects/map-object.cc:406-432 | exactly the accepted pairs stay, for any hash |
| `HashMap.MapObject.Len` | src/objects/map-object.cc:308-316 | the sum over buckets is the number of keys |
| `HashMap.LenRefines` | src/objects/map-object.cc:308-316 | the length is the size of the finite map the table stands for |
| `HashMap.AssignRefines` | src/objects/map-object.cc:186-189 | with an injective hash assignment is finite-map update |
| `HashMap.Run` | src/objects/map-object.cc:84-316 | any sequence of operations, `in` included, from any literal answers as on a plain finite map, when keys have distinct hashes |
| `HashMap.RunAny` | src/objects/map-object.cc:84-316 | for any hash, any sequence of operations from any literal keeps the table sound and adds and removes keys as on a finite set; membership and length are answered as on that set |
| `HashMap.RunCopied` | src/objects/map-object.cc:140-147 | operations on an object and on its copy, in any order, answer as on two independent finite maps |
| `HashMap.MapObject.In` | src/objects/map-object.cc:264-287 | `in` gives the answer about the first pair of the bucket whose key does not answer no, for any equality, a wrong type included |
| `HashMap.MatchesIs` | src/objects/map-object.cc:264-287 | with an equality that is equality that answer is whether the bucket has the key |
| `HashMap.MapIterObject.Next` | src/objects/map-object.cc:51-70 | a step takes the first pair that is left and leaves the rest |
| `HashMap.Visit` | src/objects/map-object.cc:51-82 | the loop visits the pairs in table order and stops when none is left |
| `HashMap.LoopLength` | src/objects/map-object.cc:51-82 | that order has every pair exactly once and as many steps as the map has keys |
| `ExtractExpr.ExtractExpr.Extract` | src/parser/extract_expr.cc:32-72 | the scan finds the bounds that the positional reading gives |
| `ExtractExpr.ExtractCmdExprFromString` | src/interpreter/cmd-executor.cc:832-873 | the substitution terminates; its result is the in-order concatenation of gaps and resolved expressions |
| `ExtractExpr.PartsPartition` | src/interpreter/cmd-executor.cc:839-871 | gaps and expressions partition the source string |
| `ExtractExpr.PartsShape` | src/interpreter/cmd-executor.cc:846-851 | they alternate, and an expression runs from its dollar sign to its closing brace |
| `ExtractExpr.OneExpression` | src/parser/extract_expr.cc:34-64 | a brace-free expression is found iff the double quotes before its closing brace pair up |
| `ExtractExpr.Lossless` | src/interpreter/cmd-executor.cc:832-873 | when every expression found stands for itself, the string comes back unchanged |
| `ExtractExpr.ScanBody` | src/parser/extract_expr.cc:40-66 | a body with balanced braces, dollar pairs and quoted texts leaves the count of open braces as it was, from any count |
| `ExtractExpr.BalancedExpression` | src/parser/extract_expr.cc:32-72 | a balanced expression behind a text without dollar signs and with paired quotes is found with its own closing brace, whatever follows |
| `ExtractExpr.JoinedParts` | src/interpreter/cmd-executor.cc:832-873 | a string put together from texts and balanced expressions is taken apart into exactly these |
| `ExtractExpr.JoinedResolves` | src/interpreter/cmd-executor.cc:832-873 | there each expression is replaced by its value and the texts stay, in order |
| `ExtractExpr.InnerExpressionCuts` | src/parser/extract_expr.cc:40-47 | an inner dollar brace is not counted: the expression ends at the first inner closing brace |
| `AndOr.Agree` | src/interpreter/cmd-executor.cc:129-179 | both evaluators run the same commands in the same order, agree on success, and the output is that of the commands run |
| `AndOr.LastStatus` | src/interpreter/cmd-executor.cc:160-179 | the status is that of the last command run |
| `AndOr.StatusDiffers` | src/interpreter/cmd-executor.cc:140-144 | exactly when the two evaluators return different statuses |
| `AndOr.UniformIsChain` | src/interpreter/cmd-executor.cc:129-179 | a tree of one operator is the left-to-right chain of its commands |
| `AndOr.Reassociate` | src/interpreter/cmd-executor.cc:129-179 | re-associating such a tree changes neither commands, nor success, nor output, in either evaluator |
| `Destructuring.AssignExecutor.Exec` | src/interpreter/assign-executor.cc:60-78 | all right-hand sides are evaluated in the old environment, then written in order; an error keeps the writes before it |
| `Destructuring.AssignExecutor.AssignEach` | src/interpreter/assign-executor.cc:168-194 | the loop over nested targets makes exactly the writes of the pattern, up to the first mismatch |
| `Destructuring.FailsIff` | src/interpreter/assign-executor.cc:168-222 | an assignment fails iff some node is empty, not a sequence, or of another length |
| `Destructuring.RoundTrip` | src/interpreter/assign-executor.cc:168-222 | reading the names of a distinct pattern back gives the leaves in order, every other name as before |
| `Destructuring.Simultaneous` | src/interpreter/assign-executor.cc:114-119 | parallel assignment to distinct names is simultaneous |
| `Destructuring.ListsAreTuples` | src/interpreter/assign-executor.cc:60-112 | several targets assign as a tuple pattern and several values as a tuple |
| `Destructuring.OneName` | src/interpreter/assign-executor.cc:60-112 | one name takes one value as it is and any other number of values as a tuple |

## Left out

- Interpreter statements not modelled: `switch`, `finally`, classes, interfaces, annotations, imports, `del`, `varenv`, aliases, commands inside expressions.
- Rebinding safety is stated for declared functions; `del`, `eval` and lambdas are not part of the model.
- Functions inside the interpreter take positional arguments only; the other binding modes are in `Arguments`. Lambdas are left out.
- A `for` without test expressions is treated as a type error; iterators other than lists are left out, so are slices, attributes and element access.
- Objects are values: mutation through a shared object and aliasing of arrays are not captured. Integers are unbounded in the interpreter.
- The interpreter methods carry fuel, because programs may loop forever; `Fuel.ProgramMore` shows that fuel does not change a finished run.
- Re-execution of a comprehension node is left out: the source moves its sub-expressions into the first rewrite.
- BigStep.RunAppend: a comprehension nested in the result of another is not the source's: there the receiver of `append` is evaluated before its argument, whose own comprehension then rebinds the accumulator; arrays are values here, so which array was appended to cannot be told. The same holds for a comprehension run by a recursive call out of another on the same stack: with `func f(b) { if b { return [f(false) for x in [1]] } return [9 for y in [1]] }` the source's `f(true)` is `[9]` and the model's is `[9, [9]]`.
- BigStep.RunComp: the first run of a comprehension while no other is running on its stack; see the two lines above.
- Interpreter.Interp.ExecComp: the same.
- Interpreter.Interp.ExecStmt: the statements listed above are not among the cases.
- Interpreter.Interp.ExecTry: a `finally` block is not part of the statement.
- Interpreter.Interp.ExecCatches: catch classes are the built-in types and exceptions; user classes and interfaces are left out.
- Interpreter.Interp.ExecForIn: only lists are iterable.
- Interpreter.Interp.ExecValue: a return has one value; the tuple of several values is left out, and a return of none is a return of null.
- Interpreter.Interp.Invoke: only declared functions are called; type constructors, special functions and built-in ones are left out.
- Scoping.CompMeaning: its condition on dirty names is sufficient only; `Comprehension.CompRun` gives the result of every other run.
- Arguments.FuncDecl.HandleKwargs: more positionals than regular parameters are excluded, since the source then writes past its fill flags.
- Variadic-plus-kwargs binding is left out: keyword overrides of defaults are overwritten there.
- Lexer.Lexer.ScanNumber: a real is kept as its digits; the conversion to floating point is left out.
- Token lines, columns and the blank-after flag, and the exceptions of over-long numeric escapes; the conversions of numeric escapes and of reals are parameters or kept as digits.
- Lexer.RoundTrip: words, reals and texts with the byte 0xFF are not printable tokens; an empty input is excluded because the source reads past it.
- Parsing (`src/parser/parser.cc`) and the syntax tree classes.
- Pipeline.Job.LaunchJob: every pipe and fork succeeds and at least two commands run; the standard descriptors are open, no output is descriptor 0, and an input above 2 differs from the outputs (`SetUpFilesDescriptor` covers the other cases for one process). Process groups, signals, terminals, waiting and exec are left out.
- Hash map `clear`, `update` and overriding insertion, which work on copies; values shared between a map and its copy; iteration over tables with an empty bucket, which the source does not survive.
- ExtractExpr.ExtractCmdExprFromString: resolving an expression is a parameter; an empty string is excluded because the source reads past it.
- AND-OR: what a simple command does is a parameter that may depend on the commands run before; it is the same in both evaluators.
- Destructuring.FailsIff: the values unpacked are atoms, tuples and arrays; the source unpacks any other iterable too.
- Destructuring targets that are attributes or elements, and compound assignment operators.
- Regular expressions, globs, files, environment, number formatting, the printer and the error formatter.
