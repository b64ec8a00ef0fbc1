# PlainSpeak: verified models

PlainSpeak compiles prose source to C. This project models the parts of the compiler and of its
runtime that decide, transform or mutate, and proves what they are for. One module stands for one
component; a `...Theorems`, `...Soundness` or `...RoundTrip` module holds the proofs about its model.

* **Return paths.** `Flow` defines the runs of a procedure body with Go to, labels, Break, Continue,
  fall-through Switch and five kinds of loop, twice over the same places: mode `C` is what the emitted
  program can do, mode `Graph` what the checker's edges allow. `ReturnPaths` is the checker itself, a
  class that grows successor lists, pushes and pops its two stacks and sweeps with a worklist; it is
  proved to answer exactly the reachability question of mode `Graph` (through `GraphBuilder`, the
  construction as a function of the builder's state, and `ControlGraph`, a bisimulation between nodes
  and places). `BodyRuns` says what the emitted statements do when they run, loops turn by turn, and
  ties mode `C` and the exit edges of the graph to it. `ReturnPathTheorems` compares the two modes, `Completion` gives a structural judgement
  equal to the graph search on label-free bodies, and `ReturnPathLimits` states, for whole bodies and
  for each construct whose edges differ from C, exactly when an answer misses a real way to fall off
  the end and exactly when it reports one that does not exist.
* **Sequencing.** `Sequencing` is the effect sets and the conflict test; `EvaluationOrder` is a
  small-step semantics in which operands interleave and postfix writes are delayed to any moment
  before the next sequence point (section 6.5 paragraph 2 of ISO/IEC 9899:1999); `EvaluationConflicts`
  shows that in expressions of operators every report is about a real difference.
* **Types.** `Constants` is the translation-time evaluator, `Conversions` the promotions and usual
  arithmetic conversions in every data model with non-decreasing widths, `ConstSafety`,
  `ConstSoundness` and `ConstRules` qualification, assignability, the const guarantee over whole runs and
  that its rules reject nothing without need, `Records`, `RecordTheorems` and `RecordRules` the completion
  of structures and unions in source order.
* **Parser and printer.** `Syntax` has the trees and tokens. `Grammar` is one mutually recursive
  grammar of expressions, type spellings and aggregate blocks, `Sentences` that of sentences, blocks
  and programs: functions from the tokens left to a tree and the tokens left after it. `Parser`
  is the cursor over the token vector, whose methods and loops are proved to read what those functions
  say and never to move past the end-of-file token. `Printer` is the printer of expressions and types,
  `SentencePrinter` that of sentences and programs. `TypeSpellings`, `ExpressionRoundTrip` and
  `SentenceRoundTrip` say what the grammar makes of their text, `SpokenForms` and `ConditionForms` what
  it makes of the forms that are never printed, `Precedence` how tightly operators bind.
  `Primitives` and `Types` hold the operators and qualifiers that several modules share.
* **C emitter.** `Declarators` and `DeclaratorRoundTrip` are inside-out declarators against the
  declarator grammar of section 6.7.5; `AggregateInit`, `AggregateTheorems` and `InitializerRules` the two
  lowerings of aggregate initializers against section 6.7.8 and the rule that accepts them;
  `Lowering` the raw and boxed expression lowerings; `Literals` string literals and the search for an enclosing pair of parentheses.
* **Runtime lists.** `Lists` is the heap of growable buffers reached through aliasing handles,
  `ListPrograms` programs over them and the meaning of For each, `ListGrowth` the cost of doubling.

## Where the code and its comments differ

* The comment at `src/sema/sema.cpp:489-498` says that the return-path analysis never rejects a
  procedure that always returns. It does. `ReturnPathLimits.VerdictExact` and
  `ReturnPathLimits.WhileVerdict` say when; the smallest bodies are a loop with a constant test around
  a Break that stands after a Return (`ReturnPathLimits.UnreachableBreakIsReported`) or in a
  compile-time conditional that selects nothing (`ReturnPathLimits.UnselectedBreakIsReported`).
* The same comment presents the edges that are left out (known positive Repeat and known non-empty
  For) as harmless. They make the checker miss real ways to fall off the end;
  `ReturnPathLimits.RepeatVerdict` and `ReturnPathLimits.ForVerdict` say exactly when.
* Boxed `and` and `or` evaluate both operands, raw ones do not. `Lowering.BoxedAgreesIff` gives the
  exact condition under which the two agree; `0 and 1 divided by 0` is outside it
  (`Lowering.GuardedDivisionDisagrees`).
* A printed Choose as left operand takes the operator into its last branch.
  `ExpressionRoundTrip.PrintedReadsRegrouped` says what every printed expression is read as, and
  `ExpressionRoundTrip.RoundTripIff` when that is the expression itself. An array length that is an
  expression takes in an operator that was printed behind the type. The printer also drops "and
  variadic parameters" from function types, prints whole decimals without a point, and has no text
  for some forms (`ExpressionRoundTrip.UnknownIsUnreadable`, `ExpressionRoundTrip.OtherFunctionIsLost`).
* Of a declaration's storage phrases only "deprecated" and "maybe unused" are printed, and a procedure
  that takes nothing but variable arguments is printed without "takes"
  (`SentenceRoundTrip.ProgramRoundTripIff`, `SentenceRoundTrip.VariadicAloneIsUnreadable`).
* A declared function that returns a pointer, array or function is emitted with the base spelling of
  its result only. `DeclaratorRoundTrip.DeclarationSpells` says which type the text declares.
* The printer writes strings without escapes. `Literals.ReadTextIff` and
  `ExpressionRoundTrip.StringTextReads` say what is read instead: another string, or a shorter one.

## Model

| member | source | states |
|---|---|---|
| ReturnPaths.EndIsReachable | src/sema/sema.cpp:499-693 | builds the graph, resolves the gotos and sweeps; answers true if and only if some path of the checker's step relation leads from the start of the body to its end |
| ReturnPaths.ReturnPathChecker.BuildStmt | src/sema/sema.cpp:588-693 | adds the nodes, edges, labels and pending gotos of one statement to the state, as the construction function prescribes, and returns the entry node |
| ReturnPaths.ReturnPathChecker.BuildBlock | src/sema/sema.cpp:534-538 | builds a block from its last statement to its first, each continuing at the one built before |
| ReturnPaths.ReturnPathChecker.BuildCases | src/sema/sema.cpp:542-565 | clauses from last to first, Break bound to the entry of the following clause, head edges in source order, an exit edge when there is no default |
| ReturnPaths.ReturnPathChecker.BuildRepeat | src/sema/sema.cpp:619-627 | no continue target is pushed; exit edge unless the count is a known positive constant |
| ReturnPaths.ReturnPathChecker.BuildWhile | src/sema/sema.cpp:628-639 | exit edge unless the test is a known non-zero constant and no Break leaves the loop |
| ReturnPaths.ReturnPathChecker.BuildDoWhile | src/sema/sema.cpp:640-653 | separate test node, which is the continue target and carries the exit edge |
| ReturnPaths.ReturnPathChecker.BuildFor | src/sema/sema.cpp:654-669 | exit edge unless both bounds are known and the range is not empty |
| ReturnPaths.ReturnPathChecker.ResolveGotos | src/sema/sema.cpp:567-572 | every pending goto whose label exists gets one edge to the label's node, in order |
| ReturnPaths.ReturnPathChecker.SweepFrom | src/sema/sema.cpp:574-585 | terminates, and marks the end reached if and only if a path of edges leads from the entry to it |
| GraphBuilder.BodyBuilt | src/sema/sema.cpp:534-693 | what is built for a body is the complete layout of that body, all edges in range, gotos in order |
| ControlGraph.StepAt | src/sema/sema.cpp:534-693 | bisimulation: the successors of the node of a place are the nodes of the place's successors |
| ControlGraph.GraphIsExact | src/sema/sema.cpp:501-508 | in the finished graph the end is reachable from the entry if and only if some run of the step relation reaches it |
| ReturnPathTheorems.Soundness | src/sema/sema.cpp:489-693 | on bodies without a Break in a non-last clause, a Continue bound to a Repeat, a constant non-empty Repeat or For, or an unselected compile-time conditional: if some C run falls off the end, the graph's end is reachable; gotos may go anywhere |
| ReturnPathTheorems.ExactAnswer | src/sema/sema.cpp:489-693 | if moreover no loop test is decided in a way the graph ignores, the end is reachable if and only if some C run falls off |
| Completion.CompletionExact | src/sema/sema.cpp:450-693 | on label-free bodies falling off the end is equivalent, in the graph and in C, to a structural judgement that tracks normal, break and continue exits |
| ReturnPathLimits.VerdictExact | src/sema/sema.cpp:489-693 | for every label-free body: no way to fall off is missed if and only if the judgement in C implies that in the graph, and there is no false report if and only if the converse holds |
| ReturnPathLimits.RepeatVerdict | src/sema/sema.cpp:619-627 | a Repeat within any label-free body: both directions exactly; where the count is known and gives a turn, the graph leaves it only by Break, C also at the end of an iteration |
| ReturnPathLimits.ForVerdict | src/sema/sema.cpp:654-669 | the same for a For whose bounds are known and whose list of values is not empty |
| ReturnPathLimits.WhileVerdict | src/sema/sema.cpp:628-639 | a While within any label-free body: with a constant non-zero test it really ends only by a Break that can be reached, and is reported when a Break merely stands in it or the graph reaches one |
| ReturnPathLimits.WhileIsNeverMissed | src/sema/sema.cpp:450-487 | every Break that can be taken is found by the search for Breaks, so a While itself never hides a way to fall off |
| ReturnPathLimits.DoWhileVerdict | src/sema/sema.cpp:640-653 | a Do-while within any label-free body, both directions exactly |
| ReturnPathLimits.CompileIfVerdict | src/sema/sema.cpp:611-616 | an unselected conditional within any label-free body is read as its first branch: both directions exactly |
| ReturnPathLimits.SwitchVerdict | src/sema/sema.cpp:542-565 | a Switch within any label-free body: in C it ends by the Break of any clause, in the graph by that of the last; both directions exactly |
| ReturnPathLimits.RepeatContinueIsLost | src/sema/sema.cpp:619-627 | a Go to into a Repeat followed by Continue: a C run falls off the end that the graph says cannot be reached |
| ReturnPathLimits.UnreachableBreakIsReported | src/sema/sema.cpp:489-498 | a loop around Return and Break is always reported, and really falls off exactly when its test is not a known non-zero constant |
| ReturnPathLimits.UnselectedBreakIsReported | src/sema/sema.cpp:489-498 | the same for a loop around a compile-time conditional that selects nothing and holds a Break |
| BodyRuns.CountedIs | src/codegen/c_emitter.cpp:1099-1111 | the values of a For's variable, from `v = from; v <= to; v++` or its descending form, are the numbers from the first to the last, one apart |
| BodyRuns.FallsOffIffRunEnds | src/codegen/c_emitter.cpp:1032-1123 | on label-free bodies, falling off in mode `C` is the same as some run of the emitted statements ending, where a Repeat takes as many turns as its count, a For one for each value, a tested loop goes round while its test may hold, and clauses fall through |
| BodyRuns.RunsExactS | src/codegen/c_emitter.cpp:1032-1123 | the same for each way out of one statement: end, Break and Continue |
| BodyRuns.ExitEdgeIff | src/sema/sema.cpp:619-669 | the graph leaves a counted loop if and only if it may take no value at all, a tested one if and only if its test may fail or a Break stands for it |
| BodyRuns.KnownBounds | src/sema/sema.cpp:654-669 | a For may take no value if and only if a bound is unknown or the list from the first bound to the last is empty |
| BodyRuns.LevelBreakIff | src/sema/sema.cpp:450-487 | the search finds a Break if and only if some Break in the body, reached or not, goes to what follows the loop |
| Sequencing.ConflictIsReported | src/sema/sema.cpp:1973-2000 | where an outer node stays silent because a conflict lies below, some node below reports |
| Sequencing.SilentIffIndependent | src/sema/sema.cpp:326-418 | no report at all if and only if at every unsequenced operator the operands' reads and writes are disjoint |
| Sequencing.EffectsAre | src/sema/sema.cpp:326-374 | the effects of a scalar expression are exactly the native variables that stand in it and those it increments or decrements |
| Sequencing.ClashIff | src/sema/sema.cpp:376-395 | two sides clash if and only if one writes what the other reads or writes |
| Sequencing.OnlyUnsequencedReported | src/sema/sema.cpp:376-418 | reading a variable beside its step is reported for every operator but `and`, `or` and the one that evaluates its operands in turn |
| Sequencing.ArgumentsConflictIff | src/sema/sema.cpp:397-418 | arguments conflict if and only if one of them does in itself or two different ones clash |
| EvaluationOrder.NoReportMeansOneResult | src/sema/sema.cpp:1973-2000 | confluence: without a report every finished evaluation, whatever its interleaving and delayed writes, gives the value and store of left-to-right evaluation |
| EvaluationOrder.StepKeeps | src/sema/sema.cpp:326-374 | each step of any evaluation order keeps the final result, and stays within the effect sets |
| EvaluationOrder.Progress | src/sema/sema.cpp:326-418 | an evaluation that is not finished can take a step |
| EvaluationOrder.StepShrinks | src/sema/sema.cpp:326-418 | every step makes the remaining work smaller, so every evaluation ends |
| EvaluationOrder.EvaluatesExactly | src/sema/sema.cpp:326-374 | without steps the left-to-right reference changes nothing and gives the value of exact evaluation, wherever that is defined |
| EvaluationOrder.StepsByOne | src/sema/sema.cpp:326-374 | a step changes its variable by one, with the old number as value behind the variable and the new one in front of it |
| EvaluationOrder.ReadBesideChange | src/sema/sema.cpp:376-395 | reading one variable beside changing another is reported exactly when they are the same object, and then two orders give two values |
| EvaluationConflicts.ThreeOrders | src/sema/sema.cpp:326-374 | operands from left to right, from right to left, and all stores delayed to the end are evaluations that C allows |
| EvaluationConflicts.ReportMeansDifference | src/sema/sema.cpp:1973-2000 | in an expression of variables, increments, decrements and operators without sequence points a report means that, from every store, two of these orders give different values, for all operators that keep their operands apart |
| EvaluationConflicts.ReportIffDifference | src/sema/sema.cpp:1973-2000 | such an expression is reported if and only if some operators give it two values |
| Constants.CheckedAdd | src/sema/sema.cpp:174-181 | the sum exactly when it fits in long |
| Constants.CheckedSub | src/sema/sema.cpp:183-190 | the difference exactly when it fits in long |
| Constants.CheckedMul | src/sema/sema.cpp:192-215 | the product exactly when it fits in long, by division tests only |
| Constants.MachineBitsExact | src/sema/sema.cpp:217-276 | bitwise operators on a register agree with those on unbounded two's complement numbers |
| Constants.ApplyBinaryExact | src/sema/sema.cpp:235-276 | each operator yields a constant exactly when the mathematical result is defined and in range, and then yields it; shift pre-checks included |
| Constants.ConstantValueExact | src/sema/sema.cpp:217-293 | a constant value v is found if and only if exact evaluation with short-circuit and selected branches, every step defined and in range, yields v |
| Constants.ConstantHoldsInEveryStore | src/sema/sema.cpp:217-293 | a constant value is the value in every store |
| Constants.ConstTruthyIff | src/sema/sema.cpp:295-298 | a test counts as always true if and only if some non-zero number is its value in every store |
| Constants.ConstantBits | src/sema/sema.cpp:278-280 | bit i of a constant `and`, `or`, `xor` and complement, by quotients of powers of two: both, at least one, exactly one, not |
| Constants.ConstantBitsSum | src/sema/sema.cpp:278-280 | and + or is the sum of the operands, xor + and is or |
| Constants.ConstantDivision | src/sema/sema.cpp:235-276 | quotient and remainder give the dividend back, the remainder is shorter than the divisor and not of the other sign than the dividend; unknown exactly for a zero divisor and the one quotient too large |
| Constants.ConstantShifts | src/sema/sema.cpp:235-276 | a left shift multiplies, known exactly while the product fits; a right shift divides and rounds down |
| Constants.ConstantTests | src/sema/sema.cpp:235-276 | comparisons and logical operators give 1 exactly when they hold, and 0 otherwise |
| Conversions.PromotionPreserves | src/sema/sema.cpp:786-810 | promotion changes no value, in every data model |
| Conversions.PromotionIff | src/sema/sema.cpp:786-810 | a type below int becomes int if and only if int holds all its values, and unsigned int otherwise; others stay |
| Conversions.SignedResultPreserves | src/sema/sema.cpp:812-835 | a signed common type holds every value of both operands |
| Conversions.EveryValueKept | src/sema/sema.cpp:812-835 | every value of both promoted operands is kept if and only if the common type is signed or both were unsigned |
| Conversions.Commutative | src/sema/sema.cpp:837-857 | the usual arithmetic conversions are commutative |
| Conversions.Associative | src/sema/sema.cpp:837-857 | they are associative, floating and complex types included |
| Conversions.Idempotent | src/sema/sema.cpp:786-857 | they are idempotent after promotion, and promotion is |
| Conversions.LeastUpperBound | src/sema/sema.cpp:812-835 | the common integer type is above both promoted operands and below every other type that is |
| Conversions.LeastCommonType | src/sema/sema.cpp:837-857 | in one order over all arithmetic types, integers below float, double, long double and complex, the common type is the least one above both promoted operands |
| Conversions.TypeOrder | src/sema/sema.cpp:837-857 | that order is reflexive, antisymmetric and transitive |
| Conversions.AtMostOrder | src/sema/sema.cpp:812-835 | that order is reflexive, antisymmetric and transitive |
| ConstSoundness.ConstObjectsNeverChange | src/sema/sema.cpp:2602-2617 | whatever accepted Set, Set value at and tests run in whatever order: no object declared constant changes, no operation meets a value of a wrong type, and every stored pointer is null or refers to an object its type may reach |
| ConstSoundness.EvalSound | src/sema/sema.cpp:1753-1886 | an accepted expression evaluates to a value of its inferred type or to undefined behaviour, keeps the invariant and all constants; constant expressions keep their truth |
| ConstSoundness.ConvertedFits | src/sema/sema.cpp:702-723 | every branch of the assignment rule converts a value of the source type to one of the target type |
| ConstSoundness.PointerRuleIsWeakest | src/sema/sema.cpp:139-168 | a pointer assignment is admitted if and only if every value that fits the source type fits the target type, in every environment |
| ConstSoundness.ConvertZero | src/sema/sema.cpp:837-857 | conversion to the common type never turns a non-zero operand into zero |
| ConstSoundness.ChosenFits | src/sema/sema.cpp:1812-1852 | whichever branch of a Choose is selected, its value fits the inferred common type |
| ConstSoundness.VoidPointerDefeatsConst | src/sema/sema.cpp:154-155 | an example that the guarantee needs there to be no void pointee: with a pointer to void, a pointer and a pointer to pointer to constant, an accepted run overwrites a constant |
| ConstSoundness.ZeroStoreIsGood | src/sema/sema.cpp:2602-2617 | the zero-initialised store satisfies the invariant |
| ConstRules.AssignmentRuleIsWeakest | src/sema/sema.cpp:702-723 | an assignment is rejected only when some value of the source has no counterpart in the target, or to keep pointers out of a Boolean |
| ConstRules.ModifiableIsWeakest | src/sema/sema.cpp:1450-1456 | a target is rejected only when an object it may designate is constant |
| ConstRules.AcceptedIff | src/sema/sema.cpp:2602-2617 | a statement is accepted if and only if its expressions are typed, what it writes may not be constant, and all it may write has a value there |
| ConstRules.TypedIff | src/sema/sema.cpp:1753-1886 | an expression is typed if and only if its names exist, what is followed is a pointer, operands of a choice have a common type, and what is stepped is a scalar object that may change |
| ConstRules.ChoiceTypedIff | src/sema/sema.cpp:1812-1852 | two operands have a common type if and only if both are integers, both null, pointers to one type, or a pointer and a null |
| ConstRules.ChosenPointerIsLeast | src/sema/sema.cpp:1812-1852 | of two pointers it is the least qualified one that both pointees may be reached through |
| ConstRules.ConversionIs | src/sema/sema.cpp:702-723 | conversion to an integer type gives the one value of that type that is the same modulo its width, for Boolean whether the value is not zero |
| ConstRules.StepIs | src/sema/sema.cpp:1753-1886 | stepping an integer object stores the next number where the type holds it, with the old or the new one as value; signed overflow is undefined |
| ConstRules.PointeesIff | src/sema/sema.cpp:139-168 | pointers may be assigned between objects of one type, between void and any object, and between functions whose parameters and results are of the same sorts |
| Records.RecordChecker.Define | src/sema/sema.cpp:2625-2778 | checks the members of a structure or union one by one; rejects exactly the definitions that break a rule, and completes the tag with its members and flag otherwise |
| Records.ScanEnds | src/sema/sema.cpp:2628-2713 | the loop's variables decide acceptance and the flexible flag exactly |
| RecordRules.AcceptedIff | src/sema/sema.cpp:2625-2778 | a definition is accepted if and only if it has members, named ones differ, and each stands where it is: a layout settled in every dimension, a flexible one last in a structure behind another named one and never inside an array or structure, a bit-field that fits |
| RecordRules.EveryBitFieldFits | src/sema/sema.cpp:2513-2556 | after any history, every number of a kept bit-field's width and sign is a value of its type |
| RecordRules.BitFieldIff | src/sema/sema.cpp:2513-2556 | a bit-field is rejected only for a type that is no integer, atomic or an unknown enumeration, a width some number of which the type does not hold, or a named width of 0 |
| RecordRules.CompleteIff | src/sema/sema.cpp:1406-1471 | a type is complete if and only if its size is settled in every dimension |
| RecordRules.DefineCompletes | src/sema/sema.cpp:2765-2778 | an accepted definition completes its record with its members and changes no other, a rejected one changes nothing |
| RecordTheorems.EveryTableGrounded | src/sema/sema.cpp:2625-2783 | after any definitions in any order, every by-value member of a completed record is complete and was completed earlier |
| RecordTheorems.NothingHoldsItself | src/sema/sema.cpp:2625-2783 | no record holds itself by value at any depth |
| RecordTheorems.HasConstIff | src/sema/sema.cpp:1431-1448 | the search terminates, and finds a constant if and only if some part at any depth is constant |
| RecordTheorems.ModifiableRecordIff | src/sema/sema.cpp:1450-1456 | a structure or union is modifiable if and only if no part of it is constant |
| RecordTheorems.ContainsFlexibleIff | src/sema/sema.cpp:1458-1471 | the flag answers true if and only if some path of by-value parts leads to a flexible member |
| RecordTheorems.OnlyUnionsOnTheWay | src/sema/sema.cpp:2625-2783 | no array element and no structure member contains a flexible member: only unions lie on such a path |
| RecordTheorems.TreesWellFormed | src/sema/sema.cpp:2625-2713 | every type of every such table resolves to a finite type tree as the initializer theorems need it |
| Grammar.ParseLevel | src/parser/parser.cpp:1285-1428 | at every level of the ladder the parser fails or consumes at least one token, whatever the tokens: expressions, types and aggregate blocks may call one another to any depth |
| Grammar.ParsePrimary | src/parser/parser.cpp:1565-1850 | so does every primary, all word-led forms included |
| Grammar.ParseSpec | src/parser/parser.cpp:1075-1283 | so does every type specifier, with lengths and "type of" that hold expressions |
| Grammar.ParseAggregate | src/parser/parser.cpp:1430-1490 | so does every aggregate block, nested blocks included |
| Grammar.ParseCompound | src/parser/parser.cpp:1503-1528 | so does a compound value |
| Grammar.ParseSelect | src/parser/parser.cpp:1530-1563 | so does a selection by type |
| Sentences.ParseSentence | src/parser/parser.cpp:55-346 | every sentence, at top level or in a block, fails or consumes at least one token, blocks nested to any depth |
| Sentences.ParseSentences | src/parser/parser.cpp:1052-1063 | the sentences of a block end in front of exactly the words that close it, and never beyond the tokens there are |
| Sentences.ParseSwitch | src/parser/parser.cpp:874-909 | the loops over clauses and over the sentences of a clause end |
| Sentences.ParseCompileIf | src/parser/parser.cpp:700-757 | the loops over branches and over their sentences end |
| Parsing.Parser.ReadLevel | src/parser/parser.cpp:1285-1424 | the cursor returns the tree and leaves the position that the grammar prescribes, or fails exactly when it does; it is never past the end-of-file token |
| Parsing.Parser.ReadOperators | src/parser/parser.cpp:1287-1428 | the loop that folds left-associative operators, at each of its levels |
| Parsing.Parser.ReadNot | src/parser/parser.cpp:1342-1356 | prefix "not" and "bitwise not" |
| Parsing.Parser.ReadComparison | src/parser/parser.cpp:1358-1375 | at most one comparison, the longer spellings first |
| Parsing.Parser.ReadPrimary | src/parser/parser.cpp:1565-1850 | literals, parentheses and all word-led forms |
| Parsing.Parser.ReadItems | src/parser/parser.cpp:1711-1724 | the loop over items with "followed by" between them |
| Parsing.Parser.ReadArgs | src/parser/parser.cpp:1822-1847 | arguments side by side until "done" |
| Parsing.Parser.ReadSpec | src/parser/parser.cpp:1075-1283 | qualifiers and type |
| Parsing.Parser.ReadParams | src/parser/parser.cpp:1191-1212 | the loop over parameter types |
| Parsing.Parser.ReadAggregate | src/parser/parser.cpp:1430-1490 | an aggregate block and its entries |
| Parsing.Parser.ReadSelect | src/parser/parser.cpp:1530-1563 | the associations and the default of a selection by type |
| Parsing.Parser.ReadSentence | src/parser/parser.cpp:55-346 | the sentence that its verb announces, as the grammar of sentences prescribes |
| Parsing.Parser.ReadSentences | src/parser/parser.cpp:1052-1063 | the loop over the sentences of a block, which fails at the end of the file |
| Parsing.Parser.ReadDeclare | src/parser/parser.cpp:399-456 | a declaration with its storage phrases, type and initializer |
| Parsing.Parser.ReadFields | src/parser/parser.cpp:458-504 | the loop over the fields of a structure or union |
| Parsing.Parser.ReadIf | src/parser/parser.cpp:763-793 | a conditional with its one or two blocks |
| Parsing.Parser.ReadSwitch | src/parser/parser.cpp:874-909 | a Switch with at least one clause |
| Parsing.Parser.ReadCompileIf | src/parser/parser.cpp:700-757 | a compile-time conditional and its further branches |
| Parsing.Parser.ReadProcedure | src/parser/parser.cpp:977-1050 | a procedure's header, which types every parameter or none, marks and body |
| Parsing.Parser.ReadProgram | src/parser/parser.cpp:49-53 | for every token vector the loop ends: with an error, or with the program and the cursor on the end-of-file token |
| ExpressionRoundTrip.PrintedReadsRegrouped | src/ast/ast_printer.cpp:112-247 | the printed text of every form, followed by anything but an operator or the rest of its last type, is read as the expression in which operators after an open Choose move into it and function types are not variadic, and the rest is untouched |
| ExpressionRoundTrip.RoundTripIff | src/ast/ast_printer.cpp:112-247 | the printed expression is read back as itself, the rest untouched, if and only if no left operand ends in an open Choose or length, no function type in it is variadic, no decimal is a small whole number, no string holds a quote or a backslash, no expression length is a number, and what follows does not continue a type at its end |
| ExpressionRoundTrip.CommaIsUnreadable | src/ast/ast_printer.cpp:213-236 | the spelling printed for Comma is rejected by the parser |
| ExpressionRoundTrip.UnknownIsUnreadable | src/ast/ast_printer.cpp:112-247 | so is what is printed for negative literals and for the forms the printer does not know |
| ExpressionRoundTrip.StringTextReads | src/ast/ast_printer.cpp:121 | whatever string is printed and whatever follows it: where the tokenizer finds a closing quote, the string it read is what the expression is read as, and that is the printed one if and only if it holds no quote and no backslash |
| ExpressionRoundTrip.StringTokenIs | src/lexer/tokenizer.cpp:116-140 | a string whose text ends at its own closing quote stands for one token, whatever follows |
| ExpressionRoundTrip.OtherFunctionIsLost | src/ast/ast_printer.cpp:242-243 | the text of a function that the grammar spells otherwise, applied to any printable operand, is read as a variable of its name, the rest left over |
| ExpressionRoundTrip.InfixReads | src/parser/parser.cpp:1285-1428 | operand, operator, operand is read as that operator at every level of the ladder |
| ExpressionRoundTrip.TypeOfReads | src/ast/ast_printer.cpp:86-89 | a `type of` any printable expression is read with the expression regrouped, and comes back exactly when the expression does |
| ExpressionRoundTrip.LengthTakesOperator | src/parser/parser.cpp:1140-1153 | the size of an array type with an expression as length, printed as a left operand, is read with the operator and the right operand inside the length |
| ExpressionRoundTrip.SpelledReads | src/ast/ast_printer.cpp:32-110 | the spelling of a type followed by anything (by no operator, where it ends in an expression) is read as that type regrouped: no variable arguments, the expressions in it as they are read, a bare "integer" continued by "with exactly N bits" |
| ExpressionRoundTrip.TypeRoundTripIff | src/parser/parser.cpp:1075-1283 | the type is read back as itself, the rest untouched, if and only if nothing in it is variadic, expressions in it are read back as themselves and lengths are no numbers, and what follows does not continue it |
| Precedence.LadderReads | src/parser/parser.cpp:1285-1428 | every text without parentheses whose shape follows the ladder of operators, prefixes included, left operands on the same rung, is read as that tree |
| Precedence.TwoOperators | src/parser/parser.cpp:1285-1428 | of two operators between three operands the one on the tighter rung takes the middle one, on the same rung the first |
| Precedence.ComparisonsDoNotChain | src/parser/parser.cpp:1358-1375 | a comparison ends where another one begins |
| SentenceRoundTrip.SentenceReads | src/ast/ast_printer.cpp:249-423 | the printed text of every sentence, blocks nested to any depth, followed by anything, is read as that sentence with its expressions and types as they are read, and the rest is untouched |
| SentenceRoundTrip.SentencesRead | src/parser/parser.cpp:1052-1063 | so are the sentences of a block, up to the words that end it |
| SentenceRoundTrip.SentenceRoundTripIff | src/ast/ast_printer.cpp:249-423 | a printed sentence comes back if and only if every expression, type and string in it does and it has none of the phrases that are not printed |
| SentenceRoundTrip.ProgramRoundTripIff | src/ast/ast_printer.cpp:425-434 | a printed program is read to its end, and comes back if and only if every sentence of it does |
| SentenceRoundTrip.VariadicAloneIsUnreadable | src/ast/ast_printer.cpp:400-410 | a procedure with variable arguments and no parameter is printed in a way that the parser rejects |
| SentenceRoundTrip.UnknownSentence | src/ast/ast_printer.cpp:423 | so are the sentences that the printer does not know |
| ConditionForms.UnlessReads | src/parser/parser.cpp:759-793 | Unless with a printed condition is read as If on its negation, If as it stands; either word closes both |
| ConditionForms.UntilReads | src/parser/parser.cpp:795-820 | Until with a printed condition is read as While on its negation; either word closes both |
| SpokenForms.UnlessNegates | src/parser/parser.cpp:759-793 | for every text, Unless is read as If with the condition negated, or rejected with it |
| SpokenForms.UntilNegates | src/parser/parser.cpp:799-820 | the same for Until and While |
| SpokenForms.Synonyms | src/lexer/alias_table.cpp:3-13 | in front of every text, each synonym of Say, Set, Declare, Add, Subtract, Append, Warning and Return is read like that verb |
| SpokenForms.IncreaseReads | src/parser/parser.cpp:609-627 | Increase, Raise and Grow add, Decrease, Reduce and Lower subtract |
| SpokenForms.AssertReads | src/parser/parser.cpp:127-151 | Assert that is a static assertion, Assert alone one at run time |
| SpokenForms.AssertWithMessageReads | src/parser/parser.cpp:127-143 | a static assertion keeps its message |
| SpokenForms.DefineReads | src/parser/parser.cpp:1065-1073 | Define names a type, at the top level only |
| SpokenForms.FenceReads | src/parser/parser.cpp:153-158 | an atomic fence, at the top level only |
| SpokenForms.StoreReads | src/parser/parser.cpp:160-168 | an atomic store of a value to a name, at the top level only |
| SpokenForms.ImportFileReads | src/parser/parser.cpp:203-220 | imports of headers and libraries |
| SpokenForms.ImportObjectReads | src/parser/parser.cpp:222-257 | imports of objects and constants, articles in front of the type skipped |
| SpokenForms.ImportFunctionReads | src/parser/parser.cpp:259-292 | imports of functions, with their parameters and result |
| SpokenForms.ImportParamsRead | src/parser/parser.cpp:266-280 | parameter types are read one after another, the last perhaps followed by variable ones |
| SpokenForms.CallThroughReads | src/parser/parser.cpp:945-975 | a call through a pointer, with or without arguments |
| SpokenForms.StorageReads | src/parser/parser.cpp:399-440 | each storage phrase behind the name sets what it names and changes nothing else; of several alignments the last counts |
| SpokenForms.ZeroAlignment | src/parser/parser.cpp:399-440 | an alignment of zero is rejected |
| SpokenForms.ThreadLocalReads | src/parser/parser.cpp:440-456 | thread local marks the declaration that is left without it |
| SpokenForms.ConstexprReads | src/parser/parser.cpp:440-456 | so does constexpr |
| SpokenForms.VariadicAloneReads | src/parser/parser.cpp:977-1000 | variable arguments alone, with "takes" in front, are read into the header |
| SpokenForms.PartReads | src/parser/parser.cpp:1689-1795 | square root, real and imaginary part, absolute value and atomic load name a function of the primary behind them |
| SpokenForms.EvaluateReads | src/parser/parser.cpp:1584-1590 | evaluate a then b is the comma operator |
| SpokenForms.LimitReads | src/parser/parser.cpp:1670-1676 | maximum and minimum value of a type |
| SpokenForms.OffsetReads | src/parser/parser.cpp:1677-1683 | offset of a member in a type |
| SpokenForms.LockFreeReads | src/parser/parser.cpp:1684-1688 | is lock free |
| SpokenForms.ExchangeReads | src/parser/parser.cpp:1694-1700 | atomic exchange of a value with a name |
| SpokenForms.FetchReads | src/parser/parser.cpp:1701-1710 | atomic fetch and add, subtract, and, or, xor |
| SpokenForms.IndirectCallReads | src/parser/parser.cpp:1822-1847 | a call through a pointer as an expression |
| SpokenForms.CharacterReads | src/parser/parser.cpp:1573-1583 | the character is its number, for exactly one character |
| SpokenForms.ModuloReads | src/parser/parser.cpp:1402-1413 | modulo is mod |
| SpokenForms.TrailingFollowedReads | src/parser/parser.cpp:1530-1563 | a selection's list may end in "followed by" |
| SpokenForms.FunctionTakingReads | src/parser/parser.cpp:1190-1212 | function types with a last parameter, variable arguments or none |
| SpokenForms.FunctionTakingMore | src/parser/parser.cpp:1190-1212 | a further parameter goes in front of those behind it |
| SpokenForms.FunctionReturningReads | src/parser/parser.cpp:1190-1212 | a function type without "taking" has no parameters |
| SpokenForms.EmptySwitchRejected | src/parser/parser.cpp:874-909 | a Switch without a clause is rejected |
| SpokenForms.EmptyListsRejected | src/parser/parser.cpp:1430-1490 | so are a list and an aggregate block without an entry |
| SpokenForms.ZeroLengthRejected | src/parser/parser.cpp:1140-1153 | so is an array of length zero |
| SpokenForms.ZeroBitsRejected | src/parser/parser.cpp:1075-1283 | so are integer types of no bits, signed or unsigned, exact, least, fast or bit-precise |
| SpokenForms.MemberAloneRejected | src/parser/parser.cpp:1565-1850 | so is a member of nothing |
| SpokenForms.MixedTypesRejected | src/parser/parser.cpp:977-1030 | so is a procedure with typed and untyped parameters, or with untyped ones and a result |
| SpokenForms.TypedNeedsResult | src/parser/parser.cpp:977-1030 | and one with typed parameters and no result type |
| DeclaratorRoundTrip.DeclarationSpells | src/codegen/c_emitter.cpp:104-147 | read by the C grammar, the emitted declaration of x declares x with the type that the text spells |
| DeclaratorRoundTrip.DeclarationRoundTrip | src/codegen/c_emitter.cpp:104-147 | it declares x with the type itself if and only if functions return plain types and no parameter list is a lone void |
| DeclaratorRoundTrip.TypeNameSpells | src/codegen/c_emitter.cpp:149-155 | the type name with the marker removed spells the same type |
| Declarators.SpelledIsFaithful | src/codegen/c_emitter.cpp:106-119 | the type the text spells is the type itself if and only if it is faithful |
| AggregateInit.StoreEmitter.Emit | src/codegen/c_emitter.cpp:201-257 | writes the stores of an initializer, in order, under the path of its object |
| AggregateInit.EmitBraces | src/codegen/c_emitter.cpp:262-313 | returns the brace initializer of an initializer |
| AggregateTheorems.StoresBuild | src/codegen/c_emitter.cpp:201-257 | the stores on a zeroed object give the object with named slots set and all others zero |
| AggregateTheorems.BracesBuild | src/codegen/c_emitter.cpp:262-313 | the braces, by the rules of section 6.7.8, give the same object |
| AggregateTheorems.LoweringsAgree | src/sema/sema.cpp:2382-2512 | for every accepted initializer both lowerings agree |
| InitializerRules.AcceptsIff | src/sema/sema.cpp:2382-2512 | an initializer is accepted if and only if its kind fits the type and its entries are for different slots they fit into: the j-th field that can be positioned, the field of that name, the element of that number |
| AggregateTheorems.StoreOrderIsIrrelevant | src/codegen/c_emitter.cpp:201-257 | in any order the stores give the same object |
| AggregateTheorems.StoresDiverge | src/sema/sema.cpp:2382-2512 | no store of an accepted initializer overlaps another |
| AggregateTheorems.ZeroBracesZero | src/codegen/c_emitter.cpp:264 | `{0}` gives the zero object, however deep the first scalar lies |
| Lowering.HandOverForeverIff | src/codegen/c_emitter.cpp:428-799 | the two lowerings would call each other forever exactly on a class of nodes with a null operand |
| Lowering.NeverForever | src/sema/sema.cpp:2001-2130 | the checker's operand rules exclude that class |
| Lowering.BoxedAgreesIff | src/codegen/c_emitter.cpp:765-783 | boxed code gives the boxed value of raw code if and only if the raw code is undefined or every operand under logical operators, skipped ones included, is a defined integer |
| Lowering.GuardedDivisionDisagrees | src/codegen/c_emitter.cpp:765-783 | for `0 and 1 divided by 0`, where dividing by zero is undefined: raw code gives 0, boxed code is undefined, and the condition fails |
| Lowering.OperandsAgree | src/codegen/c_emitter.cpp:414-799 | away from the logical operators boxed code always gives the boxed value of raw code |
| Lowering.RawComputes | src/codegen/c_emitter.cpp:428-799 | on a machine that computes on long, the raw code of every integer expression gives its value, and is undefined exactly when that is |
| Lowering.ConstantIsComputed | src/sema/sema.cpp:217-293 | what the translation-time evaluator takes for a constant is what the raw code computes, whatever the objects hold |
| Lowering.FormsKeepParts | src/codegen/c_emitter.cpp:414-799 | forms that are not looked into keep their parts in order under both lowerings |
| Literals.EmitString | src/codegen/c_emitter.cpp:441-448 | returns the quoted and escaped form |
| Literals.Tokenizer.ReadString | src/lexer/tokenizer.cpp:116-140 | reads up to the closing quote, undoes escapes, counts lines, and fails exactly at the end of the source |
| Literals.EmittedStringReadsBack | src/codegen/c_emitter.cpp:441-448 | for every string the emitted literal reads back as that string |
| Literals.EmittedStringIsC | src/codegen/c_emitter.cpp:441-448 | read by C's rules for escapes, the emitted literal is one literal and stands for exactly the string |
| Literals.PrintedStringReadsBackIff | src/ast/ast_printer.cpp:121 | the printed string reads back, up to its own closing quote, if and only if it holds no quote and no backslash |
| Literals.ReadTextIff | src/lexer/tokenizer.cpp:116-140 | even the text alone comes back, wherever the reading ends, only then |
| Literals.WrapsWholeExpression | src/codegen/c_emitter.cpp:872-889 | the index and depth loop computes whether depth first returns to zero at the last character, literals blanked |
| Literals.WrapsIff | src/codegen/c_emitter.cpp:870-889 | on text starting with a parenthesis, true if and only if the text is that parenthesis, nested text and its closing partner |
| Literals.EmittedLiteralIsSkipped | src/codegen/c_emitter.cpp:876-881 | an emitted literal is skipped exactly, whatever it holds |
| Lists.Memory.ListFrom | runtime/plainspeak_runtime.c:52-64 | a new list with those items and room for at least four; every other list keeps its contents |
| Lists.Memory.ListCopy | runtime/plainspeak_runtime.c:66-69 | a new list with the same items, or an error for a non-list |
| Lists.Memory.ListIndex | runtime/plainspeak_runtime.c:41-50 | positions from one to the length, anything else is an error |
| Lists.Memory.Append | runtime/plainspeak_runtime.c:71-81 | the item at the end, room doubled when full; other lists untouched although the buffer may move |
| Lists.Memory.Get | runtime/plainspeak_runtime.c:83-86 | the item at that position, or an error |
| Lists.Memory.Set | runtime/plainspeak_runtime.c:88-91 | that item replaced, or an error and nothing changed |
| Lists.Memory.Remove | runtime/plainspeak_runtime.c:93-100 | that item gone and the later ones moved up, or an error and nothing changed |
| Lists.GetAfterSet | runtime/plainspeak_runtime.c:88-91 | what is read after setting: the item at that position of that list, the old item anywhere else; setting fails exactly when reading does |
| Lists.GetAfterAppend | runtime/plainspeak_runtime.c:71-81 | after appending: the item at one more than the old length, the old item anywhere else |
| Lists.GetAfterRemove | runtime/plainspeak_runtime.c:93-100 | after removing: the old item before that position, the next one from it on, the old item in every other list |
| Lists.GetAfterFilled | runtime/plainspeak_runtime.c:52-69 | a new list has the given items, the old lists keep theirs |
| Lists.ReadingDecides | runtime/plainspeak_runtime.c:83-86 | reading at every position decides the items of a list |
| ListPrograms.LoopIsOver | src/codegen/c_emitter.cpp:1086-1098 | the lowered loop over the hidden copy takes one turn per element present at entry, in order, and none of its reads fails, whatever the body does |
| ListPrograms.ForEachIsFaithful | src/codegen/c_emitter.cpp:1086-1098 | every program, loops nested and lists aliased, behaves the same under the lowering and under the promise |
| ListPrograms.ExecKeeps | runtime/plainspeak_runtime.c:41-100 | a list that nothing refers to keeps its contents and stays unreferred through any statement |
| ListPrograms.LengthCounts | runtime/plainspeak_runtime.c:183-190 | a list has items exactly at the positions up to its length and is true exactly when that is not zero |
| ListPrograms.ItemsAreTheTerms | src/codegen/c_emitter.cpp:1086-1098 | the items of a new list are the values of its terms, in order |
| ListPrograms.FalseValues | runtime/plainspeak_runtime.c:224-229 | zero, empty text and the empty list are the only values a test takes for false |
| ListPrograms.ReplaceThenRead | src/codegen/c_emitter.cpp:1021-1024 | after Replace item k of a list, item k is the new one and the others are as before; it succeeds exactly when item k can be read |
| ListPrograms.TurnScopes | src/codegen/c_emitter.cpp:1086-1098 | a turn ends as its body does; the item name is as it was before the loop, every other name as the body left it |
| ListPrograms.ContinueAtEnd | src/codegen/c_emitter.cpp:1034-1035 | Continue at the end of the body changes nothing |
| ListPrograms.BreakAtEnd | src/codegen/c_emitter.cpp:1032-1033 | Break at the end of the body ends the loop with its first complete turn |
| ListGrowth.AmortisedGrowth | runtime/plainspeak_runtime.c:71-81 | from count items through n appends among sets and removals: the items moved are the room gained, at most 2(count+n); the room is at most max(4, 2(count+n)) |

## Left out

- ReturnPathTheorems.Soundness: asks for the shapes where the graph has C's edges; `ReturnPathLimits` has the exact conditions for the others, on label-free bodies.
- Completion.CompletionExact: label-free bodies only, as a structural judgement cannot follow a Go to.
- ReturnPathLimits.VerdictExact: label-free bodies, as the judgement it rests on.
- C runs take every branch of If and Switch and treat a test that the constant evaluator cannot decide as free; a value that the program could compute is not used.
- EvaluationOrder.NoReportMeansOneResult: literals, native variables, increments of native variables, operators and Choose; calls, members, elements and pointers are not evaluated there, as effects are not tracked through them. Arithmetic is a parameter that must not depend on the order.
- Constants: `long` has 64 bits.
- Conversions: exact-width and bit-precise types as operands.
- ConstSoundness.ConstObjectsNeverChange: objects of integer, enumeration and nested pointer types at top level; enumerations count as complete; procedures, arrays, structures, Convert and operators other than Choose, increment and decrement are not evaluated. A postfix change is made at once. The two operands of a store through a pointer run in either order.
- Records: variable-length arrays, and the validity of qualifier combinations, which rejects more.
- AggregateTheorems.LoweringsAgree: unions; expressions that read the object under construction or have effects; assignability of the entries' expressions, which rejects more. The Scalar kind of compound values does not arise in declarations.
- ExpressionRoundTrip.RoundTripIff: nested blocks within compound values, which the printer does not print; a length that is an expression in front of the "and" of another parameter, which is read as an operator of that length; strings that do not end at their own closing quote, as they run into the characters behind them (`ExpressionRoundTrip.StringTextReads` has these); entries with a designator that their kind of list does not have; numbers above the largest long; variables named by a word of the grammar. Line numbers are dropped.
- Syntax: a word is its lower-case spelling; the original spelling that imports and macros keep is not modelled, nor is the text of comments.
- Parsing.Parser.ReadOperators: one method for the eight levels that differ only in their operators.
- Parsing.Parser.ReadPrimary: the words of a form are recognised by functions on the tokens ahead, and so are forms and types without parts; the cursor then skips them.
- Parsing.Parser.ReadSentence: error messages and lines; errors are one value.
- SentenceRoundTrip.SentenceRoundTripIff: sentences as the parser can build them; names that the words around them would change are excluded, such as a variable named by a word of the grammar after Set, Add or Append. Comments lose their text.
- EvaluationConflicts.ReportIffDifference: and, or, comma and Choose may keep a reported part from being evaluated or its value from being used, so that no difference need show; expressions with them are not covered.
- Declarators: parameters of array and function type are kept as they are, where section 6.7.5.3 paragraphs 7 and 8 make them pointers; tokens instead of characters; exact-width, least and fast integers, String and List objects, variable-length arrays and name mangling.
- Lowering: decisions and logical operators are modelled; the arithmetic of C and of the runtime is a parameter. Real operands need only keep their kind, complex ones are not compared.
- Literals.EmittedStringIsC: trigraphs, which section 5.2.1.1 replaces before literals are read.
- BodyRuns.FallsOffIffRunEnds: label-free bodies; a body that assigns the variable of its own For is not followed.
- ConstRules.AcceptedIff: settings as in `ConstSoundness.ConstObjectsNeverChange`.
- Literals.WrapsIff: the caller's check of the comparison operator and of the text's length.
- Lists: memory runs out nowhere, sizes and numbers are unbounded, and items are compared by nothing.
- ListPrograms.ForEachIsFaithful: a copied list stays in memory in both readings; expressions other than literals, variables, list construction, items and lengths; arguments run left to right.
- The tokens of the tokenizer other than strings.
- Name mangling, enumeration values, procedure and C-import checks, atomics and variadic access: thin mappings to C.
- Input and output, files, the C compiler call, message wording, floating-point formatting and the editor extension.
