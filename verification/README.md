# A verified model of the Rua compiler

Rua is a compiler from a small Rust-like language to Lua. This project models the algorithms in it whose
correctness is not visible from any one function: the scheduling of functions and modules, the lowering of
expressions, patterns and iterator chains to Lua statements, the deletion of unused code, the Lua printer with
its source maps, the expression parser, name resolution in bodies, conditional compilation, and the choice of
Lua names. Each algorithm is stated next to the
simple meaning it is supposed to have, and the two are proved equal, or equal exactly under a condition that a
caller can check.

The modules build on each other like this.

* `Lexer`: cutting a text into tokens, with its loops for comments, strings, blocks of Lua text, numbers and words,
  and the limit on the number of tokens. `LexerTheorem` says what each kind of token looks like in the text and proves
  that the lexer finds exactly these tokens.
* `Graphs`, `FunctionComponents`, `Schedule`, `ModuleCycles`: strongly connected components in one depth-first
  pass (a class with the same arrays and stacks), the order in which functions are emitted and which of them need
  forward declarations, and the three-colour search for import cycles.
* `Occurrences`: the trees of function bodies and the places in them where an expression can stand.
  `FunctionDependencies`: the walk over a function body that collects the functions it mentions, on every form of
  statement, expression and pattern, and the whole path from bodies to emitted functions.
* `LuaIr`, `LuaPrinter`, `LuaTokens`, `LuaRoundTrip`: the Lua expression tree, its printer, Lua's own expression
  grammar (section 3.4.8 of the Lua 5.4 Reference Manual), and the round trip between them over tokens.
  `LuaSpacing` says which printed tokens touch, and `LuaScanner` writes them as characters and reads those back with
  Lua's scanner (section 3.1).
* `SourceMapPrinter`, `SourceMapPlaces`, `SourceMapIndex`, `SourceMapTheorem`: printing with recorded ranges, the
  place of every statement in the text, the per-line index, and the theorem that connects a tree of statements to the answer for a line of a traceback.
* `RuaLang`, `LuaRun`, `Encoding`: two evaluators with fuel, one for a typed fragment of Rua and one for Lua
  statements, and how Rua values are represented in Lua (`None` is nil, a tagged value is a table with a `tag`).
* `PatternTests`, `MatchSelection`: the tests a pattern turns into, and which match arm runs. `PatternTypes`,
  `PatternCoverage` and `MatchCoverage` add types, a computable test that looks inside nested patterns, and the
  proof that it says exactly for which matches dropping the last test is right.
* `TypedMatch` uses that test for the generated code of returned matches.
* `Lowering` is the code generator for expressions, blocks, loops and matches. `LoweringScope` says which programs
  it is claimed for; `LuaFrame`, `RuaFrame`, `LoweringMarks`, `LoweringState`, `LoweringValues`, `LoweringPatterns`,
  `LoweringSteps`, `LoweringControl`, `LoweringBlocks`, `LoweringMatch` and `LoweringProof` prove that it keeps the
  meaning of those programs; `LoweringProgram` puts such functions together to a program whose functions call one
  another; `LoweringLimits` gives programs outside the fragment whose meaning it changes.
* `Effects` is a larger source language, with traps, closures, chains and effects on the outside. `Removal` is the
  decision which expressions may be dropped and the proof that those do nothing; `LetRemoval` proves that deleting
  an unused `let` leaves a block's behaviour alone; `RemovalFragment` ties the decision to the one in `Lowering`.
* `IterChains` compares one loop with counters and breaks to running adapters list by list. `FusedLoop`,
  `FusedRounds` and `FusedChains` prove that the Lua loop the code generator writes is that loop. `LoweringDropped`
  forgets one variable in scope and code, and `FusedAssign` uses that for chains assigned to a variable that already
  exists; `FusedAssignLimits` shows what goes wrong when a closure reads that variable.
* `RuaGrammar`, `RuaGrammarTheorem`, `RuaParser`: the expression grammar, precedence climbing as functions, and the
  parser as a class whose methods move through the tokens. `RuaPrecedence` lists the classes of operators and proves
  that the parser groups by them.
* `ScopeResolver`: the resolver of local names in a body, as a class with a stack of scopes, against one environment.
  `LexicalScope` says by its place in the text which declarations a name sees, and proves that it is resolved to the
  innermost of them.
* `CfgAttributes`, `CfgFilter`, `CfgRoutes`: the worklist that expands `cfg_attr`, the filter that drops inactive items,
  and what is left at every depth.
* `BackendNames`, `BackendLayout`: the encoding of source names and the tables that hand out Lua names.

Both evaluators take a fuel that bounds loop rounds. The theorems hold for every amount of fuel and say that both
sides run out at the same time, so nothing is assumed about termination.

`hide` at the start of a contract, a function body or a proof keeps definitions that are not needed there out of the
proof obligation. It keeps verification quick; what the contracts and functions say does not depend on it.

## Where the code does not do what it should

The model follows the code. On these inputs the code differs from what its documentation or its source language
promise; each has a lemma with a concrete input, and the theorem next to it says when the code is right.

* `- -x` written as a negation of a negation prints as `--x`, which is a Lua comment. Scanning the printed characters
  gives back the printed tokens exactly when no minus stands directly under a minus (`LuaScanner.PrintedTextScans`).
* The smallest 64-bit integer is printed as a minus and digits that are too large for a Lua integer, so Lua reads a
  float (`LuaScanner.NegativeIntegers`); every other integer is read back.
* A match is judged exhaustive by the roots of its patterns. `Some(1)` and `None` together drop the last test, so
  `Some(2)` runs the arm for `None` (`MatchSelection.RootsAreNotEnough`). For matches on a value of a given type,
  dropping the last test is right for every value exactly when nothing is dropped or a test on the nested patterns
  accepts the arms (`MatchCoverage.DroppingIsRightExactly`). Patterns whose payloads cannot fail need no such test
  (`MatchSelection.DroppingTheLastTestIsSound`).
* An exclusive range whose end is the smallest 64-bit integer runs up to the largest one
  (`IterChains.ExclusiveEndIsExact`); the theorems on chains are about ranges that end elsewhere.
* Returning an `if` without an `else` falls through to the next statement; statements hoisted out of the right side
  of `&&` or `||` always run; a loop condition that needs statements is computed once; the local of a block hides an
  outer one for the rest of the function; a hoisted `let` whose initializer binds the same name leaves its own
  variable nil; `let mut y = x?` makes `y` another name for `x`; a pattern variable in a returned match is another
  name for the matched variable; an operand is read after the statements of a later operand. `LoweringLimits` has
  one lemma for each, which also shows that `LoweringScope.Fits` shuts the program out.
* Assigning an iterator chain to a variable builds the result in that variable, from the starting value on. It is
  right if no closure of the chain mentions the variable (`FusedAssign.ChainAssign`); source, limits and starting
  value may. `FusedAssignLimits` has an input that fails for each kind of closure: a `map` that reads the variable, a
  `filter` or `filter_map` that does, whatever the consumer, and every consumer whose own closure does.
* `Some(None)` is represented like `None`, and a struct variant with a field called `tag` loses its tag. Every pattern
  that looks at the outside of a value is decided correctly on it exactly when neither happens there
  (`PatternTests.RootsDecideExactly`); values are `Expressible` when neither happens at any level.
* The Lua names of locals avoid the root names of places only in the root module. In any other module a local hides
  the root of a place exactly when the two have the same source name, as a local `m` in a module `m` does
  (`BackendLayout.LocalAgainstRoot`, `BackendLayout.ModuleIsHidden`).

## Model

| member | source | states |
|---|---|---|
| LexerTheorem.TokensAreRight | crates/rua-common/src/lex.rs:227-382 | at the start of every token exactly one token looks right, and it is the one that is found: what right means is said for each kind from the text alone |
| LexerTheorem.RightIsUnique | crates/rua-common/src/lex.rs:232-370 | at most one token looks right at a place |
| LexerTheorem.StringIs | crates/rua-common/src/lex.rs:267-289 | a string ends behind its first quote that an even number of backslashes precedes, and is unterminated if and only if a line end like that, or the end of the text, comes first |
| LexerTheorem.CommentIs | crates/rua-common/src/lex.rs:250-266 | a block comment ends behind the first mark that balances its opening, and is unterminated if and only if there is none |
| LexerTheorem.SkipIs | crates/rua-common/src/lex.rs:510-554 | in Lua text exactly the strings, long brackets and comments are stepped over, each up to its own first end |
| LexerTheorem.NumberIs | crates/rua-common/src/lex.rs:392-442 | a number is digits, fraction and exponent, each as long as possible, or a radix with what follows; it is a float if and only if it has a point or an exponent |
| Lexer.LexWithLimit | crates/rua-common/src/lex.rs:227-382 | the tokens of the text if there are at most as many as the limit, and otherwise the range of the first one over it |
| Lexer.Lossless | crates/rua-common/src/lex.rs:227-382 | the tokens of every text stand one behind the other without gap or overlap, none is empty, each begins and ends between characters, keywords and symbols are spelled as they stand, only the last can be an open comment or block, and the texts of all tokens are the text |
| Lexer.LongestSymbol | crates/rua-common/src/lex.rs:316-366 | no symbol that stands at a place is longer than the one that is read there |
| Lexer.LexLuaBlock | crates/rua-common/src/lex.rs:458-508 | the loop over a block of Lua text ends where the recursive definition does, and its depth never drops below zero |
| Lexer.BodyEndsBalanced | crates/rua-common/src/lex.rs:458-508 | that end is behind the first brace that balances the opening one, counting only braces outside strings, long brackets and comments; the block is unterminated if and only if no brace does |
| FunctionComponents.FunctionComponents.constructor | crates/ruac/src/codegen.rs:5083-5094 | a new search has visited nothing and satisfies the search invariant |
| FunctionComponents.FunctionComponents.Visit | crates/ruac/src/codegen.rs:5105-5139 | one visit keeps the search invariant, leaves the stack as it was or longer, and gives the vertex a low link that is a number on the stack reachable from it and bounds every edge followed |
| FunctionComponents.FunctionComponents.PopThrough | crates/ruac/src/codegen.rs:5128-5136 | popping through a vertex takes exactly the part of the stack from it upwards |
| FunctionComponents.FunctionComponents.Run | crates/ruac/src/codegen.rs:5096-5103 | the groups are the classes of mutual reachability, they cover every vertex once, and every edge leads to the same group or an earlier one |
| FunctionComponents.Components | crates/ruac/src/codegen.rs:5073-5139 | the same for the whole computation, for every graph whose edges are in range |
| FunctionComponents.DiscoverKeepsInv | crates/ruac/src/codegen.rs:5105-5111 | numbering and stacking a new vertex keeps the search invariant |
| FunctionComponents.PoppedIsComponent | crates/ruac/src/codegen.rs:5124-5138 | when a vertex's low link is its own number, what lies above it on the stack is one complete component |
| FunctionComponents.EmitKeepsInv | crates/ruac/src/codegen.rs:5124-5138 | emitting that component keeps the search invariant |
| FunctionComponents.LeaveKeepsInv | crates/ruac/src/codegen.rs:5113-5126 | returning from a vertex that stays on the stack keeps the search invariant |
| Schedule.EmitRootFunctions | crates/ruac/src/codegen.rs:1993-2012 | the emission loop declares the members of a group together exactly when there are several, and then defines each |
| Schedule.EveryReferenceResolves | crates/ruac/src/codegen.rs:1993-2012 | for every reference graph the emitted chunk runs without touching a global, and along every edge the name denotes, in the scope the body captured, the function that was meant |
| Schedule.ForwardDeclarationNeeded | crates/ruac/src/codegen.rs:1996-2004 | in a group of several functions no order would do without a forward declaration |
| Occurrences.BlockOccurrences | crates/ruac/src/codegen.rs:4861-4905 | the collectors' recursive notion of occurrence in a block is this one: at some place of the block stands an expression that resolves to the item |
| Occurrences.ExprOccurrences | crates/ruac/src/codegen.rs:4907-5043 | the same in an expression |
| Occurrences.PatternOccurrences | crates/ruac/src/codegen.rs:5045-5071 | the same in a pattern |
| FunctionDependencies.Collector.CollectBlock | crates/ruac/src/codegen.rs:4861-4905 | collecting in a block adds exactly the functions whose definitions stand at some place in it |
| FunctionDependencies.Collector.CollectExpr | crates/ruac/src/codegen.rs:4907-5043 | the same for an expression with all its parts |
| FunctionDependencies.Collector.CollectPattern | crates/ruac/src/codegen.rs:5045-5071 | the same for a pattern |
| FunctionDependencies.DependencyGraph | crates/ruac/src/codegen.rs:4811-4848 | function j is among the sorted dependencies of function i if and only if its definition stands at some place of the body of i |
| FunctionDependencies.EmitRoot | crates/ruac/src/codegen.rs:1993-2012 | from bodies to the chunk: it runs without touching a global, every function is stored under its own name, and for every place of a body where a function stands the name denotes that function |
| ModuleCycles.CycleSearch.Visit | crates/ruac/src/codegen.rs:693-723 | one visit returns a simple cycle of imports or finishes the module with everything it imports |
| ModuleCycles.CycleSearch.Run | crates/ruac/src/codegen.rs:725-734 | nothing is returned if and only if no module can reach itself |
| ModuleCycles.FindModuleDependencyCycle | crates/ruac/src/codegen.rs:690-735 | a returned list is a real closed path of imports without repetition, and none is returned exactly when there is none |
| ModuleCycles.DoneIsAcyclic | crates/ruac/src/codegen.rs:690-735 | a closed path cannot pass through finished modules only |
| LuaRoundTrip.PrintThenParse | crates/ruac/src/lua_ir.rs:850-954 | the printed tokens of any expression, all of them, are read by Lua's grammar as an expression of the same meaning |
| LuaRoundTrip.ParsesExpression | crates/ruac/src/lua_ir.rs:850-954 | Lua's precedence parser reads the tokens of an expression that needs no further parentheses back as that expression |
| LuaRoundTrip.PrintsElaborated | crates/ruac/src/lua_ir.rs:850-922 | what is printed is the expression with explicit parentheses, word for word |
| LuaRoundTrip.ElaborationDelimits | crates/ruac/src/lua_ir.rs:868-881 | with the parentheses the printer writes, every operand binds at least as tightly as Lua needs |
| LuaRoundTrip.ParenthesesAreExact | crates/ruac/src/lua_ir.rs:252-261 | on either side of an operator parentheses are written exactly when Lua would group differently without them |
| LuaSpacing.PrintedTextTouches | crates/ruac/src/lua_ir.rs:850-954 | two minus signs touch in printed text if and only if a minus stands directly under a minus, and no other tokens that would run into each other ever touch |
| LuaScanner.PrintedTextScans | crates/ruac/src/lua_ir.rs:850-954 | scanning the printed characters gives the printed tokens if and only if no minus stands directly under a minus |
| LuaScanner.TextThenParse | crates/ruac/src/lua_ir.rs:850-954 | scanning and parsing the printed characters of such an expression gives an expression of the same meaning |
| LuaScanner.DoubleNegationIsAComment | crates/ruac/src/lua_ir.rs:882-893 | the text of a doubly negated name scans to nothing |
| LuaScanner.QuotedBack | crates/ruac/src/lua_ir.rs:1017-1026 | reading a quoted string up to its closing quote gives the string, whatever follows |
| LuaScanner.NegativeIntegers | crates/ruac/src/codegen.rs:4045-4054 | a negative integer is read back as such exactly down to the second smallest; the smallest becomes a float |
| SourceMapPrinter.Printer.PrintBlock | crates/ruac/src/lua_ir.rs:662-700 | printing a block appends its text and the ranges of its anchored statements, in order |
| SourceMapPrinter.Printer.PrintEntry | crates/ruac/src/lua_ir.rs:662-700 | an anchored statement's range is exactly the text it printed |
| SourceMapIndex.New | crates/ruac/src/stacktrace.rs:66-114 | for every text, every list of mappings and every line the index answers as the lookup over all mappings does |
| SourceMapIndex.Offer | crates/ruac/src/stacktrace.rs:73-99 | offering one mapping to its line slots turns the best of the first i mappings into the best of the first i + 1 |
| SourceMapIndex.LineTableAgrees | crates/ruac/src/stacktrace.rs:247-263 | the table of line starts gives the line that counting newlines gives |
| SourceMapPlaces.EveryStatementHasItsPlace | crates/ruac/src/lua_ir.rs:678-700 | at every depth of a printed tree a statement stands in the text indented by four spaces for each section around it, and the range recorded for it is exactly its text |
| SourceMapTheorem.Generate | crates/ruac/src/codegen.rs:209-225 | the generated source is header and block, and the mappings are the block's, moved behind the header |
| SourceMapTheorem.IndexGeneratedChunk | crates/ruac/src/codegen.rs:209-225 | every line of a generated chunk is answered with the anchor of the innermost anchored statement printed there |
| SourceMapTheorem.BlockAnswersEveryLine | crates/ruac/src/stacktrace.rs:265-301 | the mapping with the smallest range over a line belongs to the innermost anchored statement there |
| PatternTests.PatTestDecides | crates/ruac/src/codegen.rs:3823-3975 | all tests of a pattern hold exactly when it matches, no test fails to evaluate before one is false, and the bindings denote the matched parts |
| PatternTests.ArmTestsDecide | crates/ruac/src/codegen.rs:3793-3821 | the same for the single condition of an arm with alternatives |
| PatternTests.PayloadReads | crates/ruac/src/codegen.rs:35-48 | reading the payload of a represented result gives the represented payload |
| Encoding.NilOnlyForNilLike | README.md:427 | only unit and `None` are represented by nil |
| Encoding.SomeIsNotNone | README.md:427 | `Some(w)` and `None` have different representations if and only if `w` is not nil at any depth, so `Some(None)` is lost |
| Encoding.TagReadExactly | crates/ruac/src/codegen.rs:4513-4533 | reading the tag of a struct variant gives its name if and only if no field called `tag` holds anything else |
| Encoding.TagFieldIsLost | crates/ruac/src/codegen.rs:4513-4533 | with one field called `tag`, the tag survives only if the field holds the variant's own name |
| PatternTests.RootsDecideExactly | crates/ruac/src/codegen.rs:3823-3975 | every pattern that looks at the outside of a value only is decided correctly on its representation if and only if the value is kept apart from others there |
| MatchSelection.MatchIsExhaustive | crates/ruac/src/codegen.rs:3673-3724 | the collecting loop answers yes exactly for the lists of patterns whose roots cover a type |
| MatchSelection.ExhaustiveIsSound | crates/ruac/src/codegen.rs:3673-3724 | when no payload can fail, such a list accepts every well-typed value |
| MatchSelection.CompleteIsExhaustive | crates/ruac/src/codegen.rs:3673-3724 | when no payload can fail and no outside of an option, result, boolean or enum value is left out, the check says so |
| MatchSelection.ChainIsRightExactly | crates/ruac/src/codegen.rs:3726-3791 | what the chain does with one value: the arm the source runs, except that the last arm runs when none accepts the value and the last test was dropped |
| MatchSelection.DroppingTheLastTestIsSound | crates/ruac/src/codegen.rs:3726-3791 | with payloads that cannot fail dropping the last test never changes which arm runs |
| MatchSelection.RootsAreNotEnough | crates/ruac/src/codegen.rs:3673-3724 | the smallest match for which it does |
| PatternCoverage.CoversSound | crates/ruac/src/codegen.rs:3673-3724 | when the nested test accepts a list of rows of patterns, some row accepts every combination of values of their types |
| PatternCoverage.CoversComplete | crates/ruac/src/codegen.rs:3673-3724 | when it does not, there are values of the types that no row accepts |
| MatchCoverage.ArmsCoverExactly | crates/ruac/src/codegen.rs:3726-3791 | the nested test accepts the arms of a match if and only if every value of the matched type has an arm |
| MatchCoverage.DroppingIsRightExactly | crates/ruac/src/codegen.rs:3726-3791 | the chain of a match runs the right arm for every value of the type if and only if no test is dropped or the nested test accepts the arms |
| MatchCoverage.NestedTestRejects | crates/ruac/src/codegen.rs:3673-3724 | the nested test rejects a match that its roots make look exhaustive |
| TypedMatch.TestedArmsAccept | crates/ruac/src/codegen.rs:3726-3791 | arms that the nested test accepts have an arm for every value of the type |
| TypedMatch.TestedMatchCorrect | crates/ruac/src/codegen.rs:3726-3791 | the generated chain of a returned match runs as the source's arms do on every value of the matched type, if the nested test accepts the arms |
| Removal.RemovableIsSilent | crates/ruac/src/codegen.rs:1484-1683 | an expression judged removable has a value and no effect: it does not trap, exit, loop, change a variable or act on the outside |
| Removal.ClosureIsQuiet | crates/ruac/src/codegen.rs:1472-1482 | calling a removable closure has no effect, although a `return` is allowed inside it |
| Removal.ChainIsQuiet | crates/ruac/src/codegen.rs:1506-1557 | neither has a removable iterator chain, with its source, limits, closures and consumer |
| LetRemoval.DeletingAnUnusedLet | crates/ruac/src/codegen.rs:2655-2663 | with a removable initializer and a variable nothing uses, the block without the `let` has the same value, exit or trap, variables and effects |
| RemovalFragment.SameDecision | crates/ruac/src/codegen.rs:1484-1683 | on the language that is lowered here, the two forms of the decision agree |
| LoweringScope.RemovableIsSilent | crates/ruac/src/codegen.rs:1484-1683 | the same as `Removal.RemovableIsSilent`, for the smaller language that is lowered here |
| LoweringScope.InlineOnlyIsPure | crates/ruac/src/codegen.rs:4056-4110 | an expression without statements has a value and changes nothing |
| LoweringBlocks.LetUnused | crates/ruac/src/codegen.rs:2655-2663 | when the initializer of an unused `let` is skipped, source and Lua state still correspond |
| LoweringMarks.InlineMarks | crates/ruac/src/codegen.rs:3984-4336 | generated code declares and assigns only its own temporaries, its own locals and what the source assigns |
| LoweringProof.InlineCorrect | crates/ruac/src/codegen.rs:3984-4336 | after the statements of an operand, its Lua expression has the source value and all variables agree; an exit of the source is the same exit in Lua |
| LoweringProof.ToCorrect | crates/ruac/src/codegen.rs:3485-3589 | an expression delivers its value to nowhere, to a variable or to the caller, as asked |
| LoweringProof.ControlCorrect | crates/ruac/src/codegen.rs:3485-3589 | the same for conditionals, blocks, matches, loops and assignments |
| LoweringProof.BlockCorrect | crates/ruac/src/codegen.rs:3455-3477 | the same for blocks with their statements and tail |
| LoweringProof.StmtsCorrect | crates/ruac/src/codegen.rs:2645-2760 | statements leave the source's variables in the Lua locals that stand for them, or exit alike |
| LoweringProof.LoopRuns | crates/ruac/src/codegen.rs:3387-3411 | a `loop` runs round by round as the source does and delivers the value of its `break` |
| LoweringProof.WhileRuns | crates/ruac/src/codegen.rs:2733-2745 | a `while` with a condition that needs no statements runs round by round as the source does |
| LoweringProof.ArmsCorrect | crates/ruac/src/codegen.rs:3593-3636 | the match that keeps a flag runs exactly the first arm whose pattern and guard succeed, or raises the error |
| LoweringProof.ChainCorrect | crates/ruac/src/codegen.rs:3726-3791 | the if-elseif chain of a returned match runs exactly the first matching arm |
| LoweringProof.ReturnMatchCorrect | crates/ruac/src/codegen.rs:3726-3791 | a returned match, with its cached tag and dropped last test, returns what the source match returns |
| LoweringProof.FunctionCorrect | crates/ruac/src/codegen.rs:3455-3477 | a whole function body returns the represented source value, raises an error where the source panics, and runs forever where the source does |
| LoweringProgram.FunctionsCompiled | crates/ruac/src/codegen.rs:3455-3477 | in a program of such functions, calls at every depth return the represented source result, so what a function assumes of its callees holds |
| LoweringProgram.ProgramCorrect | crates/ruac/src/codegen.rs:3455-3477 | a call in the generated program returns the represented result of the source call, fails where its function panics, and runs out of fuel or depth where it does |
| LoweringMatch.IrrefutablePayloadsCover | crates/ruac/src/codegen.rs:3673-3724 | a match whose payloads cannot fail meets the condition under which dropping the last test is right |
| LoweringLimits.ReturnFallsThrough | crates/ruac/src/codegen.rs:2717-2732 | a returned `if` without `else` falls into the following loop |
| LoweringLimits.AndRunsItsRightSide | crates/ruac/src/codegen.rs:4056-4110 | a `return` hoisted from the right of `&&` runs although the left is false |
| LoweringLimits.ConditionIsComputedOnce | crates/ruac/src/codegen.rs:2733-2745 | a condition with statements never changes |
| LoweringLimits.BlockLocalLeaks | crates/ruac/src/codegen.rs:3558-3560 | the local of a block is read after the block |
| LoweringLimits.HoistedLocalStaysNil | crates/ruac/src/codegen.rs:2708-2711 | the inner local takes the value meant for the outer one |
| LoweringLimits.AssigningTheAliasChangesTheOriginal | crates/ruac/src/codegen.rs:2682-2689 | assigning the variable of `let mut y = x?` changes the immutable `x` |
| LoweringLimits.MatchOnAnAssignedVariable | crates/ruac/src/codegen.rs:1441-1449 | a pattern variable sees a later assignment to the matched variable |
| LoweringLimits.LateOperandSeesTheAssignment | crates/ruac/src/codegen.rs:4056-4110 | a left operand is read after the statements of the right one |
| LoweringLimits.SumFits | crates/ruac/src/codegen.rs:3455-3477 | a program with variables, a loop, assignments and a returned conditional is inside the fragment |
| IterChains.FusionIsRight | crates/ruac/src/codegen.rs:2996-3383 | for every accepted chain one loop with counters, guards and breaks gives what the adapters and the consumer give list by list; no break of a `take` loses an item |
| IterChains.RoundsCorrect | crates/ruac/src/codegen.rs:3185-3372 | in the middle of the loop the rounds to come give what is left of the list meaning |
| IterChains.ExhaustedIsEmpty | crates/ruac/src/codegen.rs:3363-3372 | when the test after the body breaks, nothing more could have come out |
| IterChains.LeadingReversals | crates/ruac/src/codegen.rs:4541-4610 | reversals at the front only decide in which direction the source is visited |
| IterChains.ReversalsMustComeFirst | crates/ruac/src/codegen.rs:4558-4570 | a reversal after another adapter could not be fused like that |
| IterChains.ExclusiveEndIsExact | crates/ruac/src/codegen.rs:3137-3165 | the loop over an exclusive range visits the range, except when its end is the smallest integer |
| FusedLoop.SinkCorrect | crates/ruac/src/codegen.rs:3264-3352 | the consumer's statements do to the result variable what the consumer does to its accumulator |
| FusedLoop.BodyCorrect | crates/ruac/src/codegen.rs:3185-3355 | the body of the loop passes an item on, drops it or breaks exactly as the stages do, and updates their counters |
| FusedLoop.ClosureRun | crates/ruac/src/codegen.rs:2929-2948 | an inlined closure body has the closure's value when its parameter stands for the item |
| FusedRounds.RoundCorrect | crates/ruac/src/codegen.rs:3135-3373 | one round of the Lua loop is one round of the list program |
| FusedRounds.LoopRunsRounds | crates/ruac/src/codegen.rs:3135-3373 | all rounds together leave the list program's result in the result variable and no source variable changed |
| FusedChains.LoopCorrect | crates/ruac/src/codegen.rs:3128-3373 | the numeric `for` over a range or a vector, in either direction, computes the chain's result |
| FusedChains.ChainCorrect | crates/ruac/src/codegen.rs:2996-3383 | from source operands, limits and starting value to the end of the loop, the generated code delivers the list-by-list result and leaves every other variable alone |
| FusedChains.ChainInline | crates/ruac/src/codegen.rs:3984-3993 | as an operand, the chain's value is in its temporary |
| FusedChains.ChainReturn | crates/ruac/src/codegen.rs:3485-3491 | in return position the value is returned |
| FusedChains.ChainLet | crates/ruac/src/codegen.rs:2696-2707 | as the initializer of a `let` the value is in the variable's own local |
| FusedAssign.ChainToVariable | crates/ruac/src/codegen.rs:2976-2990 | a chain delivered to an existing variable that no closure of it mentions leaves its value there and everything else as it was |
| FusedAssign.ChainAssign | crates/ruac/src/codegen.rs:3560-3576 | the whole assignment is right wherever it stands, if no closure of the chain mentions the variable |
| LoweringDropped.SameInline | crates/ruac/src/codegen.rs:3984-4336 | generated code does not depend on whether a variable already in scope counts as mentioned |
| LoweringDropped.FitsDropped | crates/ruac/src/codegen.rs:3984-4336 | code that does not mention a variable fits a scope in which it is not mentioned |
| FusedAssignLimits.FilterReadsTooLate | crates/ruac/src/codegen.rs:2976-2990 | with a filter that reads the variable, whatever the consumer, the variable ends with the starting value although the filter should let the item through |
| FusedAssignLimits.ConsumerReadsTooLate | crates/ruac/src/codegen.rs:2976-2990 | `any`, `all` and `find` whose closure reads the variable give the wrong answer |
| FusedAssignLimits.FoldReadsTooLate | crates/ruac/src/codegen.rs:2976-2990 | a fold that returns the variable is right if and only if the variable held the starting value already |
| FusedAssignLimits.MapReadsTooLate | crates/ruac/src/codegen.rs:2976-2990 | a `map` that reads the variable before `any` gives the wrong answer |
| FusedAssignLimits.FilterMapReadsTooLate | crates/ruac/src/codegen.rs:2976-2990 | with a `filter_map` that reads the variable, whatever the consumer, the variable ends with the starting value although the item should pass |
| RuaPrecedence.ParsedTreeIsGrouped | crates/ruac/src/parser.rs:1479-1738 | parsing consumes exactly the tokens of its tree; by the list of operator classes left operands are of no looser class than their operator and right ones of a tighter class; nothing that continues the expression is left over |
| RuaPrecedence.EveryGroupedTreeIsParsed | crates/ruac/src/parser.rs:1479-1738 | every tree that groups by the classes is parsed back from its tokens if its nesting is within the budget, and otherwise the budget error is reported |
| RuaPrecedence.TwoOperators | crates/ruac/src/parser.rs:1505-1545 | `a p b q c` is read as `a p (b q c)` if and only if q is in a tighter class than p, and as `(a p b) q c` otherwise |
| RuaPrecedence.PrefixThenInfix | crates/ruac/src/parser.rs:1547-1578 | a prefix operator takes only its operand before any infix operator |
| RuaPrecedence.AssignmentTakesAll | crates/ruac/src/parser.rs:1483-1499 | an assignment takes everything on both sides, and another assignment on its right |
| RuaPrecedence.PrefixesAreCounted | crates/ruac/src/parser.rs:244-264 | a literal behind n prefix operators takes n + 3 levels of the nesting budget |
| RuaPrecedence.ParenthesesAreCounted | crates/ruac/src/parser.rs:244-264 | a literal in n parentheses takes 3 n + 3 levels |
| RuaPrecedence.NumbersFollowTheList | crates/ruac/src/parser.rs:2166-2185 | the parser's binding powers order the operators exactly as the list of classes does |
| RuaGrammarTheorem.OneTreePerText | crates/ruac/src/parser.rs:1501-1578 | no other well-formed tree has the same tokens |
| RuaGrammarTheorem.ParsesInfix | crates/ruac/src/parser.rs:1505-1545 | the loop over infix operators builds the left-associated tree |
| RuaParser.Parser.ParseBinaryInner | crates/ruac/src/parser.rs:1505-1545 | the loop returns the tree of the grammar function, which groups by the classes, stops after its tokens, and restores nesting depth and struct mode also when it fails |
| RuaParser.Parser.ParseExpression | crates/ruac/src/parser.rs:244-264 | entering one level deeper fails exactly at the budget, and the depth is restored on every exit |
| RuaParser.Parser.ParseExprAllowStruct | crates/ruac/src/parser.rs:1471-1477 | struct literals are allowed inside and the mode is restored on every exit |
| RuaParser.Parser.ParseSuffixed | crates/ruac/src/parser.rs:1580-1658 | the suffix loop returns the tree of the grammar function |
| RuaParser.Parser.ParseAtom | crates/ruac/src/parser.rs:1673-1738 | primary expressions, with parentheses dropped from the tree and struct literals recognised only where they are allowed |
| ScopeResolver.BodyResolver.FindLocal | crates/ruac/src/hir.rs:1174-1179 | searching the stack of scopes from the inside gives the local the lexical environment gives |
| ScopeResolver.BodyResolver.BindLocal | crates/ruac/src/hir.rs:1152-1172 | a new local gets a number of its own and hides one of the same name in the innermost scope |
| ScopeResolver.BodyResolver.Expression | crates/ruac/src/hir.rs:1252-1411 | resolving an expression records what the recursive definition records and leaves the stack of scopes as it was |
| LexicalScope.PathsMeanWhatIsVisible | crates/ruac/src/hir.rs:1194-1435 | at every place of every body a path with one segment means the innermost declaration of that name visible there (earlier `let`s of the enclosing blocks but not the one it initializes, closure parameters, loop variables, pattern variables of its arm), and everything else means something outside |
| LexicalScope.LocalsAreDeclarations | crates/ruac/src/hir.rs:1152-1172 | the locals of a body are its parameters and declarations, numbered in order, with their names and `mut` |
| LexicalScope.AssignmentsAreChecked | crates/ruac/src/hir.rs:1361-1371 | an assignment below a variable whose innermost visible declaration is not `mut` is reported |
| ScopeResolver.ResolveBody | crates/ruac/src/hir.rs:524-533 | the class resolves a whole body as the functions do that `LexicalScope` is about, with every recorded local declared |
| ScopeResolver.PathsFindTheirBinder | crates/ruac/src/hir.rs:1426-1435 | in any environment a single name resolves to its local there, which has that name |
| ScopeResolver.ExprIsLater | crates/ruac/src/hir.rs:1144-1411 | resolving keeps what was recorded before and declares only new locals |
| CfgAttributes.ConditionMeans | crates/rua-common/src/core.rs:260-313 | a written condition is understood if and only if it is a flag, key with value, boolean, or `all`, `any` or `not` of such, and then it matches if and only if it is true as written: some member of `any`, every member of `all`, not the member of `not` |
| CfgAttributes.RefusedConditions | crates/rua-common/src/core.rs:260-313 | what is reported for each refused form, in a list for its first refused member |
| CfgAttributes.ExpandCfgAttributes | crates/rua-common/src/core.rs:212-254 | the queue gives the recursive expansion's result or its first error; if everything is well written, the attributes and the activity that the written conditions mean, and the limit error exactly when more than 256 attributes are looked at |
| CfgAttributes.PushFront | crates/rua-common/src/core.rs:241-246 | pushing the nested attributes last first puts them before the queue in their own order |
| CfgAttributes.ExpansionMeansLeaves | crates/rua-common/src/core.rs:210-254 | an expansion succeeds if and only if everything is well written, and then keeps the attributes that are no conditions, with what true `cfg_attr` add, in order, and is active if and only if every condition holds |
| CfgFilter.FilterScope | crates/ruac/src/attributes.rs:16-50 | the filter with its table of new positions gives the recursive filter's items and order, or its first error |
| CfgFilter.FilterMembers | crates/ruac/src/attributes.rs:52-118 | members, and the fields of variants, are filtered in order |
| CfgRoutes.ItemsSurvive | crates/ruac/src/attributes.rs:16-118 | exactly those items, members and fields are left that are active with everything around them, in order, with the attributes that remain |
| CfgRoutes.MembersSurvive | crates/ruac/src/attributes.rs:52-118 | the same for members and their fields |
| CfgFilter.ItemsKeepTheirPlaces | crates/ruac/src/attributes.rs:22-36 | every active item is in the result at its new position, and there are no others |
| CfgFilter.PositionsAreDistinct | crates/ruac/src/attributes.rs:22-36 | the new positions keep the order of the items |
| CfgFilter.EntriesFollowTheirItems | crates/ruac/src/attributes.rs:38-49 | every entry left in the source order points at the filtered form of the item it pointed at |
| BackendNames.EncodingIsInjective | crates/ruac/src/backend_layout.rs:391-404 | different source names have different Lua names |
| BackendNames.EncodingIsSafe | crates/ruac/src/backend_layout.rs:391-404 | every encoded name is a Lua identifier, no keyword and no name the compiler uses itself |
| BackendNames.TemporariesAreDistinct | crates/ruac/src/backend_layout.rs:370-373 | different temporaries have different names |
| BackendNames.SafeIsNoTemporary | crates/ruac/src/backend_layout.rs:370-373 | no encoded name is a temporary's |
| BackendLayout.BackendLayout.AllocateName | crates/ruac/src/backend_layout.rs:437-451 | a definition gets its encoding, or that with its number if it is taken, and nothing exactly when both are |
| BackendLayout.BackendLayout.LocalPlace | crates/ruac/src/backend_layout.rs:158-183 | a local gets the place its name already has in the module, or one nothing in the module has |
| BackendLayout.BackendLayout.Unused | crates/ruac/src/backend_layout.rs:168-176 | underscores are added until the name is unused, and no further |
| BackendLayout.BackendLayout.CloseRoot | crates/ruac/src/backend_layout.rs:182-183 | the root names are those used in the root module and two of the runtime |
| BackendLayout.AssignAliases | crates/ruac/src/backend_layout.rs:358-368 | aliases differ from one another and from every root name |
| BackendLayout.BackendLayout.RuntimeModuleAlias | crates/ruac/src/backend_layout.rs:358-368 | an alias is new among the root names |
| BackendLayout.BackendLayout.FreshTemporary | crates/ruac/src/backend_layout.rs:370-373 | a temporary is new and can be no user name |
| BackendNames.SpellingIsKept | crates/ruac/src/backend_layout.rs:391-404 | a name keeps its spelling if and only if it is a Lua name free for users that does not look like a generated one |
| BackendLayout.LocalAgainstRoot | crates/ruac/src/backend_layout.rs:158-183 | a new local of any module has the name of the root of a place if and only if their source names are equal |
| BackendLayout.ModuleIsHidden | crates/ruac/src/backend_layout.rs:84-192 | the smallest layout in which that happens |
| BackendLayout.Assign | crates/ruac/src/backend_layout.rs:84-192 | definitions of a module have different names, locals share one exactly when they share their source name, the two never meet, and no runtime alias is one of either in the root module; if the definitions of each module have different source names it succeeds and every definition has its own encoding |

## Left out

- LoweringProof.FunctionCorrect: one direction only; programs outside `LoweringScope.Fits` may still be lowered correctly. `LoweringLimits` shows an input for eight of its clauses, and `MatchSelection.RootsAreNotEnough` for the one on exhaustive matches; for reserved names of called functions and for pattern variables declared `mut` there is none.
- LoweringProof.FunctionCorrect: says nothing where the source evaluation is stuck on an ill-typed operand, which the type checker rules out.
- LoweringProgram.ProgramCorrect: says nothing about a call inside whose callees one panics or runs out; callees enter as functions with a value or none. A call that is an operand is made after the statements of later operands, so which of two exits wins would need conditions that `LoweringScope.Fits` does not have.
- FusedChains.ChainCorrect: the closures have a single expression as body; closures with a block, and their `return` through a label, are not modelled.
- FusedChains.ChainCorrect: sources are ranges and vectors; `chars` and `split` on strings, and `for` loops as the consumer, are not modelled.
- FusedChains.ChainCorrect: a source of more than 2^63 - 1 items would overflow the Lua counters and is excluded, and so is the exclusive range that ends at the smallest integer.
- FusedChains.ChainCorrect: chains stand as operands, returned values, initializers and assigned values; they are not a form of the expression that `LoweringProof` proves by induction.
- FusedChains.ChainCorrect: collecting into a table created with a known capacity starts, as otherwise, from an empty table with `n = 0`; `tbcreate` itself is not modelled.
- FunctionDependencies.EmitRoot: references inside raw Lua text are no part of a body, as for the collectors of the compiler.
- Removal.RemovableIsSilent: in `Effects`, the string methods are the five that codegen builds in, user-defined operators, methods that are not built in and functions are calls to the outside; `for` loops and field access are not in it.
- FusedAssign.ChainAssign: one direction only; `FusedAssignLimits` has a failing input for each kind of closure that reads the variable, but a closure may also mention it without its value mattering.
- LetRemoval.DeletingAnUnusedLet: raw Lua text reads no variables in the model; in the code it can name a local that counts as unused, because uses are counted in the resolved tree only.
- MatchCoverage.DroppingIsRightExactly: types are integers, booleans, strings, options, results, enums and structs without type parameters; of every other type patterns only bind.
- LuaScanner.PrintedTextScans: names are identifiers and numerals are spelled as Lua spells them, as `LuaScanner.AllSpelled` says; comments over several lines and long strings are not read.
- SourceMapPrinter.Printer.PrintStatement: statements are lines, or sections with a header and a body; the text of expressions in them is not modelled.
- RuaPrecedence.ParsedTreeIsGrouped: closures, map literals, blocks, `if`, `match`, `loop`, paths of several segments and turbofish arguments are not in the grammar; source spans and node numbers are not in the trees.
- LuaRoundTrip.PrintThenParse: numeric literals are non-negative atoms whose spelling is their value.
- BackendLayout.Assign: of the places of modules only the root name is modelled; dependency aliases and independently emitted modules are not modelled.
- Values are built fresh: the code generator's builder, which appends to a stack of frames, is modelled by functions that return the statements.
- Sharing of tables between variables: vectors and structs are values here, so methods that update a shared vector in place are not modelled.
- Integer division and remainder with their helpers and constant folding, the `in` operator, `for` and `while let` loops, struct literals, and calls through `self`, in lowered code.
- Metatables, dynamic dispatch, closures as values, the runtime's iterator objects, `goto continue`, optional chaining and method calls in lowered code.
- Shadowing: a source variable is its resolved local identity, and two identities have two Lua names.
- Lexer.LexWithLimit: a text longer than 2^32 - 1 bytes, on which the code stops with an assertion, is not excluded; offsets are unbounded.
- The resolver of module paths, the type checker and the rules for builtins are inputs to what is modelled here.
- Diagnostics, file system access, the command line, the language server and the editor extension.
