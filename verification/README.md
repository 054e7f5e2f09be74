# FakeLua's compiler, modelled and proved in Dafny

FakeLua turns a Lua subset into C. A rewriter first reduces the syntax tree to simpler statements, then a generator
writes C: it closes functions over boxes and upvalue arrays, keeps numbers native where inference allows it, lowers
loops and jumps, gives tables with fixed keys one struct field per key, and specialises functions by argument types.
This project models those passes as they are written and proves that each keeps the meaning of every program. Where
a pass does not, the exact condition under which it does is proved, with a concrete program that shows the
difference.

`dafny verify dfyconfig.toml` checks everything.

## How the modules hang together

| modules | what they are about |
|---|---|
| Options, Machine, Bits, Primitives | an answer that may be missing; `int64_t`, doubles, and the helpers of the C runtime; what the operations that Lua's semantics and the C semantics both use compute: bit by bit, on the real line, on values |
| LuaExp, CTarget, NumericGen, CleanCode, NumericFresh, NumericCorrect, NumericSteps, NumericTheorem, NumericFacts | expressions: Lua evaluation, the emitted C, the generator as a writer with a counter of temporaries, which expressions it compiles without a failed attempt, and the simulation |
| Conditions, Guards, GuardText | purity of guards, `if`, `while`, `repeat` around them, and whether a guard's C text is whole |
| ForLoops | the three numeric `for` shapes |
| ControlFlow, ControlProof, ControlLabels | `break`, `continue`, `goto`, labels, and the stacks and counters behind them |
| Scopes, Resolver | what each name refers to, capture lists, and the walk that computes them in place |
| Closures, ClosureProof, ClosureTheorem, CBlocks, Redeclarations, LocalLists, Shadowing | environments against boxes and upvalue arrays; which converted programs the C compiler takes; declarations that redeclare a name, or declare several |
| Assignments, SplitAssign, MultiResults, Temporaries, TableAssign | assignments with several targets, which counts are taken and why, the temporaries, and stores into tables |
| Varargs, CallArgs, Dispatch | `...`, argument lists with multi-values, the entry dispatcher |
| SpecTable, SpecTableObject, TableShift | struct-specialised tables, `table.insert`, `table.remove` |
| Identifiers, CString, Reentry | C names, C string literals, calls from the host |

Methods and classes model what the source does step by step: the emitted loops, the resolver's function records, the
generator's label and continue stacks, the rewriter's growing statement lists, the table object, the identifier maps
and the arena. Each is proved against a function or a predicate; the lemmas are about those.

## What is taken as given

- Type snapshots are sound: every variable holds what inference says it holds (`LuaExp.WellTyped`), and a specialised
  function returns the type recorded for its argument types (`LuaExp.HostTyped`). That inference of compound
  expressions is then sound is proved (`NumericCorrect.TypeSound`).
- Floating-point operations and the conversion from integers are parameters. Values are not: signed zero, NaN,
  infinities, exact comparison and the order of integers and doubles are modelled. The runtime's formulas for the
  float `//` and `%` are taken as the reference; Lua's own `%` differs from the formula for an infinite divisor.
- Of the conversion from integers to doubles, where it matters: it keeps the sign (`ForLoops.KeepsSign`), gives
  integers within the range, and rounds the largest integer up to 2^63 (`SpecTable.Rounds`).
- Calls of other functions are an arbitrary function of the name, the arguments and everything called before. Such a
  call does not assign to a variable of the expression it stands in (the manual leaves the order of that open).
- Bodies of loops in ForLoops and Guards are arbitrary functions on states; in ControlFlow, conditions and simple
  statements are. Runs carry fuel, the same on both sides, so the theorems speak about runs of every length and about
  programs that never stop.
- The integer helpers of the runtime (`FlFloorDivQuotient`, `FlModInt`, `FlShiftIntImpl`, `FlCompareIntDouble`,
  `FlForIntAdvance`, `FlForLimitToInt`) are modelled from src/compile/c_runtime_header.h. Of the table runtime, the
  hash part is a list of entries with pairwise different keys; its buckets are not modelled.

## Where the code departs from Lua

Each of these is proved, with the exact condition under which the code does what Lua does, unless it says otherwise.

- `c and 1 or 2.5`: the branches share one `double`, so the integer branch loses its tag
  (`NumericFacts.MixedTernaryIff`, `NumericFacts.MixedTernaryLosesTheTag`).
- A boxed `-e` or `~e` on a native operand compiles `e` twice and runs both; the boxed `~` of a float truncates
  (`NumericFacts.BoxedNegIff`, `NumericFacts.BoxedComplIff`).
- The test whether an `if` or `while` can throw compiles its guard as a native condition and leaves those statements
  in the output, so such a guard runs once too often (`Guards.IfIsLuaIff`, `Guards.WhileIsLuaIff`,
  `Guards.NativeGuardCallsTwice`).
- Purity accepts `-x` for a captured `x`, compilation does not (`Conditions.PureCompilesIff`). In an expression the
  comparison then falls back to the dynamic one. In a guard it does not: a comparison of native shape is printed
  whether or not its operands compiled, and `while -x < 5` reaches the C compiler as `while (() < (5))`
  (`GuardText.GuardIsWholeIff`, `GuardText.HeaderIsWholeIff`, `GuardText.CapturedNegationInHeader`).
- A specialised call inside a numeric expression takes `int64_t` parameters from its first captured argument on, so a
  captured float is truncated and captured integers arrive (`NumericFacts.SpecCallIff`,
  `NumericFacts.CapturedFloatReachesIntegerCallee`).
- The code of a function body stands in the same braces as the parameters, so a name can be declared only once in it,
  and once in each inner block, boxed and unboxed variables counted apart. `local x = 2 local x = 3`, or a local with
  a parameter's name right in the body, is refused by the C compiler (`CBlocks.FunAcceptedIff`,
  `ClosureTheorem.ProgramAcceptedIff`, `Redeclarations.RedeclaredParameterIsRefused`).
- `do local x = x end` for a dynamic or boxed `x`: the C declaration is in scope in its own initialiser. A native
  number that shadows a visible name goes through a temporary and is right (`Redeclarations.LocalIsSameIff`,
  `Redeclarations.RedeclaredLocalReadsItself`).
- The names of `local a, b = b, a` are declared one after the other, so a later initialiser reads an earlier name of
  the list (`LocalLists.ListReadsIff`, `LocalLists.SwapInDeclaration`).
- A `for` with integer start and a constant zero step is refused at compile time; Lua raises when it gets there
  (`ForLoops.TypedIntFor`).
- The dynamic `for` decides to skip before it converts, Lua after (`ForLoops.DynamicForIsLuaForIff`,
  `ForLoops.LargeStartDisagrees`). It raises exactly when Lua raises, but tests the step first and leaves limit and
  start of a float loop to the comparison, so the message can be another.
- `f(g())` with `f(...)` and `g` returning a single nil: `select('#', ...)` is 0 (`CallArgs.VarargCountIff`).
- A direct call of a function without `...` with too few or too many explicit arguments, which Lua fills up or cuts,
  is rejected. With an expansion the test can never fail, so `f(a, b, g())` for `f(x)` reaches the C compiler with two
  arguments (`CallArgs.CompileFixedCall`).
- `a, b = 1`, which Lua fills up with nil, is rejected (`TableAssign.SplitFailsIff`).
- A layout key whose double is 2^63, the literal itself or one of the last integers below it, answers for a key that
  is not equal to it; every other key answers exactly (`SpecTable.HitsIff`, `SpecTable.LargeKeyHitsWrongly`).
- Reading any table at nil or NaN raises, where Lua gives nil (`SpecTableObject.Table.Perform`).
- `table.remove` on an empty list ignores key 0 (`TableShift.RemoveIsLuaIff`), and removing what was just inserted
  restores the table only without an element behind the gap (`TableShift.RemoveUndoesInsertIff`; true of Lua's own
  functions as well).
- Comparing strings with `<`, and arithmetic on strings that spell numbers, raise. Here the reference itself follows
  the runtime (`LuaExp.CmpValue`, `LuaExp.ArithValue`), so no theorem speaks of the difference.
- The identifier maps of a function and of the file do not know each other: a local can get the C name of a
  file-level variable and hide it, as `flua_id_int` hides `int` and `fl_temp_heap_1` hides `fl_temp_heap`
  (`Identifiers.LocalHidesIff`, `Identifiers.FirstLocalHidesIff`, `Identifiers.FileVariablesHidden`).

## Model

| member | source | states |
|---|---|---|
| Machine.FloorQuotientIsFloor | src/compile/c_runtime_header.h:2106-2113 | the quotient built from truncating C division is the mathematical floor for all operands, wrapped only at `MIN // -1` |
| Machine.ModIntIsFloorMod | src/compile/c_runtime_header.h:2123-2132 | integer modulo is `a - b * floor(a / b)` and has the divisor's sign |
| Machine.CompareIntDoubleIsExact | src/compile/c_runtime_header.h:868-879 | comparing an integer with a double decides the exact order, also where conversion would round |
| Bits.ShiftMovesBits | src/compile/c_runtime_header.h:2266-2275 | bit i of `a << n` is bit i - n of `a`, of `a >> n` bit i + n, and 0 where that is outside the word; a negative count goes the other way, from 64 on nothing is left |
| Bits.AndBit | src/compile/c_gen.cpp:3009-3011 | bit i of `a & b` is set exactly when it is set in both |
| Bits.OrBit | src/compile/c_gen.cpp:3012-3014 | of bitwise or, in at least one of them |
| Bits.XorBit | src/compile/c_gen.cpp:3015-3017 | of `a ~ b`, in exactly one |
| Bits.NotBit | src/compile/c_runtime_header.h:1656 | `~a` has every bit of `a` flipped |
| Bits.BitsAreTheValue | src/compile/c_runtime_header.h:2266-2275 | an integer is its 64 bits, so these determine the results |
| Primitives.NumbersCompareAsPoints | src/compile/c_runtime_header.h:1595-1617 | integers and doubles, mixed or not, compare as points of the extended real line; nothing compares with NaN |
| Primitives.OperatorsCompareAsPoints | src/compile/c_runtime_header.h:1595-1637 | each of the six comparison operators, on those points |
| Primitives.DoublesCompareAsPoints | src/compile/c_runtime_header.h:1595-1625 | the same for two doubles, `<=` included |
| Primitives.LeIsNotGreater | src/compile/c_gen.cpp:2112-2115 | `<=` on doubles is the negation of `>` except at NaN |
| Primitives.NegateMirrors | src/compile/c_gen.cpp:3070-3092 | unary minus on doubles mirrors the point, flips the sign of a zero, and undoes itself |
| Primitives.ToIntIff | src/compile/c_runtime_header.h:365-372 | a double fits an integer exactly when it lies at one in range, and gives that one |
| Primitives.TruncateDropsTheFraction | src/compile/c_runtime_header.h:868-879 | C's cast rounds toward zero |
| Primitives.FloatArithOnReals | src/compile/c_gen.cpp:2942-3003 | where no operation rounds, each float operator is the one on reals, `//` the floor of the quotient and `%` what it leaves |
| Primitives.SameValueIff | src/compile/c_runtime_header.h:883-905 | numbers are equal at the same point, other values when they are the same, a number never equals another kind |
| Primitives.CmpValueRaisesIff | src/compile/c_runtime_header.h:1595-1648 | `==` and `~=` never raise and are opposites; the others raise exactly unless both are numbers |
| Primitives.OnlyNilAndFalseAreFalse | src/compile/c_runtime_header.h:782-784 | `not`, `and`, `or` treat nil and false, and nothing else, as false |
| Machine.FloorBounds | src/compile/c_runtime_header.h:2106-2113 | the floor quotient leaves a remainder smaller than the divisor and of its sign |
| CTarget.NativeCompareIsCmpNum | src/compile/c_gen.cpp:1166-1188 | the C text of a mixed or uniform native comparison decides what Lua's comparison decides |
| NumericCorrect.FoldIsEval | src/compile/compile_common.h:360-380 | a folded literal under unary minuses is the value Lua evaluation gives, and never wraps |
| NumericCorrect.TypeSound | src/compile/c_gen.cpp:1118-1152 | an expression inferred numeric evaluates to a number of exactly that tag, or raises |
| CleanCode.NumericCleanIff | src/compile/c_gen.cpp:3300-3439 | the numeric compiler returns without a failed attempt or assertion on the way exactly for the expressions `NumClean` describes, whatever temporary it starts from |
| CleanCode.BoxedCleanIff | src/compile/c_gen.cpp:2514-2568 | the boxed compiler, exactly for `BoxClean` |
| CleanCode.NativeBoolCleanIff | src/compile/c_gen.cpp:1190-1247 | a native condition, exactly when its operands are `NumClean` |
| NumericFresh.NumericIsFresh | src/compile/c_gen.cpp:3300-3439 | numeric code writes and reads only temporaries it drew from the counter |
| NumericFresh.BoxedIsFresh | src/compile/c_gen.cpp:2514-2568 | the same for boxed code |
| NumericSteps.ArithYields | src/compile/c_gen.cpp:2942-3032 | from operands realised in order, the arithmetic code gives Lua's result or Lua's error, for every operator and mix of types |
| NumericTheorem.NumericIsCorrect | src/compile/c_gen.cpp:3300-3439 | for every `NumClean` expression: running the emitted statements and reading the returned expression gives Lua's number with its tag, or the same error after the same calls |
| NumericTheorem.NumericUnaryIsCorrect | src/compile/c_gen.cpp:3070-3092 | the same for native `-` and `~`, including wrap-around and the exactness check of `~` |
| NumericTheorem.TernaryIsCorrect | src/compile/c_gen.cpp:3376-3404 | `c and a or b` runs the condition and exactly one branch, and holds Lua's value in the declared type |
| NumericTheorem.NumericCallIsCorrect | src/compile/c_gen.cpp:3452-3536 | a call of the variant for the inferred types, captured integer arguments included, passes Lua's arguments in order and returns Lua's number |
| NumericTheorem.NativeBoolIsCorrect | src/compile/c_gen.cpp:1190-1247 | a native condition is the truth of the Lua condition |
| NumericTheorem.BoxedIsCorrect | src/compile/c_gen.cpp:2514-2568 | the same simulation for every `BoxClean` expression, mutually inductive with the numeric one |
| NumericTheorem.BoxedArithIsCorrect | src/compile/c_gen.cpp:2776-2877 | boxed arithmetic, by the native fast path or the runtime operation |
| NumericTheorem.ShortCircuitIsCorrect | src/compile/c_gen.cpp:2790-2821 | `and`/`or`: the right side runs exactly when Lua runs it |
| NumericFacts.MixedTernaryIff | src/compile/type_inferencer.cpp:827-839 | with branches of different types the emitted code is Lua's exactly when the condition raises, selects the float branch, or selects a branch that raises |
| NumericFacts.MixedTernaryLosesTheTag | src/compile/c_gen.cpp:3376-3404 | `true and 1 or 2.5` is 1 in Lua, a float in C |
| NumericFacts.BoxedNegRunsTwice | src/compile/c_gen.cpp:3055-3068 | what the boxed `-e` does: evaluate, drop, evaluate again, negate |
| NumericFacts.BoxedNegIff | src/compile/c_gen.cpp:3055-3068 | it is Lua's exactly when `e` raises or makes no call |
| NumericFacts.BoxedComplIff | src/compile/c_gen.cpp:2879-2922 | the boxed `~` of a native operand is Lua's exactly when the operand raises, or makes no call and is an integer or a float of integer value |
| NumericFacts.SimpleIsFine | src/compile/c_gen.cpp:2514-2568 | the simulation theorems reach every expression that compiles and has no unary minus or complement, no conditional of mixed types and no call of a specialised function |
| NumericFacts.MaskTypesAre | src/compile/c_gen.cpp:1087-1109 | the variant's types are those of the arguments up to the first dynamic one, integers from there on |
| NumericFacts.SpecCallIff | src/compile/c_gen.cpp:3452-3536 | a specialised call in a numeric expression is Lua's call exactly when an argument raises or the variant selected from the arguments' native types is the one for their inferred types |
| NumericFacts.CapturedFloatReachesIntegerCallee | src/compile/c_gen.cpp:3452-3536 | a captured 2.5 reaches an integer callee as 2 |
| Conditions.PureEmitsNothing | src/compile/c_gen.cpp:1254-1358 | an expression accepted as pure compiles without a statement or a temporary |
| Conditions.PureCompilesIff | src/compile/c_gen.cpp:1254-1358 | it compiles natively exactly when no unary minus is over a dynamically read operand |
| Conditions.CapturedNegationMisses | src/compile/c_gen.cpp:1254-1358 | `-x` for a captured integer is pure and does not compile |
| Conditions.CondIsCorrect | src/compile/c_gen.cpp:1761-1809 | for every `GuardClean` guard: native, comparing or boxed, its code decides Lua's condition or fails as it fails |
| Conditions.GuardCleanIff | src/compile/c_gen.cpp:1761-1809 | the guard compiler has no failed attempt exactly for the guards `GuardClean` describes |
| Guards.PureBoolEmitsNothing | src/compile/c_gen.cpp:1190-1247 | a guard put into a loop header has emitted nothing before the loop |
| Guards.WhileCleanIff | src/compile/c_gen.cpp:1811-1846 | a `while` is compiled without a failed attempt exactly when its guard is |
| Guards.LoopIsLuaWhile | src/compile/c_gen.cpp:1811-1846 | in either shape of the emitted loop, every round re-evaluates the whole condition: the run is Lua's for any number of rounds |
| Guards.WhileIsLuaAfterProbe | src/compile/c_gen.cpp:863-866 | the whole emitted statement is Lua's loop after one extra evaluation of a native guard |
| Guards.WhileIsLuaIff | src/compile/c_gen.cpp:848-866 | for a `GuardClean` guard it is Lua's loop for every body exactly when the guard is not native, or its first evaluation raises or makes no call |
| Guards.RepeatIsLua | src/compile/c_gen.cpp:1848-1869 | `repeat` with the guard's statements after the body is Lua's `repeat` |
| Guards.ChoiceIsLua | src/compile/c_gen.cpp:1871-1917 | `elseif` guards run only when the ones before were false, and Lua's branch is taken |
| Guards.IfIsLuaIff | src/compile/c_gen.cpp:859-862 | the emitted `if` is Lua's exactly when its guard is not native, raises, or makes no call |
| GuardText.NumCompilesIff | src/compile/c_gen.cpp:3300-3439 | which expressions the numeric compiler returns on, instead of raising a specialisation miss |
| GuardText.BoxCompilesIff | src/compile/c_gen.cpp:2514-2568 | the same for boxed expressions |
| GuardText.PureIff | src/compile/c_gen.cpp:1254-1358 | of the expressions that compile, purity accepts exactly those of operators over literals and variables whose code has no statement |
| GuardText.HeaderIff | src/compile/c_gen.cpp:1190-1247 | a guard fits a loop header exactly when it is a native comparison of pure operands |
| GuardText.WhileShapeIff | src/compile/c_gen.cpp:1811-1846 | and exactly then the emitted `while` has it there |
| GuardText.GuardIsWholeIff | src/compile/c_gen.cpp:1230-1245 | a comparison of native shape is always taken as a native condition, and its text has both operands exactly when both compile |
| GuardText.HeaderIsWholeIff | src/compile/c_gen.cpp:1230-1245 | a guard in a loop header is whole exactly when no unary minus in it is over a dynamically read operand |
| GuardText.CapturedNegationInHeader | src/compile/c_gen.cpp:1240-1244 | `while -x < 5` for a captured integer has no left operand; in an expression it compiles |
| Guards.NativeGuardCallsTwice | src/compile/c_gen.cpp:848-866 | `if f(1) < 2` calls `f` twice |
| ForLoops.IntForRunsOverVisited | src/compile/c_gen.cpp:2088-2111 | the reference loop over unbounded integers runs its body over exactly the visited values, up to a `break` |
| ForLoops.VisitedIsArithmetic | src/compile/c_gen.cpp:2088-2111 | the k-th visited value is start + k * step, and there is a k-th exactly when that is at most the limit, or at least it for a negative step |
| ForLoops.ConstStepFor | src/compile/c_gen.cpp:2088-2096 | the constant-step loop ends, never overflows, and is the reference loop, for all int64 bounds |
| ForLoops.RuntimeStepFor | src/compile/c_gen.cpp:2104-2111 | the same for a step known at run time |
| ForLoops.DynamicIntFor | src/compile/c_gen.cpp:2190-2258 | the same for the dynamic prepare/advance loop |
| ForLoops.LimitToIntIsExact | src/compile/c_runtime_header.h:2230-2258 | clipping a float limit admits exactly the integers up to it on the real line, or down to it; the infinities admit all or none, NaN counts as minus infinity |
| ForLoops.FloatLimitVisits | src/compile/c_gen.cpp:2064-2072 | under a clipped float limit the loop visits the k-th value exactly when that is not beyond the float limit on the real line |
| ForLoops.TypedIntFor | src/compile/c_gen.cpp:2045-2124 | the emitted integer loop, integer or float limit, constant or run-time step, is Lua's loop for every operand and body; a constant zero step is refused |
| ForLoops.TypedFloatFor | src/compile/c_gen.cpp:2112-2115 | the `started`-flag loop is the float reference loop for any number of steps, NaN included |
| ForLoops.FloatForRunsOverVisited | src/compile/c_gen.cpp:2112-2115 | the reference float loop runs its body over exactly its visited values, in order, up to a `break` |
| ForLoops.FloatVisitedIsArithmetic | src/compile/c_gen.cpp:2112-2115 | as long as the steps do not round, the k-th visited value is start + k * step, and there is a k-th exactly when that is not beyond the limit, the limit included |
| ForLoops.NaNLimitRunsOnce | src/compile/c_gen.cpp:2079-2085 | a NaN limit does not skip and stops after one round |
| ForLoops.StepSigns | src/compile/c_gen.cpp:2150-2190 | which steps are refused as zero and which count as positive |
| ForLoops.DynamicFor | src/compile/c_gen.cpp:2150-2279 | the dynamic loop on any operands computes its specification |
| ForLoops.DynamicForIsLuaFor | src/compile/c_gen.cpp:2205-2273 | it runs, or raises, as Lua's loop when the two skip decisions agree |
| ForLoops.DynamicForIsLuaForIff | src/compile/c_gen.cpp:2205-2273 | and on every body only then |
| ForLoops.SmallOperandsAgree | src/compile/c_gen.cpp:2205-2219 | they agree for floats and for integers up to 2^53 |
| ForLoops.LargeStartDisagrees | src/compile/c_gen.cpp:2205-2219 | from 2^53 + 1 to 2^53 by 1.0 they do not |
| ControlProof.StepIsSame | src/compile/c_gen.cpp:1923-1961 | every statement in every nest of loops: the C code ends as the source does, each `continue` and `goto` by the C jump that reaches its target |
| ControlProof.DynamicIsSame | src/compile/c_gen.cpp:2236-2279 | `continue` in a dynamic `for` reaches the step of that loop |
| ControlProof.RepeatIsSame | src/compile/c_gen.cpp:1848-1869 | `continue` in a `repeat` reaches its test |
| ControlProof.ForEachIsSame | src/compile/c_gen.cpp:2353-2413 | a loop over `pairs` or `ipairs`, emitted as a C `for`: `break` and `continue` act as in Lua, an empty entry is passed over or ends the loop |
| ControlProof.FunctionBodyIsSame | src/compile/c_gen.cpp:1395-1413 | a function body runs as the source does and no jump is lost |
| ControlLabels.LabelsAreUnique | src/compile/c_gen.cpp:1395-1413 | within a function no C label is printed twice |
| ControlLabels.LowerFailsIff | src/compile/c_gen.cpp:1935-1961 | a statement is rejected exactly for a repeated label or a `goto` without a visible one |
| ControlLabels.BlockFailsIff | src/compile/c_gen.cpp:1395-1413 | the same for blocks |
| ControlLabels.Generator.CompileStmt | src/compile/c_gen.cpp:1421-1484 | the imperative lowering computes the lowering function and leaves depth, label stack and continue stack as they were |
| ControlLabels.Generator.CompileBlock | src/compile/c_gen.cpp:1395-1413 | the same for a block, whose label map is pushed and popped |
| Scopes.CapturesAreVisible | src/compile/c_gen.cpp:5284-5313 | every captured definition is visible where the function is written and belongs to a proper ancestor; none is listed twice |
| Scopes.CapturesAreClosed | src/compile/c_gen.cpp:5284-5313 | the parent defines it or captures it too |
| Scopes.FileLevelCapturesNothing | src/compile/c_gen.cpp:5284-5313 | a file-level function captures nothing |
| Resolver.Walk.Refer | src/compile/c_gen.cpp:5284-5313 | one reference extends the capture list of every function between use and definition, once, and marks the definition |
| Resolver.Walk.ResolveFun | src/compile/c_gen.cpp:5209-5283 | the walk over a function leaves in its record, in its ancestors and in the finished list exactly the capture lists of the specification |
| Resolver.Walk.ResolveBlock | src/compile/c_gen.cpp:5166-5174 | the same over the statements of a block, with shadowing |
| ClosureProof.VarAddress | src/compile/c_gen.cpp:3114-3129 | a compiled variable, slot, box or upvalue, is the address its environment binds |
| ClosureProof.PointersAreLive | src/compile/c_gen.cpp:5411-5424 | every upvalue pointer printed at closure creation is the captured cell; none is NULL |
| ClosureProof.ClosureIsSame | src/compile/c_gen.cpp:2545-2560 | the closure object built has, upvalue by upvalue, the cells of the environment it was created in, so siblings share them |
| ClosureTheorem.RoundsAreSame | src/compile/c_gen.cpp:2118-2130 | each loop round has a fresh cell, captured or not |
| ClosureTheorem.RunIsSame | src/compile/c_gen.cpp:5447-5483 | every block runs alike, cell by cell, whatever closures it creates or calls |
| ClosureTheorem.ConversionPreservesMeaning | src/compile/c_gen.cpp:5145-5313 | for every program that declares no name twice in one C block and reads no name in its own declaration, and every call: the C compiler takes the program, and it ends with the same result, the same error, the same memory, and no uninitialised read |
| ClosureTheorem.CapturedIff | src/compile/c_gen.cpp:5284-5313 | a definition is captured exactly when a function other than its owner mentions it |
| Shadowing.WithoutShadowingAllIsWell | src/compile/c_gen.cpp:5145-5313 | every program in which parameters differ and no local has the name of something visible meets those conditions |
| CBlocks.FunAcceptedIff | src/compile/c_gen.cpp:729-760 | the emitted function, with every function inside it, declares no variable twice in a C block exactly when the Lua text has no such pair: parameters and outermost locals together, each inner block by itself, captured and uncaptured apart |
| CBlocks.BlockAcceptedIff | src/compile/c_gen.cpp:1395-1413 | the same for a block that follows given declarations |
| ClosureTheorem.ProgramAcceptedIff | src/compile/c_gen.cpp:1002-1076 | the same for a whole program |
| Redeclarations.LocalIsSameIff | src/compile/c_gen.cpp:1546-1674 | a declaration is accepted and agrees exactly when its C name is new in its C block and its initialiser does not read that name, or goes through the temporary of a shadowing native number |
| Redeclarations.RedeclaredParameterIsRefused | src/compile/c_gen.cpp:729-760 | `local x = x` right in the body of `f(x)` is refused by the C compiler |
| Redeclarations.RedeclaredLocalReadsItself | src/compile/c_gen.cpp:1630-1662 | `do local x = x end` in `f(x)` is accepted and reads the variable being initialised; a native one arrives |
| LocalLists.ListIsSame | src/compile/c_gen.cpp:1613-1662 | a list of names whose initialisers mention no C name declared before them: declaring name by name ends like evaluating the list and binding its names |
| LocalLists.ListReadsIff | src/compile/c_gen.cpp:1613-1662 | every initialiser reads the cells its variables have around the list exactly when none mentions a C name the list has declared by then |
| LocalLists.ReadsIff | src/compile/c_gen.cpp:3114-3129 | the printed initialiser names the C variable of a definition exactly when the source mentions a variable of that C name |
| LocalLists.SwapInDeclaration | src/compile/c_gen.cpp:1613-1662 | `do local a, b = b, a end`: Lua swaps 1 and 2, C makes both 2 |
| SplitAssign.SplitIsAssign | src/compile/preprocessor.cpp:126-218 | the split statements leave the state, the order of effects and the error of the reference rule, for any aliasing and any trailing multi-result |
| SplitAssign.TreePreserves | src/compile/preprocessor.cpp:126-218 | the pass over a whole program, blocks inside blocks included, preserves it |
| SplitAssign.SplitBlock | src/compile/preprocessor.cpp:126-218 | the loop over a block's statements builds that result |
| Assignments.ListEndsWithAll | src/compile/preprocessor.cpp:126-218 | a list has one value from every expression but the last and all of the last one's |
| Assignments.StoreIsRead | src/compile/preprocessor.cpp:225-284 | a store is read back and no other entry changes |
| Temporaries.TemporariesAreDistinct | src/compile/preprocessor.cpp:150-197 | all groups of a program, in one block or in different ones, declare different temporaries |
| MultiResults.OneValuedIff | src/compile/preprocessor.cpp:143-147 | of the expressions that can finish in some state, exactly the calls and `...` can give other than one value |
| MultiResults.CountsOkIff | src/compile/preprocessor.cpp:143-147 | the pass takes an assignment exactly with equal counts, or with fewer expressions of which the last can give other than one value |
| MultiResults.NeverFinishedCallIsTaken | src/compile/preprocessor.cpp:143-147 | a call that can never finish, such as `(nil).x()`, is taken for one too |
| SplitAssign.SplitGroup | src/compile/preprocessor.cpp:150-197 | the lists of captures, temporaries and single stores, in order |
| TableAssign.SplitFailsIff | src/compile/preprocessor.cpp:137-147 | the first pass fails exactly when some assignment has more expressions than targets, or fewer and no last one that is a call or `...` |
| TableAssign.CallFillsTargets | src/compile/preprocessor.cpp:143-147 | `a, b = f()` is taken and split |
| TableAssign.SetTableIsAssign | src/compile/preprocessor.cpp:225-284 | the call a store becomes does what the store did |
| TableAssign.PassesPreserveMeaning | src/compile/preprocessor.cpp:225-284 | both passes together preserve every program, and every assignment left has one simple variable and one expression |
| TableAssign.RewriteBlock | src/compile/preprocessor.cpp:225-284 | the loop of the second pass |
| SpecTable.HitsIsLuaEqual | src/compile/c_gen.cpp:282-406 | asked with a normalised key, an accessor hits exactly on a key Lua-equal to the layout key, unless that key's double is 2^63 |
| SpecTable.HitsIff | src/compile/c_gen.cpp:282-406 | and only then on every key |
| SpecTable.LargeKeyHitsWrongly | src/compile/c_gen.cpp:325-341 | an integer layout key that rounds to 2^63 answers for the float 2^63 |
| SpecTable.UsableIff | src/compile/c_runtime_header.h:938-942 | a table can be indexed with exactly the keys that equal themselves |
| SpecTable.HashGetIsMap | src/compile/c_runtime_header.h:938-965 | lookup in the hash part is lookup in a map |
| SpecTable.HashSetIsMap | src/compile/c_runtime_header.h:1254-1268 | a store in it, or of nil, is an update of the map, and keys stay different |
| SpecTableObject.Table.DynamicRead | src/compile/c_gen.cpp:282-406 | a read by a run-time key answers as the plain map |
| SpecTableObject.Table.DynamicWrite | src/compile/c_gen.cpp:282-406 | a write by a run-time key updates the plain map; fields and their mirror stay equal |
| SpecTableObject.Table.StaticRead | src/compile/c_gen.cpp:3270-3285 | a field read answers as the plain map |
| SpecTableObject.Table.StaticWrite | src/compile/c_gen.cpp:4807-4840 | a field write updates field, mirror and key together |
| SpecTableObject.Table.Perform | src/compile/c_gen.cpp:2624-2693 | any sequence of static and dynamic operations ends as on a plain map, and each answers as there exactly when it is no read at nil or NaN |
| SpecTableObject.Table.Pairs | src/compile/c_gen.cpp:2375-2413 | the loop over entry indexes collects the non-nil entries, struct part first |
| SpecTableObject.PairsYieldsEachOnce | src/compile/c_gen.cpp:2375-2413 | each binding of the map once, under a key equal to every key that reads it |
| Varargs.PassBinds | src/compile/preprocessor.cpp:315-394 | every `...` is bound to the implicit parameter of its innermost vararg function |
| Varargs.VarargBodiesHaveNone | src/compile/preprocessor.cpp:315-394 | none is left inside a vararg function |
| Varargs.PassUpBinds | src/compile/preprocessor.cpp:315-394 | visiting children first gives the same bindings |
| Varargs.PassIsFresh | src/compile/preprocessor.cpp:353 | every implicit parameter has its own name |
| Varargs.Rewriter.Visit | src/compile/preprocessor.cpp:315-394 | the walk with its counter is that function |
| CallArgs.BuildVarargCall | src/compile/c_gen.cpp:4996-5043 | which unbox, slice, combine and pack expressions are printed, in every case |
| CallArgs.VarargCallDelivers | src/compile/c_gen.cpp:4996-5043 | evaluated, they deliver Lua's argument list index by index, split at the fixed parameters |
| CallArgs.VarargCountIff | src/compile/c_runtime_header.h:1909-1916 | the count in `...` is Lua's except for a single nil expanding into an empty `...` |
| CallArgs.OneNilIsLost | src/compile/c_runtime_header.h:1909-1916 | `f(g())` with one nil counts none |
| CallArgs.CompileFixedCall | src/compile/c_gen.cpp:3614-3628 | a wrong explicit count is rejected exactly without an expansion |
| CallArgs.FixedCallDelivers | src/compile/c_gen.cpp:5044-5050 | a callee without `...` receives Lua's list padded with nil |
| CallArgs.HostCall | include/fakelua.h:704-737 | packing a host call in its fixed buffer, with both count errors |
| CallArgs.HostDelivers | include/fakelua.h:719-730 | a vararg function called from the host receives the host's list and its count |
| Dispatch.Enter | src/compile/c_gen.cpp:768-826 | dynamic variant exactly for a non-numeric math argument, otherwise a case of the switch that exists and reads every union by its live member |
| Dispatch.MaskHasKinds | src/compile/compile_common.h:60-64 | bit i of a mask is the i-th kind |
| Dispatch.VariantIsUnique | src/compile/c_gen.cpp:768-826 | the variant reached is the only one whose kinds equal the tags |
| Dispatch.SpecFuncName | src/compile/compile_common.h:159-166 | the loop that appends a suffix for each parameter builds the name |
| Dispatch.SuffixDigits | src/compile/compile_common.h:159-166 | the name shows `_0` for each integer and `_1` for each float parameter, in order |
| Dispatch.SpecNamesInjective | src/compile/compile_common.h:159-166 | among the variants of a function the name tells the mask |
| Dispatch.InferMask | src/compile/c_gen.cpp:1087-1109 | static inference fails exactly for a missing or dynamic argument |
| Dispatch.StaticIsDynamic | src/compile/c_gen.cpp:1087-1109 | with sound types the static mask is the dispatcher's |
| TableShift.Object.Insert | src/compile/c_gen.cpp:4206-4246 | the shift loop leaves exactly the inserted table, or rejects the position |
| TableShift.Object.Remove | src/compile/c_gen.cpp:4249-4293 | the shift loop returns the element and leaves exactly the table without it |
| TableShift.InsertIsSequenceInsert | src/compile/c_gen.cpp:4206-4246 | on the list part that is sequence insertion, and no other key changes |
| TableShift.RemoveIsSequenceRemove | src/compile/c_gen.cpp:4249-4293 | and sequence removal |
| TableShift.RemoveUndoesInsertIff | src/compile/c_gen.cpp:4206-4293 | removing what was inserted returns it, and restores the table exactly when nothing lies behind the gap |
| TableShift.RemoveIsLuaIff | src/compile/c_gen.cpp:4249-4293 | removal is Lua's except for key 0 of an empty list |
| Identifiers.FindFree | src/compile/c_gen.cpp:39-43 | the suffix search ends, with the first free candidate |
| Identifiers.IdentMap.CIdent | src/compile/c_gen.cpp:28-46 | one request: stable, new names the first free ones, map injective and free of reserved words |
| Identifiers.IdentMap.CIdents | src/compile/c_gen.cpp:48-55 | any list of requests: equal answers exactly for equal names, none reserved, earlier answers unchanged |
| Identifiers.BaseIsNotReserved | src/compile/compile_common.h:24-45 | the sanitised name is never a reserved word |
| Identifiers.CandidateIsNotReserved | src/compile/compile_common.h:24-45 | and no suffix makes it one |
| Identifiers.NoNameIsAKeyword | src/compile/compile_common.h:24-45 | with no suffix does a Lua name become a keyword of section 6.4.1 of ISO C11 |
| Identifiers.SameBaseIff | src/compile/c_gen.cpp:28-46 | which two Lua names start from the same C name |
| Identifiers.LocalHidesIff | src/compile/c_gen.cpp:28-46 | a new local gets a file-level variable's C name exactly when that is the first free name for it in the function's map |
| Identifiers.FirstLocalHidesIff | src/compile/c_gen.cpp:28-46 | for the first name of a function, exactly when it is what the local's name sanitises to |
| Identifiers.FileVariablesHidden | src/compile/c_gen.cpp:28-46 | two maps hand out one C name for different variables, with and without a suffix |
| Identifiers.TemporariesHaveDistinctTexts | src/compile/preprocessor.cpp:160-191 | the printed names of the rewriter's temporaries are pairwise different |
| Identifiers.SymbolTable.Uniquify | src/compile/c_gen.cpp:78-119 | all function symbols differ, avoid the runtime's, and only the real init function has the init name |
| Identifiers.SymbolsStayInTheirNamespace | src/compile/c_gen.cpp:98-117 | file-level functions get symbols beginning with `flua_fn_`, inner ones with `__fl_func_`: never `main` or `sin` |
| Identifiers.SymbolIsNotReserved | src/compile/c_gen.cpp:94-114 | no symbol made from a resolved function's name is a reserved word |
| CString.EscapeLiteral | src/compile/compile_common.h:463-493 | the growing buffer is the escaped text |
| CString.RoundTrip | src/compile/compile_common.h:463-493 | read by the rules of C, the escaped text is the original bytes, for every byte string |
| CString.DecodeByte | src/compile/compile_common.h:463-493 | one escaped byte is read back whole whatever text follows, digits after an octal escape included |
| CString.EscapedIsClosed | src/compile/compile_common.h:463-493 | no unescaped quote or newline, and no escape left open at the end |
| CString.EscapedIsPrintable | src/compile/compile_common.h:463-493 | only printable ASCII |
| Reentry.State.Enter | include/fakelua.h:694-749 | the arena is emptied exactly on entry of an admitted call at depth zero and holds, on every way out, what it held and everything allocated since; the number of allocations is that of the acts executed; the count is restored |
| Reentry.ReturnsIff | include/fakelua.h:626-638 | a call returns normally exactly when it is admitted, fails nowhere, and no exception inside it is left uncaught |
| Reentry.CountIsRestored | include/fakelua.h:626-638 | in every nesting of calls, returns and exceptions the history is that of a counter that ends where it began |
| Reentry.NestedCallsNeverReset | include/fakelua.h:713-716 | a call made inside a call never resets |

## Left out

- Type inference, semantic analysis, lexer, parser and interpreter: their results are hypotheses or parameters.
- Running the C compiler, temporary files, logging, line numbers and location emission.
- Inlined builtins other than `table.insert` and `table.remove`: thin wrappers.
- NativeObject, the command line and the test runner.
- NumericTheorem.NumericIsCorrect: only for expressions on which no attempt fails, which NumericCleanIff reads off the source; an attempt that fails leaves the statements it wrote, and the model keeps them too. Branches of one numeric `c and a or b` have equal types here; MixedTernaryIff covers the others.
- NumericTheorem.BoxedIsCorrect: excludes the boxed unary path on calls and on floats under `~`, which BoxedNegIff and BoxedComplIff describe, and a plain variable operand is not changed by a call beside it.
- NumericTheorem.NumericCallIsCorrect: the variant is the one for the inferred types, for which SpecCallIff is exact; every argument is specialised; parameters that are not numeric stay boxed and are covered only by the boxed call.
- Guards.RepeatIsLua: the `until` condition sees the scope around the loop, as the resolver has it (src/compile/c_gen.cpp:5374-5379).
- ForLoops.FloatVisitedIsArithmetic: for steps that do not round; where they do, the loop is still the reference loop, step by step.
- ForLoops.TypedFloatFor: constant float steps are printed with six decimals (src/compile/c_gen.cpp:2098-2101) and are not modelled.
- ControlProof.ForEachIsSame: the entries read are steps of an arbitrary state; which entries `pairs` yields is SpecTableObject.Table.Pairs.
- ForLoops.DynamicForIsLuaFor: which of several errors is raised is not compared.
- GuardText.GuardIsWholeIff: the text of the condition itself; statements in front of it that print a failed argument of a call are kept but not given a meaning.
- ClosureTheorem.ConversionPreservesMeaning: functions over locals, parameters, nested functions and numeric loops in which every operand is a name or a constant; tables and multiple results are not part of it. A declaration that reads its own C name is excluded, for which LocalIsSameIff is exact, and so is a name declared twice in one C block, for which ProgramAcceptedIff is exact. A declaration there has one name.
- LocalLists.ListIsSame: one initialiser for each name; names filled up with nil, results spread over names and surplus initialisers are not modelled.
- SplitAssign.TreePreserves: temporaries are structured names, which TemporariesHaveDistinctTexts ties to their texts; programs do not use such names themselves. Expressions are evaluated by Lua's rules with an arbitrary host.
- ControlProof.StepIsSame: variables and scopes play no part; C's own rule against jumping into a declaration's scope is not modelled.
- SpecTableObject.Table.Perform: layouts without a key whose double is 2^63, for which HitsIff is exact. Trailing expansion in a table constructor, and the typed storage of a field, are not modelled: a field holds a value.
- Dispatch.Enter: `1 << k` is taken as unbounded.
- Identifiers.SymbolTable.Uniquify: specialised names such as `f_0` are not in the table and may meet a user's symbol.
- Identifiers.IdentMap.CIdent: temporaries of the generator and user variables spelled like them are not kept apart by the code either.
- CString.RoundTrip: numbers are printed elsewhere; their literal text is not modelled.
- Reentry.State.Enter: conversion of arguments and results, which allocates like any other act, is not separate.
