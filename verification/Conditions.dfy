/** Guards of `if`, `while` and `repeat`: purity, the two shapes of an emitted `while`, and how often a guard runs. */
module Conditions {
  import opened Options
  import opened Machine
  import opened LuaExp
  import opened CTarget
  import opened NumericGen
  import opened NumericFresh
  import opened NumericCorrect
  import opened NumericTheorem
  import opened CleanCode

  // ----- purity -----

  /** A pure expression that compiles is one C expression: no statement, no temporary. */
  lemma {:induction false} PureEmitsNothing(c: Ctx, e: Exp, n: nat)
    requires IsPure(c, e)
    ensures var g := Numeric(c, e, n); g.out == [] && g.next == n && g.ok
  {
    if ConstFold(e).None? {
      match e
      case Paren(e1) => PureEmitsNothing(c, e1, n);
      case Arith(_, l, r) => PureEmitsNothing(c, l, n); PureEmitsNothing(c, r, n);
      case Neg(e1) => PureEmitsNothing(c, e1, n);
      case Compl(e1) => PureEmitsNothing(c, e1, n);
      case Var(_) =>
    }
  }

  /** Every unary minus left after constant folding has a native operand type. */
  predicate NegationsTyped(c: Ctx, e: Exp)
  {
    if ConstFold(e).Some? then true
    else match e
      case Paren(e1) => NegationsTyped(c, e1)
      case Arith(_, l, r) => NegationsTyped(c, l) && NegationsTyped(c, r)
      case Neg(e1) => IsNum(GetType(c, e1)) && NegationsTyped(c, e1)
      case Compl(e1) => NegationsTyped(c, e1)
      case _ => true
  }

  /** Purity promises more than compilation delivers exactly when a unary minus has a captured variable
      (or another dynamically typed operand) under it. */
  lemma {:induction false} PureCompilesIff(c: Ctx, e: Exp, n: nat)
    requires IsPure(c, e)
    ensures Numeric(c, e, n).res.Some? <==> NegationsTyped(c, e)
  {
    PureEmitsNothing(c, e, n);
    if ConstFold(e).None? {
      match e
      case Paren(e1) => PureCompilesIff(c, e1, n);
      case Arith(_, l, r) =>
        PureEmitsNothing(c, l, n);
        PureCompilesIff(c, l, n); PureCompilesIff(c, r, n);
      case Neg(e1) => PureCompilesIff(c, e1, n);
      case Compl(e1) => PureCompilesIff(c, e1, n);
      case Var(_) =>
    }
  }

  /** `-x` with `x` a captured integer: pure, inferred an integer, and the compiler gives up on it. */
  lemma CapturedNegationMisses(n: nat)
    ensures var c := Ctx(map["x" := VarInfo(TInt, true)], map[]);
            var e := Neg(Var("x"));
            IsPure(c, e) && Infer(c, e) == TInt && Numeric(c, e, n).res.None?
  {
  }

  // ----- CompileCondBoolExpr -----

  /** A guard as the C compiler sees it after the emitted statements: `e`, `FlCmpXx(l, r)`, or `!(c)`. */
  datatype Guard = Test(e: CExp) | Compared(cmp: CmpOp, l: CExp, r: CExp) | Negated(g: Guard)

  datatype CondGen = CondGen(out: seq<Stmt>, res: Option<Guard>, next: nat, ok: bool)

  function EvalGuard(w: World, g: Guard, env: Env, t: Tmps): Option<Pure<bool>>
  {
    match g
    case Test(e) => (match EvalC(w, e, env, t) case Some(T(b)) => Some(Fine(b)) case _ => None)
    case Compared(cmp, l, r) =>
      (match (EvalC(w, l, env, t), EvalC(w, r, env, t))
       case (Some(B(a)), Some(B(b))) => Some(CmpValue(cmp, a, b))
       case _ => None)
    case Negated(g1) =>
      (match EvalGuard(w, g1, env, t)
       case Some(Fine(b)) => Some(Fine(!b))
       case x => x)
  }

  function StripParens(e: Exp): (s: Exp)
    ensures s == e || s < e
    ensures !s.Paren?
  {
    match e case Paren(e1) => StripParens(e1) case _ => e
  }

  function Guarded(g: Gen, guard: CExp -> Guard): CondGen
  {
    CondGen(g.out, match g.res case None => None case Some(e) => Some(guard(e)), g.next, g.ok)
  }

  function ComparedFinish(cmp: CmpOp, gl: Gen, gr: Gen): CondGen
  {
    if gl.res.None? then CondGen(gl.out, None, gl.next, gl.ok)
    else CondGen(gl.out + gr.out, match gr.res case None => None case Some(b) => Some(Compared(cmp, gl.res.value, b)),
                 gr.next, gl.ok && gr.ok)
  }

  function NegatedFinish(g: CondGen): CondGen
  {
    g.(res := match g.res case None => None case Some(x) => Some(Negated(x)))
  }

  function CondAfter(gb: Gen, rest: CondGen): CondGen
  {
    CondGen(gb.out + rest.out, rest.res, rest.next, gb.ok && rest.ok)
  }

  function Cond(c: Ctx, e: Exp, n: nat): CondGen
    decreases e, 1
  {
    var gb := NativeBool(c, e, n);
    if gb.res.Some? then Guarded(gb, x => Test(x)) else CondAfter(gb, DynamicCond(c, e, gb.next))
  }

  function DynamicCond(c: Ctx, e: Exp, n: nat): CondGen
    decreases e, 0
  {
    match StripParens(e)
    case Not(e1) => NegatedFinish(Cond(c, e1, n))
    case Cmp(cmp, l, r) =>
      var gl := Boxed(c, l, n);
      ComparedFinish(cmp, gl, Boxed(c, r, gl.next))
    case _ => Guarded(Boxed(c, e, n), x => Test(CUn(IsTrueC, x)))
  }

  /** The operands the guard compiler meets are free of the boxed unary defects. */
  predicate GuardFine(c: Ctx, e: Exp)
    decreases e
  {
    if BoolShape(c, e) then BoolFine(c, e)
    else match StripParens(e)
      case Not(e1) => GuardFine(c, e1)
      case Cmp(_, l, r) => BoxFine(c, l) && BoxFine(c, r)
      case _ => BoxFine(c, e)
  }

  predicate Sound(g: CondGen) { g.ok && g.res.Some? }

  /** The guard compiler returns, and so does every attempt inside it. */
  predicate GuardClean(c: Ctx, e: Exp)
    decreases e
  {
    if BoolShape(c, e) then BoolClean(c, e)
    else match StripParens(e)
      case Not(e1) => GuardClean(c, e1)
      case Cmp(_, l, r) => BoxClean(c, l) && BoxClean(c, r)
      case _ => BoxClean(c, e)
  }

  /** The guard compiler has no failed attempt on exactly these guards. */
  lemma {:induction false} GuardCleanIff(c: Ctx, e: Exp, n: nat)
    ensures Sound(Cond(c, e, n)) <==> GuardClean(c, e)
    decreases e
  {
    NativeBoolDecides(c, e, n);
    if BoolShape(c, e) {
      NativeBoolCleanIff(c, e, n);
    } else {
      assert Sound(Cond(c, e, n)) <==> Sound(DynamicCond(c, e, n));
      match StripParens(e)
      case Not(e1) => GuardCleanIff(c, e1, n);
      case Cmp(_, l, r) =>
        BoxedCleanIff(c, l, n);
        BoxedCleanIff(c, r, Boxed(c, l, n).next);
      case _ => BoxedCleanIff(c, e, n);
    }
  }

  function Truth(r: Res<Value>): Res<bool>
  {
    match r case Err(x, g) => Err(x, g) case Ok(v, g) => Ok(Truthy(v), g)
  }

  datatype GuardEnd = GuardEnd(r: Res<bool>, t: Tmps) | GuardStuck

  /** Run the statements of a guard, then its test. */
  function RunGuard(w: World, out: seq<Stmt>, g: Guard, env: Env, t: Tmps, log: Log): GuardEnd
  {
    match Exec(w, out, env, t, log)
    case Stuck => GuardStuck
    case Failed(x, h) => GuardEnd(Err(x, h), t)
    case Done(u, h) =>
      match EvalGuard(w, g, env, u)
      case None => GuardStuck
      case Some(Fault(x)) => GuardEnd(Err(x, h), u)
      case Some(Fine(b)) => GuardEnd(Ok(b, h), u)
  }

  predicate Decides(w: World, g: CondGen, env: Env, t: Tmps, log: Log, src: Res<Value>)
  {
    g.res.Some? &&
    var r := RunGuard(w, g.out, g.res.value, env, t, log);
    r.GuardEnd? && r.r == Truth(src)
  }

  lemma {:induction false} StripKeeps(w: World, c: Ctx, e: Exp, env: Env, log: Log)
    ensures var s := StripParens(e);
            Eval(w, s, env, log) == Eval(w, e, env, log) && (Regular(c, e) ==> Regular(c, s))
    ensures BoolShape(c, e) == BoolShape(c, StripParens(e))
  {
    if e.Paren? { StripKeeps(w, c, e.e, env, log); }
  }

  lemma TestDecides(w: World, g: Gen, env: Env, t: Tmps, log: Log, src: Res<Value>)
    requires Realizes(w, g, env, t, log, AsTruth(src))
    ensures Decides(w, Guarded(g, x => Test(x)), env, t, log, src)
  {
  }

  lemma BoxDecides(w: World, g: Gen, env: Env, t: Tmps, log: Log, src: Res<Value>)
    requires Realizes(w, g, env, t, log, AsBox(src))
    ensures Decides(w, Guarded(g, x => Test(CUn(IsTrueC, x))), env, t, log, src)
  {
  }

  lemma ComparedDecides(w: World, cmp: CmpOp, gl: Gen, gr: Gen, env: Env, t: Tmps, log: Log, ra: Res<Value>, rb: Res<Value>)
    requires gl.res.Some? && gr.res.Some?
    requires YieldsBoth(w, gl.out + gr.out, gl.res.value, gr.res.value, env, t, log, AsBox(ra), AsBox(rb))
    ensures Decides(w, ComparedFinish(cmp, gl, gr), env, t, log,
                    if ra.Err? then ra else if rb.Err? then rb else Lift(AsBool(CmpValue(cmp, ra.v, rb.v)), rb.log))
  {
  }

  lemma NegatedDecides(w: World, g: CondGen, env: Env, t: Tmps, log: Log, src: Res<Value>)
    requires Decides(w, g, env, t, log, src)
    ensures Decides(w, NegatedFinish(g), env, t, log, if src.Err? then src else Ok(Bool(!Truthy(src.v)), src.log))
  {
  }

  /** A compiled guard decides what Lua's condition decides, or fails as it fails. */
  lemma {:induction false} CondIsCorrect(w: World, c: Ctx, e: Exp, n: nat, env: Env, t: Tmps, log: Log)
    requires Setting(w, c, env) && Regular(c, e) && GuardFine(c, e)
    requires GuardClean(c, e)
    ensures Decides(w, Cond(c, e, n), env, t, log, Eval(w, e, env, log))
    decreases e, 1
  {
    NativeBoolDecides(c, e, n);
    if BoolShape(c, e) {
      var gb := NativeBool(c, e, n);
      if gb.res.Some? {
        NativeBoolIsCorrect(w, c, e, n, env, t, log);
        TestDecides(w, gb, env, t, log, Eval(w, e, env, log));
      }
    } else {
      DynamicCondIsCorrect(w, c, e, n, env, t, log);
      var g := DynamicCond(c, e, n);
      assert Miss(n).out + g.out == g.out;
    }
  }

  lemma {:induction false} DynamicCondIsCorrect(w: World, c: Ctx, e: Exp, n: nat, env: Env, t: Tmps, log: Log)
    requires Setting(w, c, env) && Regular(c, e) && GuardFine(c, e) && !BoolShape(c, e)
    requires GuardClean(c, e)
    ensures Decides(w, DynamicCond(c, e, n), env, t, log, Eval(w, e, env, log))
    decreases e, 0
  {
    StripKeeps(w, c, e, env, log);
    match StripParens(e)
    case Not(e1) =>
      CondIsCorrect(w, c, e1, n, env, t, log);
      NegatedDecides(w, Cond(c, e1, n), env, t, log, Eval(w, e1, env, log));
    case Cmp(cmp, l, r) => ComparedIsCorrect(w, c, cmp, l, r, n, env, t, log);
    case _ =>
      BoxedIsCorrect(w, c, e, n, env, t, log);
      BoxDecides(w, Boxed(c, e, n), env, t, log, Eval(w, e, env, log));
  }

  lemma ComparedIsCorrect(w: World, c: Ctx, cmp: CmpOp, l: Exp, r: Exp, n: nat, env: Env, t: Tmps, log: Log)
    requires Setting(w, c, env) && Regular(c, l) && Regular(c, r) && BoxFine(c, l) && BoxFine(c, r)
    requires BoxClean(c, l) && BoxClean(c, r)
    ensures Decides(w, ComparedFinish(cmp, Boxed(c, l, n), Boxed(c, r, Boxed(c, l, n).next)), env, t, log,
                    Eval(w, Cmp(cmp, l, r), env, log))
  {
    var gl := Boxed(c, l, n);
    var gr := Boxed(c, r, gl.next);
    BoxedCleanIff(c, l, n);
    BoxedCleanIff(c, r, gl.next);
    BoxedPair(w, c, Cmp(cmp, l, r), l, r, n, env, t, log);
    var ra := Eval(w, l, env, log);
    var rb := if ra.Ok? then Eval(w, r, env, ra.log) else ra;
    ComparedDecides(w, cmp, gl, gr, env, t, log, ra, rb);
  }
}
