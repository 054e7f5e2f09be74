/** Which expressions the generator compiles without a failed attempt on the way, read off the source expression. */
module CleanCode {
  import opened Options
  import opened Machine
  import opened LuaExp
  import opened CTarget
  import opened NumericGen
  import opened NumericCorrect

  /** The call returned an expression, and no debug assertion or swallowed miss is on record. */
  predicate Clean(g: Gen) { g.ok && g.res.Some? }

  predicate CleanArgs(g: GenArgs) { g.ok && g.res.Some? }

  // ----- the source expressions -----

  /** CompileNumericExp returns, and so does every attempt inside it: no comparison as a number, no unary operator or
      bit operation over a dynamic operand, no dynamic call. */
  predicate NumClean(c: Ctx, e: Exp)
    decreases e, 1
  {
    if ConstFold(e).Some? then true
    else match e
      case Var(_) => true
      case Paren(e1) => NumClean(c, e1)
      case Call(f, args) =>
        Infer(c, e) != TDynamic && NumCleanAll(c, args) && IsNum((c.funcs[f].ret)(MaskTypes(GetTypes(c, args))))
      case And(l, r) => NumClean(c, l) && NumClean(c, r)
      case Or(l, r) =>
        if l.And? then CondClean(c, l.l) && NumClean(c, l.r) && NumClean(c, r) && IsNum(Infer(c, e)) else NumClean(c, l)
      case Arith(op, l, r) =>
        NumClean(c, l) && NumClean(c, r) && (IsBitOp(op) ==> IsNum(GetType(c, l)) && IsNum(GetType(c, r)))
      case Neg(e1) => IsNum(GetType(c, e1)) && NumClean(c, e1)
      case Compl(e1) => IsNum(GetType(c, e1)) && NumClean(c, e1)
      case Len(e1) => BoxClean(c, e1)
      case _ => false
  }

  predicate NumCleanAll(c: Ctx, es: Exps)
    decreases es, 0
  {
    es.Exps? ==> NumClean(c, es.head) && NumCleanAll(c, es.tail)
  }

  /** The operands of a comparison of native shape. */
  predicate BoolClean(c: Ctx, e: Exp)
    decreases e, 1
  {
    match e
    case Paren(e1) => BoolClean(c, e1)
    case Not(e1) => BoolClean(c, e1)
    case Cmp(_, l, r) => NumClean(c, l) && NumClean(c, r)
    case _ => true
  }

  predicate CondClean(c: Ctx, e: Exp)
    decreases e, 3
  {
    if BoolShape(c, e) then BoolClean(c, e) else BoxClean(c, e)
  }

  /** CompileExp and every attempt inside it: where operands are numeric, their numeric code. */
  predicate BoxClean(c: Ctx, e: Exp)
    decreases e, 2
  {
    match e
    case Paren(e1) => BoxClean(c, e1)
    case And(l, r) => BoxClean(c, l) && BoxClean(c, r)
    case Or(l, r) => BoxClean(c, l) && BoxClean(c, r)
    case Arith(_, l, r) =>
      if IsNum(GetType(c, l)) && IsNum(GetType(c, r)) then NumClean(c, l) && NumClean(c, r) else BoxClean(c, l) && BoxClean(c, r)
    case Cmp(_, l, r) =>
      if IsNum(GetType(c, l)) && IsNum(GetType(c, r)) then NumClean(c, l) && NumClean(c, r) else BoxClean(c, l) && BoxClean(c, r)
    case Neg(e1) => if IsNum(GetType(c, e1)) then NumClean(c, e1) else BoxClean(c, e1)
    case Compl(e1) => if IsNum(GetType(c, e1)) then NumClean(c, e1) else BoxClean(c, e1)
    case Len(e1) => BoxClean(c, e1)
    case Not(e1) => BoxClean(c, e1)
    case Call(f, args) => if Specialised(c, f, args) then NumCleanAll(c, args) else BoxCleanAll(c, args)
    case _ => true
  }

  /** A file-level function with specialised variants, called with as many native numbers as it has parameters. */
  predicate Specialised(c: Ctx, f: string, args: Exps)
  {
    var ts := GetTypes(c, args);
    f in c.funcs && |ts| == c.funcs[f].arity && TDynamic !in ts
  }

  predicate BoxCleanAll(c: Ctx, es: Exps)
    decreases es, 0
  {
    es.Exps? ==> BoxClean(c, es.head) && BoxCleanAll(c, es.tail)
  }

  // ----- the generator -----

  lemma ArithFinishIff(op: ArithOp, lt: Ty, rt: Ty, ty: Ty, gl: Gen, gr: Gen)
    ensures var g := ArithFinish(op, lt, rt, ty, gl, gr);
            && (g.res.Some? <==> gl.res.Some? && gr.res.Some? && (IsBitOp(op) ==> IsNum(lt) && IsNum(rt)))
            && (Clean(g) <==> Clean(gl) && Clean(gr) && (IsBitOp(op) ==> IsNum(lt) && IsNum(rt)))
  {
  }

  lemma ShortCircuitIff(isAnd: bool, gl: Gen, gr: Gen)
    ensures Clean(ShortCircuitFinish(isAnd, gl, gr)) <==> Clean(gl) && Clean(gr)
  {
  }

  lemma TernaryFinishIff(ty: Ty, gc: Gen, k: nat, g1: Gen, g2: Gen)
    ensures Clean(TernaryFinish(ty, gc, k, g1, g2)) <==> Clean(gc) && Clean(g1) && Clean(g2) && IsNum(ty)
  {
  }

  lemma {:induction false} NativeBoolDecides(c: Ctx, e: Exp, n: nat)
    ensures var g := NativeBool(c, e, n);
            if BoolShape(c, e) then g.res.Some? else g == Miss(n)
  {
    match e
    case Paren(e1) => NativeBoolDecides(c, e1, n);
    case Not(e1) => NativeBoolDecides(c, e1, n);
    case _ =>
  }

  /** The numeric compiler returns without a failed attempt on exactly these expressions, whatever number its
      temporaries start from. */
  lemma {:induction false} NumericCleanIff(c: Ctx, e: Exp, n: nat)
    ensures Clean(Numeric(c, e, n)) <==> NumClean(c, e)
    decreases e, 1
  {
    if ConstFold(e).None? {
      match e
      case Paren(e1) => NumericCleanIff(c, e1, n);
      case Call(f, args) => NumericArgsCleanIff(c, args, n);
      case And(l, r) =>
        NumericCleanIff(c, l, n);
        NumericCleanIff(c, r, Numeric(c, l, n).next);
      case Or(l, r) => OrCleanIff(c, l, r, n);
      case Arith(op, l, r) =>
        var gl := Numeric(c, l, n);
        NumericCleanIff(c, l, n);
        NumericCleanIff(c, r, gl.next);
        ArithFinishIff(op, GetType(c, l), GetType(c, r), Infer(c, e), gl, Numeric(c, r, gl.next));
      case Neg(e1) => NumericCleanIff(c, e1, n);
      case Compl(e1) => NumericCleanIff(c, e1, n);
      case Len(e1) => BoxedCleanIff(c, e1, n);
      case _ =>
    }
  }

  lemma {:induction false} OrCleanIff(c: Ctx, l: Exp, r: Exp, n: nat)
    ensures Clean(Numeric(c, Or(l, r), n)) <==> NumClean(c, Or(l, r))
    decreases Or(l, r), 0
  {
    if l.And? {
      var gc := TernaryCond(c, l.l, n);
      var g1 := Numeric(c, l.r, gc.next + 1);
      TernaryCondCleanIff(c, l.l, n);
      NumericCleanIff(c, l.r, gc.next + 1);
      NumericCleanIff(c, r, g1.next);
      TernaryFinishIff(Infer(c, Or(l, r)), gc, gc.next, g1, Numeric(c, r, g1.next));
      assert Numeric(c, Or(l, r), n) == TernaryFinish(Infer(c, Or(l, r)), gc, gc.next, g1, Numeric(c, r, g1.next));
    } else {
      NumericCleanIff(c, l, n);
    }
  }

  lemma {:induction false} NumericArgsCleanIff(c: Ctx, es: Exps, n: nat)
    ensures CleanArgs(NumericArgs(c, es, n)) <==> NumCleanAll(c, es)
    decreases es, 0
  {
    if es.Exps? {
      NumericCleanIff(c, es.head, n);
      NumericArgsCleanIff(c, es.tail, Numeric(c, es.head, n).next);
    }
  }

  lemma {:induction false} TernaryCondCleanIff(c: Ctx, e: Exp, n: nat)
    ensures Clean(TernaryCond(c, e, n)) <==> CondClean(c, e)
    decreases e, 3
  {
    NativeBoolDecides(c, e, n);
    if BoolShape(c, e) { NativeBoolCleanIff(c, e, n); } else { BoxedCleanIff(c, e, n); }
  }

  /** A native condition is always taken; it has no failed attempt exactly when its operands have none. */
  lemma {:induction false} NativeBoolCleanIff(c: Ctx, e: Exp, n: nat)
    requires BoolShape(c, e)
    ensures Clean(NativeBool(c, e, n)) <==> BoolClean(c, e)
    decreases e, 1
  {
    match e
    case Paren(e1) => NativeBoolCleanIff(c, e1, n);
    case Not(e1) => NativeBoolCleanIff(c, e1, n);
    case Cmp(_, l, r) =>
      NumericCleanIff(c, l, n);
      NumericCleanIff(c, r, Numeric(c, l, n).next);
  }

  /** The boxed compiler, likewise. */
  lemma {:induction false} BoxedCleanIff(c: Ctx, e: Exp, n: nat)
    ensures Clean(Boxed(c, e, n)) <==> BoxClean(c, e)
    decreases e, 2
  {
    match e
    case Paren(e1) => BoxedCleanIff(c, e1, n);
    case And(l, r) => LogicCleanIff(c, e, l, r, n);
    case Or(l, r) => LogicCleanIff(c, e, l, r, n);
    case Arith(op, l, r) => BoxedArithCleanIff(c, op, l, r, n);
    case Cmp(cmp, l, r) => BoxedCmpCleanIff(c, cmp, l, r, n);
    case Neg(e1) => UnaryCleanIff(c, e1, n);
    case Compl(e1) => UnaryCleanIff(c, e1, n);
    case Len(e1) => BoxedCleanIff(c, e1, n);
    case Not(e1) => BoxedCleanIff(c, e1, n);
    case Call(f, args) => BoxedCallCleanIff(c, f, args, n);
    case _ =>
  }

  lemma {:induction false} LogicCleanIff(c: Ctx, e: Exp, l: Exp, r: Exp, n: nat)
    requires e == And(l, r) || e == Or(l, r)
    ensures Clean(Boxed(c, e, n)) <==> BoxClean(c, e)
    decreases e, 0
  {
    var gl := Boxed(c, l, n);
    var gr := Boxed(c, r, gl.next + 2);
    BoxedCleanIff(c, l, n);
    BoxedCleanIff(c, r, gl.next + 2);
    ShortCircuitIff(e.And?, gl, gr);
    assert Boxed(c, e, n) == ShortCircuitFinish(e.And?, gl, gr);
  }

  lemma {:induction false} BoxedArithCleanIff(c: Ctx, op: ArithOp, l: Exp, r: Exp, n: nat)
    ensures Clean(Boxed(c, Arith(op, l, r), n)) <==> BoxClean(c, Arith(op, l, r))
    decreases Arith(op, l, r), 0
  {
    var lt, rt := GetType(c, l), GetType(c, r);
    if IsNum(lt) && IsNum(rt) {
      var gl := Numeric(c, l, n);
      NumericCleanIff(c, l, n);
      NumericCleanIff(c, r, gl.next);
      ArithFinishIff(op, lt, rt, ArithType(op, lt, rt), gl, Numeric(c, r, gl.next));
    } else {
      BoxedCleanIff(c, l, n);
      BoxedCleanIff(c, r, Boxed(c, l, n).next);
    }
  }

  lemma {:induction false} BoxedCmpCleanIff(c: Ctx, cmp: CmpOp, l: Exp, r: Exp, n: nat)
    ensures Clean(Boxed(c, Cmp(cmp, l, r), n)) <==> BoxClean(c, Cmp(cmp, l, r))
    decreases Cmp(cmp, l, r), 0
  {
    if IsNum(GetType(c, l)) && IsNum(GetType(c, r)) {
      NumericCleanIff(c, l, n);
      NumericCleanIff(c, r, Numeric(c, l, n).next);
    } else {
      BoxedCleanIff(c, l, n);
      BoxedCleanIff(c, r, Boxed(c, l, n).next);
    }
  }

  lemma {:induction false} UnaryCleanIff(c: Ctx, e1: Exp, n: nat)
    ensures Clean(Boxed(c, Neg(e1), n)) <==> BoxClean(c, Neg(e1))
    ensures Clean(Boxed(c, Compl(e1), n)) <==> BoxClean(c, Compl(e1))
    decreases e1, 4
  {
    NumericCleanIff(c, e1, n);
    NumericCleanIff(c, e1, Numeric(c, e1, n).next);
    BoxedCleanIff(c, e1, n);
  }

  lemma {:induction false} BoxedCallCleanIff(c: Ctx, f: string, args: Exps, n: nat)
    ensures Clean(Boxed(c, Call(f, args), n)) <==> BoxClean(c, Call(f, args))
    decreases Call(f, args), 0
  {
    NumericArgsCleanIff(c, args, n);
    BoxedArgsCleanIff(c, args, n);
  }

  lemma {:induction false} BoxedArgsCleanIff(c: Ctx, es: Exps, n: nat)
    ensures CleanArgs(BoxedArgs(c, es, n)) <==> BoxCleanAll(c, es)
    decreases es, 0
  {
    if es.Exps? {
      BoxedCleanIff(c, es.head, n);
      BoxedArgsCleanIff(c, es.tail, Boxed(c, es.head, n).next);
    }
  }
}
