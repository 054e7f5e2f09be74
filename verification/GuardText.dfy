/** Which expressions the generator can compile at all, and which native conditions reach the C compiler with an
    operand missing. */
module GuardText {
  import opened Options
  import opened Machine
  import opened LuaExp
  import opened CTarget
  import opened NumericGen
  import opened NumericCorrect
  import opened NumericTheorem
  import opened CleanCode
  import opened Conditions
  import opened Guards

  /** CompileNumericExp returns, instead of raising a specialisation miss. */
  predicate NumCompiles(c: Ctx, e: Exp)
    decreases e, 1
  {
    if ConstFold(e).Some? then true
    else match e
      case Var(_) => true
      case Paren(e1) => NumCompiles(c, e1)
      case Call(_, _) => Infer(c, e) != TDynamic
      case And(l, r) => NumCompiles(c, l) && NumCompiles(c, r)
      case Or(l, r) =>
        if l.And? then (BoolShape(c, l.l) || BoxCompiles(c, l.l)) && NumCompiles(c, l.r) && NumCompiles(c, r)
        else NumCompiles(c, l)
      case Arith(op, l, r) =>
        NumCompiles(c, l) && NumCompiles(c, r) && (IsBitOp(op) ==> IsNum(GetType(c, l)) && IsNum(GetType(c, r)))
      case Neg(e1) => IsNum(GetType(c, e1)) && NumCompiles(c, e1)
      case Compl(e1) => IsNum(GetType(c, e1)) && NumCompiles(c, e1)
      case Len(e1) => BoxCompiles(c, e1)
      case _ => false
  }

  /** CompileExp returns. */
  predicate BoxCompiles(c: Ctx, e: Exp)
    decreases e, 2
  {
    match e
    case Paren(e1) => BoxCompiles(c, e1)
    case And(l, r) => BoxCompiles(c, l) && BoxCompiles(c, r)
    case Or(l, r) => BoxCompiles(c, l) && BoxCompiles(c, r)
    case Arith(op, l, r) =>
      if IsNum(GetType(c, l)) && IsNum(GetType(c, r)) then NumCompiles(c, l) && NumCompiles(c, r)
      else BoxCompiles(c, l) && BoxCompiles(c, r)
    case Cmp(_, l, r) =>
      || (IsNum(GetType(c, l)) && IsNum(GetType(c, r)) && NumCompiles(c, l) && NumCompiles(c, r))
      || (BoxCompiles(c, l) && BoxCompiles(c, r))
    case Neg(e1) => (IsNum(GetType(c, e1)) && NumCompiles(c, e1)) || BoxCompiles(c, e1)
    case Compl(e1) => (IsNum(GetType(c, e1)) && NumCompiles(c, e1)) || BoxCompiles(c, e1)
    case Len(e1) => BoxCompiles(c, e1)
    case Not(e1) => BoxCompiles(c, e1)
    case Call(f, args) =>
      var ts := GetTypes(c, args);
      (f in c.funcs && |ts| == c.funcs[f].arity && TDynamic !in ts) || AllBoxCompile(c, args)
    case _ => true
  }

  predicate AllBoxCompile(c: Ctx, es: Exps)
    decreases es, 0
  {
    es.Exps? ==> BoxCompiles(c, es.head) && AllBoxCompile(c, es.tail)
  }

  lemma {:induction false} NumCompilesIff(c: Ctx, e: Exp, n: nat)
    ensures Numeric(c, e, n).res.Some? <==> NumCompiles(c, e)
    decreases e, 1
  {
    if ConstFold(e).None? {
      match e
      case Paren(e1) => NumCompilesIff(c, e1, n);
      case And(l, r) =>
        NumCompilesIff(c, l, n);
        NumCompilesIff(c, r, Numeric(c, l, n).next);
      case Or(l, r) => OrCompilesIff(c, l, r, n);
      case Arith(op, l, r) =>
        var gl := Numeric(c, l, n);
        NumCompilesIff(c, l, n);
        NumCompilesIff(c, r, gl.next);
        ArithFinishIff(op, GetType(c, l), GetType(c, r), Infer(c, e), gl, Numeric(c, r, gl.next));
      case Neg(e1) => NumCompilesIff(c, e1, n);
      case Compl(e1) => NumCompilesIff(c, e1, n);
      case Len(e1) => BoxCompilesIff(c, e1, n);
      case _ =>
    }
  }

  lemma {:induction false} ConditionCompilesIff(c: Ctx, e: Exp, n: nat)
    ensures TernaryCond(c, e, n).res.Some? <==> BoolShape(c, e) || BoxCompiles(c, e)
    decreases e, 3
  {
    NativeBoolDecides(c, e, n);
    BoxCompilesIff(c, e, NativeBool(c, e, n).next);
  }

  lemma TernaryReturnsIff(ty: Ty, gc: Gen, k: nat, g1: Gen, g2: Gen)
    ensures TernaryFinish(ty, gc, k, g1, g2).res.Some? <==> gc.res.Some? && g1.res.Some? && g2.res.Some?
  {
  }

  lemma {:induction false} OrCompilesIff(c: Ctx, l: Exp, r: Exp, n: nat)
    ensures Numeric(c, Or(l, r), n).res.Some? <==> NumCompiles(c, Or(l, r))
    decreases Or(l, r), 0
  {
    if l.And? {
      var gc := TernaryCond(c, l.l, n);
      var g1 := Numeric(c, l.r, gc.next + 1);
      ConditionCompilesIff(c, l.l, n);
      NumCompilesIff(c, l.r, gc.next + 1);
      NumCompilesIff(c, r, g1.next);
      TernaryReturnsIff(Infer(c, Or(l, r)), gc, gc.next, g1, Numeric(c, r, g1.next));
      assert Numeric(c, Or(l, r), n) == TernaryFinish(Infer(c, Or(l, r)), gc, gc.next, g1, Numeric(c, r, g1.next));
    } else {
      NumCompilesIff(c, l, n);
    }
  }

  lemma {:induction false} BoxCompilesIff(c: Ctx, e: Exp, n: nat)
    ensures Boxed(c, e, n).res.Some? <==> BoxCompiles(c, e)
    decreases e, 2
  {
    match e
    case Paren(e1) => BoxCompilesIff(c, e1, n);
    case And(l, r) => BoxLogicCompilesIff(c, e, l, r, n);
    case Or(l, r) => BoxLogicCompilesIff(c, e, l, r, n);
    case Arith(op, l, r) => BoxArithCompilesIff(c, op, l, r, n);
    case Cmp(cmp, l, r) => BoxCmpCompilesIff(c, cmp, l, r, n);
    case Neg(e1) => UnaryCompilesIff(c, e1, n);
    case Compl(e1) => UnaryCompilesIff(c, e1, n);
    case Len(e1) => BoxCompilesIff(c, e1, n);
    case Not(e1) => BoxCompilesIff(c, e1, n);
    case Call(_, args) => ArgsCompileIff(c, args, n);
    case _ =>
  }

  lemma {:induction false} BoxLogicCompilesIff(c: Ctx, e: Exp, l: Exp, r: Exp, n: nat)
    requires e == And(l, r) || e == Or(l, r)
    ensures Boxed(c, e, n).res.Some? <==> BoxCompiles(c, e)
    decreases e, 0
  {
    BoxCompilesIff(c, l, n);
    BoxCompilesIff(c, r, Boxed(c, l, n).next + 2);
  }

  lemma {:induction false} BoxArithCompilesIff(c: Ctx, op: ArithOp, l: Exp, r: Exp, n: nat)
    ensures Boxed(c, Arith(op, l, r), n).res.Some? <==> BoxCompiles(c, Arith(op, l, r))
    decreases Arith(op, l, r), 0
  {
    var lt, rt := GetType(c, l), GetType(c, r);
    if IsNum(lt) && IsNum(rt) {
      var gl := Numeric(c, l, n);
      NumCompilesIff(c, l, n);
      NumCompilesIff(c, r, gl.next);
      ArithFinishIff(op, lt, rt, ArithType(op, lt, rt), gl, Numeric(c, r, gl.next));
    } else {
      BoxCompilesIff(c, l, n);
      BoxCompilesIff(c, r, Boxed(c, l, n).next);
    }
  }

  lemma {:induction false} BoxCmpCompilesIff(c: Ctx, cmp: CmpOp, l: Exp, r: Exp, n: nat)
    ensures Boxed(c, Cmp(cmp, l, r), n).res.Some? <==> BoxCompiles(c, Cmp(cmp, l, r))
    decreases Cmp(cmp, l, r), 0
  {
    var lt, rt := GetType(c, l), GetType(c, r);
    if IsNum(lt) && IsNum(rt) {
      var gl := Numeric(c, l, n);
      var gr := Numeric(c, r, gl.next);
      NumCompilesIff(c, l, n);
      NumCompilesIff(c, r, gl.next);
      BoxCompilesIff(c, l, gr.next);
      BoxCompilesIff(c, r, Boxed(c, l, gr.next).next);
    } else {
      BoxCompilesIff(c, l, n);
      BoxCompilesIff(c, r, Boxed(c, l, n).next);
    }
  }

  lemma {:induction false} UnaryCompilesIff(c: Ctx, e1: Exp, n: nat)
    ensures Numeric(c, e1, n).res.Some? <==> NumCompiles(c, e1)
    ensures Numeric(c, e1, Numeric(c, e1, n).next).res.Some? <==> NumCompiles(c, e1)
    ensures Boxed(c, e1, n).res.Some? <==> BoxCompiles(c, e1)
    ensures Boxed(c, e1, Numeric(c, e1, n).next).res.Some? <==> BoxCompiles(c, e1)
    decreases e1, 3
  {
    NumCompilesIff(c, e1, n);
    NumCompilesIff(c, e1, Numeric(c, e1, n).next);
    BoxCompilesIff(c, e1, n);
    BoxCompilesIff(c, e1, Numeric(c, e1, n).next);
  }

  lemma {:induction false} ArgsCompileIff(c: Ctx, es: Exps, n: nat)
    ensures BoxedArgs(c, es, n).res.Some? <==> AllBoxCompile(c, es)
    decreases es, 0
  {
    if es.Exps? {
      BoxCompilesIff(c, es.head, n);
      ArgsCompileIff(c, es.tail, Boxed(c, es.head, n).next);
    }
  }

  // ----- which code is a bare expression -----

  /** Operators over literals and variables. */
  predicate Arithmetic(e: Exp)
  {
    if ConstFold(e).Some? then true
    else match e
      case Var(_) => true
      case Paren(e1) => Arithmetic(e1)
      case Arith(_, l, r) => Arithmetic(l) && Arithmetic(r)
      case Neg(e1) => Arithmetic(e1)
      case Compl(e1) => Arithmetic(e1)
      case _ => false
  }

  lemma {:induction false} PureIsArithmetic(c: Ctx, e: Exp)
    requires IsPure(c, e)
    ensures Arithmetic(e)
  {
    if ConstFold(e).None? {
      match e
      case Paren(e1) => PureIsArithmetic(c, e1);
      case Arith(_, l, r) => PureIsArithmetic(c, l); PureIsArithmetic(c, r);
      case Neg(e1) => PureIsArithmetic(c, e1);
      case Compl(e1) => PureIsArithmetic(c, e1);
      case Var(_) =>
    }
  }

  lemma ArithWritesIff(op: ArithOp, lt: Ty, rt: Ty, ty: Ty, gl: Gen, gr: Gen)
    requires Clean(ArithFinish(op, lt, rt, ty, gl, gr))
    ensures ArithFinish(op, lt, rt, ty, gl, gr).out == [] <==>
            && gl.out == [] && gr.out == [] && !op.Mod? && !op.Shl? && !op.Shr?
            && (op.IDiv? ==> ty != TInt) && (IsBitOp(op) ==> lt == TInt && rt == TInt)
  {
  }

  /** Of the expressions that compile, the purity test accepts exactly those built from literals and variables whose
      code is one C expression without a statement: it neither lets a check or a division through nor holds back
      what could stand in a loop header. */
  lemma {:induction false} PureIff(c: Ctx, e: Exp, n: nat)
    requires NumClean(c, e)
    ensures IsPure(c, e) <==> Arithmetic(e) && Numeric(c, e, n).out == []
  {
    if ConstFold(e).None? {
      match e
      case Var(_) =>
      case Paren(e1) => PureIff(c, e1, n);
      case Arith(op, l, r) =>
        var gl := Numeric(c, l, n);
        var gr := Numeric(c, r, gl.next);
        PureIff(c, l, n);
        PureIff(c, r, gl.next);
        NumericCleanIff(c, e, n);
        ArithWritesIff(op, GetType(c, l), GetType(c, r), Infer(c, e), gl, gr);
      case Neg(e1) => PureIff(c, e1, n);
      case Compl(e1) =>
        NumericCleanIff(c, e1, n);
        PureIff(c, e1, n);
      case _ => if IsPure(c, e) { PureIsArithmetic(c, e); }
    }
  }

  /** Both operands of the comparison under `not` and parentheses are pure. */
  predicate OperandsPure(c: Ctx, e: Exp)
  {
    match e
    case Paren(e1) => OperandsPure(c, e1)
    case Not(e1) => OperandsPure(c, e1)
    case Cmp(_, l, r) => IsPure(c, l) && IsPure(c, r)
    case _ => true
  }

  lemma {:induction false} HeaderIff(c: Ctx, e: Exp, n: nat)
    ensures PureBool(c, e, n).res.Some? <==> BoolShape(c, e) && OperandsPure(c, e)
  {
    match e
    case Paren(e1) => HeaderIff(c, e1, n);
    case Not(e1) => HeaderIff(c, e1, n);
    case _ =>
  }

  /** A `while` has its guard in the loop header exactly when it is a native comparison of pure operands. */
  lemma WhileShapeIff(c: Ctx, e: Exp, n: nat)
    requires GuardClean(c, e)
    ensures var code := CompileWhile(c, e, n);
            code.loop.Some? && (code.loop.value.inHeader <==> BoolShape(c, e) && OperandsPure(c, e))
  {
    WhileCleanIff(c, e, n);
    HeaderIff(c, e, NativeBool(c, e, n).next);
  }

  // ----- conditions -----

  /** No operand is missing from the text. */
  predicate WellFormed(e: CExp)
  {
    match e
    case CBin(_, l, r) => WellFormed(l) && WellFormed(r)
    case CUn(_, e1) => WellFormed(e1)
    case CMissing => false
    case _ => true
  }

  predicate WholeText(g: Gen) { g.res.Some? ==> WellFormed(g.res.value) }

  lemma ArithIsWellFormed(op: ArithOp, lt: Ty, rt: Ty, ty: Ty, gl: Gen, gr: Gen)
    requires WholeText(gl) && WholeText(gr)
    ensures WholeText(ArithFinish(op, lt, rt, ty, gl, gr))
  {
  }

  lemma {:induction false} NumericIsWellFormed(c: Ctx, e: Exp, n: nat)
    ensures WholeText(Numeric(c, e, n))
  {
    if ConstFold(e).None? {
      match e
      case Paren(e1) => NumericIsWellFormed(c, e1, n);
      case And(l, r) => NumericIsWellFormed(c, r, Numeric(c, l, n).next);
      case Or(l, _) => if !l.And? { NumericIsWellFormed(c, l, n); }
      case Arith(op, l, r) =>
        var gl := Numeric(c, l, n);
        NumericIsWellFormed(c, l, n);
        NumericIsWellFormed(c, r, gl.next);
        ArithIsWellFormed(op, GetType(c, l), GetType(c, r), Infer(c, e), gl, Numeric(c, r, gl.next));
      case Neg(e1) => NumericIsWellFormed(c, e1, n);
      case Compl(e1) => NumericIsWellFormed(c, e1, n);
      case _ =>
    }
  }

  /** Both operands of the comparison under `not` and parentheses compile. */
  predicate OperandsCompile(c: Ctx, e: Exp)
  {
    match e
    case Paren(e1) => OperandsCompile(c, e1)
    case Not(e1) => OperandsCompile(c, e1)
    case Cmp(_, l, r) => NumCompiles(c, l) && NumCompiles(c, r)
    case _ => true
  }

  /** A guard of native shape is always taken as a native condition, and its C text is whole exactly when its operands
      compile: there is no way back to the dynamic comparison. */
  lemma {:induction false} GuardIsWholeIff(c: Ctx, e: Exp, n: nat)
    requires BoolShape(c, e)
    ensures var g := NativeBool(c, e, n); g.res.Some? && (WellFormed(g.res.value) <==> OperandsCompile(c, e))
  {
    match e
    case Paren(e1) => GuardIsWholeIff(c, e1, n);
    case Not(e1) => GuardIsWholeIff(c, e1, n);
    case Cmp(_, l, r) =>
      var gl := Numeric(c, l, n);
      NumCompilesIff(c, l, n);
      NumCompilesIff(c, r, gl.next);
      NumericIsWellFormed(c, l, n);
      NumericIsWellFormed(c, r, gl.next);
  }

  /** The operands of the comparison are pure, with every unary minus over a native operand. */
  predicate NegationsTypedIn(c: Ctx, e: Exp)
  {
    match e
    case Paren(e1) => NegationsTypedIn(c, e1)
    case Not(e1) => NegationsTypedIn(c, e1)
    case Cmp(_, l, r) => NegationsTyped(c, l) && NegationsTyped(c, r)
    case _ => true
  }

  /** A `while` guard that goes into the loop header is whole exactly when no unary minus in it stands over a
      captured or otherwise dynamically read operand. */
  lemma {:induction false} HeaderIsWholeIff(c: Ctx, e: Exp, n: nat)
    requires PureBool(c, e, n).res.Some?
    ensures WellFormed(PureBool(c, e, n).res.value) <==> NegationsTypedIn(c, e)
  {
    match e
    case Paren(e1) => HeaderIsWholeIff(c, e1, n);
    case Not(e1) => HeaderIsWholeIff(c, e1, n);
    case Cmp(_, l, r) =>
      var gl := Numeric(c, l, n);
      PureCompilesIff(c, l, n);
      PureCompilesIff(c, r, gl.next);
      NumericIsWellFormed(c, l, n);
      NumericIsWellFormed(c, r, gl.next);
  }

  /** `while -x < 5` for a captured integer `x`: the loop header is `() < (5)`. In an expression, `-x < 5` falls back
      to the dynamic comparison. */
  lemma CapturedNegationInHeader(n: nat)
    ensures var c := Ctx(map["x" := VarInfo(TInt, true)], map[]);
            var e := Cmp(Less, Neg(Var("x")), Lit(I(5)));
            && PureBool(c, e, n).res == Some(CBin(Compare(Less, TInt, TInt), CMissing, CNum(I(5))))
            && Boxed(c, e, n).res.Some? && WellFormed(Boxed(c, e, n).res.value)
  {
    var c := Ctx(map["x" := VarInfo(TInt, true)], map[]);
    var e := Cmp(Less, Neg(Var("x")), Lit(I(5)));
    CapturedNegationMisses(n);
    assert Infer(c, Neg(Var("x"))) == TInt;
    assert BoxCompiles(c, Neg(Var("x"))) && BoxCompiles(c, e);
    BoxCompilesIff(c, e, n);
  }
}
