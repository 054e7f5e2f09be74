/** The expression half of the code generator: native numeric expressions, native conditions, boxed
    expressions. A generator call returns a C expression, appends statements, and advances the counter
    that numbers temporaries. */
module NumericGen {
  import opened Options
  import opened Machine
  import opened LuaExp
  import opened CTarget

  /** What one call leaves behind. `res` is None when it gave up with a specialisation miss (the statements
      already written stay); `ok` is false once a miss was swallowed or a debug assertion does not hold. */
  datatype Gen = Gen(out: seq<Stmt>, res: Option<CExp>, next: nat, ok: bool)

  function Plainly(e: CExp, n: nat): Gen { Gen([], Some(e), n, true) }

  function Miss(n: nat): Gen { Gen([], None, n, true) }

  /** The second call's statements after the first's; the expression is the second's. */
  function After(g: Gen, h: Gen): Gen { Gen(g.out + h.out, h.res, h.next, g.ok && h.ok) }

  /** One more statement, whose temporary is the result. */
  function Emit(g: Gen, s: Stmt): Gen { Gen(g.out + [s], Some(CTmp(g.next)), g.next + 1, g.ok) }

  function WithRes(g: Gen, e: CExp): Gen { g.(res := Some(e)) }

  // ----- arithmetic -----

  /** to_int_operand: an integer is cast, a float is checked by a statement. */
  function IntOperand(ty: Ty, g: Gen, e: CExp): Gen
  {
    if ty == TInt then WithRes(g, CUn(CastToInt, e))
    else if ty == TFloat then Emit(g, SToInt(g.next, e))
    else g.(res := None)
  }

  /** CompileRawNativeArithBinop once both operands are compiled. */
  function ArithFinish(op: ArithOp, lt: Ty, rt: Ty, ty: Ty, gl: Gen, gr: Gen): Gen
  {
    if gl.res.None? then gl
    else
      var g := After(gl, gr);
      if g.res.None? then g
      else
        var a, b := gl.res.value, gr.res.value;
        match op
        case Add => WithRes(g, CBin(if ty == TInt then IntMacro(op) else Plain(op), a, b))
        case Sub => WithRes(g, CBin(if ty == TInt then IntMacro(op) else Plain(op), a, b))
        case Mul => WithRes(g, CBin(if ty == TInt then IntMacro(op) else Plain(op), a, b))
        case Div => WithRes(g, CBin(OnDoubles(op), a, b))
        case Pow => WithRes(g, CBin(OnDoubles(op), a, b))
        case IDiv => if ty == TInt then Emit(g, SFloorDiv(g.next, a, b)) else WithRes(g, CBin(OnDoubles(op), a, b))
        case Mod => Emit(g, if ty == TInt then SModInt(g.next, a, b) else SModFloat(g.next, a, b))
        case _ => BitFinish(op, lt, rt, g, a, b)
  }

  function BitFinish(op: ArithOp, lt: Ty, rt: Ty, g: Gen, a: CExp, b: CExp): Gen
  {
    var gi := IntOperand(lt, g, a);
    if gi.res.None? then gi
    else
      var gj := IntOperand(rt, gi, b);
      if gj.res.None? then gj
      else
        var x, y := gi.res.value, gj.res.value;
        if op.Shl? then Emit(gj, SShift(gj.next, x, y, false))
        else if op.Shr? then Emit(gj, SShift(gj.next, x, y, true))
        else WithRes(gj, CBin(Bits(op), x, y))
  }

  /** CompileRawNativeUnop once the operand is compiled. */
  function NegFinish(ty: Ty, g: Gen): Gen
  {
    if g.res.None? then g else WithRes(g, CUn(if ty == TInt then NegInt else NegDouble, g.res.value))
  }

  function ComplFinish(ty: Ty, g: Gen): Gen
  {
    if g.res.None? then g
    else if ty == TFloat then
      var h := Emit(g, SToInt(g.next, g.res.value));
      WithRes(h, CUn(Flip, h.res.value))
    else WithRes(g, CUn(Flip, CUn(CastToInt, g.res.value)))
  }

  // ----- calls -----

  datatype GenArgs = GenArgs(out: seq<Stmt>, res: Option<seq<CExp>>, next: nat, ok: bool)

  /** TryInferMathCallBitmask: the types up to the first dynamic argument, integers from there on. */
  function MaskTypes(ts: seq<Ty>): (sig: seq<Ty>)
    ensures |sig| == |ts| && TDynamic !in sig
    ensures TDynamic !in ts ==> sig == ts
  {
    if ts == [] then []
    else if ts[0] == TDynamic then seq(|ts|, i => TInt)
    else [ts[0]] + MaskTypes(ts[1..])
  }

  /** TryCompileNativeSpecCallExpr once the arguments are compiled. */
  function NativeCall(c: Ctx, f: string, ts: seq<Ty>, g: GenArgs): Gen
    requires f in c.funcs && g.res.Some?
  {
    var sig := MaskTypes(ts);
    var ret := (c.funcs[f].ret)(sig);
    Gen(g.out + [SCallSpec(g.next, f, sig, g.res.value, ret)], Some(CTmp(g.next)), g.next + 1, g.ok && IsNum(ret))
  }

  // ----- conditionals -----

  /** `(cond and v1) or v2` compiled to an `if` that assigns one temporary. */
  function TernaryFinish(ty: Ty, gc: Gen, k: nat, g1: Gen, g2: Gen): Gen
  {
    if gc.res.None? then gc
    else if g1.res.None? then Gen(gc.out, None, g1.next, gc.ok && g1.ok)
    else if g2.res.None? then Gen(gc.out, None, g2.next, gc.ok && g1.ok && g2.ok)
    else
      Gen(gc.out + [SIf(gc.res.value, g1.out + [SSet(k, CUn(Declared(ty), g1.res.value))],
                        g2.out + [SSet(k, CUn(Declared(ty), g2.res.value))])],
          Some(CTmp(k)), g2.next, gc.ok && g1.ok && g2.ok && IsNum(ty))
  }

  /** Boxed `and` / `or`: the left value decides at run time whether the right side runs. */
  function ShortCircuitFinish(isAnd: bool, gl: Gen, gr: Gen): Gen
  {
    if gl.res.None? then gl
    else if gr.res.None? then Gen(gl.out, None, gr.next, gl.ok && gr.ok)
    else
      var k := gl.next;
      var test := CUn(IsTrueC, CTmp(k));
      Gen(gl.out + [SSet(k, gl.res.value),
                    SIf(if isAnd then CUn(NotC, test) else test,
                        [SSet(k + 1, CTmp(k))],
                        gr.out + [SSet(k + 1, gr.res.value)])],
          Some(CTmp(k + 1)), gr.next, gl.ok && gr.ok)
  }

  function BoxFinish(ty: Ty, g: Gen): Gen
  {
    if g.res.None? then g else Emit(g, SSet(g.next, CUn(Box(ty), g.res.value)))
  }

  /** A statement over two boxed operands, after both. */
  function BoxedTwo(g: Gen, h: Gen, o: Boxed2): Gen
  {
    if g.res.None? then g
    else
      var j := After(g, h);
      if j.res.None? then j else Emit(j, SBoxed2(j.next, o, g.res.value, h.res.value))
  }

  function BoxedOne(g: Gen, o: Boxed1): Gen
  {
    if g.res.None? then g else Emit(g, SBoxed1(g.next, o, g.res.value))
  }

  /** A native attempt that failed leaves its statements and is not `ok`. */
  function Fallback(attempt: Gen, g: Gen): Gen { After(attempt.(ok := false), g) }

  function CompareFinish(cmp: CmpOp, lt: Ty, rt: Ty, gl: Gen, gr: Gen): Gen
  {
    var g := After(gl, gr);
    if gl.res.Some? && gr.res.Some? then WithRes(g, CBin(Compare(cmp, lt, rt), gl.res.value, gr.res.value))
    else g.(res := None, ok := false)
  }

  /** What an attempt contributes to the text around it; only an assertion that release builds compile away looks
      whether it failed. */
  function Text(g: Gen): CExp { if g.res.Some? then g.res.value else CMissing }

  /** The comparison of a native condition, printed whether or not its operands compiled. */
  function CompareText(cmp: CmpOp, lt: Ty, rt: Ty, gl: Gen, gr: Gen): Gen
  {
    var g := CompareFinish(cmp, lt, rt, gl, gr);
    if g.res.Some? then g else WithRes(g, CBin(Compare(cmp, lt, rt), Text(gl), Text(gr)))
  }

  // ----- purity -----

  /** IsPureNativeNumericExp. */
  predicate IsPure(c: Ctx, e: Exp)
  {
    if ConstFold(e).Some? then true
    else match e
      case Lit(_) => true
      case Var(_) => true
      case Paren(e1) => IsPure(c, e1)
      case Arith(op, l, r) =>
        (match op
         case Add => IsPure(c, l) && IsPure(c, r)
         case Sub => IsPure(c, l) && IsPure(c, r)
         case Mul => IsPure(c, l) && IsPure(c, r)
         case Div => IsPure(c, l) && IsPure(c, r)
         case Pow => IsPure(c, l) && IsPure(c, r)
         case IDiv => Infer(c, e) != TInt && IsPure(c, l) && IsPure(c, r)
         case Mod => false
         case Shl => false
         case Shr => false
         case _ => GetType(c, l) == TInt && GetType(c, r) == TInt && IsPure(c, l) && IsPure(c, r))
      case Neg(e1) => IsPure(c, e1)
      case Compl(e1) => GetType(c, e1) == TInt && IsPure(c, e1)
      case _ => false
  }

  // ----- the three compilers -----

  /** CompileNumericExp. */
  function Numeric(c: Ctx, e: Exp, n: nat): Gen
    decreases e, 1
  {
    match ConstFold(e)
    case Some(num) => Plainly(CNum(num), n)
    case None =>
      match e
      case Var(x) => Plainly(if Native(c, x) then CLocal(x) else CField(x, Infer(c, e) == TFloat), n)
      case Paren(e1) => Numeric(c, e1, n)
      case Call(f, args) =>
        if Infer(c, e) == TDynamic then Miss(n) else NativeCall(c, f, GetTypes(c, args), NumericArgs(c, args, n))
      case And(l, r) =>
        var gl := Numeric(c, l, n);
        if gl.res.None? then gl else After(gl, Numeric(c, r, gl.next))
      case Or(l, r) =>
        if l.And? then
          var gc := TernaryCond(c, l.l, n);
          var g1 := Numeric(c, l.r, gc.next + 1);
          TernaryFinish(Infer(c, e), gc, gc.next, g1, Numeric(c, r, g1.next))
        else Numeric(c, l, n)
      case Arith(op, l, r) =>
        var gl := Numeric(c, l, n);
        ArithFinish(op, GetType(c, l), GetType(c, r), Infer(c, e), gl, Numeric(c, r, gl.next))
      case Cmp(_, l, r) =>
        var gl := Numeric(c, l, n);
        if gl.res.None? then gl else After(gl, Numeric(c, r, gl.next)).(res := None)
      case Neg(e1) => if IsNum(GetType(c, e1)) then NegFinish(GetType(c, e1), Numeric(c, e1, n)) else Miss(n)
      case Compl(e1) => if IsNum(GetType(c, e1)) then ComplFinish(GetType(c, e1), Numeric(c, e1, n)) else Miss(n)
      case Len(e1) => BoxedOne(Boxed(c, e1, n), LenInt)
      case _ => Miss(n)
  }

  /** One attempt for each argument. */
  function NumericArgs(c: Ctx, es: Exps, n: nat): (r: GenArgs)
    ensures r.res.Some?
    decreases es, 0
  {
    match es
    case NoExps => GenArgs([], Some([]), n, true)
    case Exps(e, rest) =>
      var g := Numeric(c, e, n);
      var h := NumericArgs(c, rest, g.next);
      GenArgs(g.out + h.out, Some([Text(g)] + h.res.value), h.next, g.ok && g.res.Some? && h.ok)
  }

  function TernaryCond(c: Ctx, e: Exp, n: nat): Gen
    decreases e, 3
  {
    var gb := NativeBool(c, e, n);
    if gb.res.Some? then gb
    else
      var g := After(gb, Boxed(c, e, gb.next));
      if g.res.None? then g else WithRes(g, CUn(IsTrueC, g.res.value))
  }

  /** TryCompileNativeBoolExpr; a None result means the caller must take another path. */
  function NativeBool(c: Ctx, e: Exp, n: nat): Gen
    decreases e, 1
  {
    match e
    case Paren(e1) => NativeBool(c, e1, n)
    case Not(e1) =>
      var g := NativeBool(c, e1, n);
      if g.res.None? then g else WithRes(g, CUn(NotC, g.res.value))
    case Cmp(cmp, l, r) =>
      if IsNum(GetType(c, l)) && IsNum(GetType(c, r)) then
        var gl := Numeric(c, l, n);
        CompareText(cmp, GetType(c, l), GetType(c, r), gl, Numeric(c, r, gl.next))
      else Miss(n)
    case _ => Miss(n)
  }

  /** CompileExp. */
  function Boxed(c: Ctx, e: Exp, n: nat): Gen
    decreases e, 2
  {
    match e
    case NilExp => Plainly(CConst(Nil), n)
    case TrueExp => Plainly(CConst(Bool(true)), n)
    case FalseExp => Plainly(CConst(Bool(false)), n)
    case Lit(num) => Plainly(CConst(Number(num)), n)
    case Var(x) =>
      Plainly(if Native(c, x) then CUn(Box(c.vars[x].ty), CLocal(x))
              else if x in c.vars then CCell(x) else CConst(Nil), n)
    case Paren(e1) => Boxed(c, e1, n)
    case And(l, r) =>
      var gl := Boxed(c, l, n);
      ShortCircuitFinish(true, gl, Boxed(c, r, gl.next + 2))
    case Or(l, r) =>
      var gl := Boxed(c, l, n);
      ShortCircuitFinish(false, gl, Boxed(c, r, gl.next + 2))
    case Arith(op, l, r) =>
      var lt, rt := GetType(c, l), GetType(c, r);
      if IsNum(lt) && IsNum(rt) then
        var gl := Numeric(c, l, n);
        BoxFinish(ArithType(op, lt, rt), ArithFinish(op, lt, rt, ArithType(op, lt, rt), gl, Numeric(c, r, gl.next)))
      else
        var gl := Boxed(c, l, n);
        BoxedTwo(gl, Boxed(c, r, gl.next), OpArith(op))
    case Cmp(cmp, l, r) =>
      var lt, rt := GetType(c, l), GetType(c, r);
      if IsNum(lt) && IsNum(rt) then
        var gl := Numeric(c, l, n);
        var g := CompareFinish(cmp, lt, rt, gl, Numeric(c, r, gl.next));
        if g.res.Some? then Emit(g, SSetBool(g.next, g.res.value)) else Fallback(g, BoxedCompare(c, cmp, l, r, g.next))
      else BoxedCompare(c, cmp, l, r, n)
    case Neg(e1) =>
      var ty := GetType(c, e1);
      if IsNum(ty) then
        var g := Numeric(c, e1, n);
        if g.res.Some? then After(g, BoxFinish(ty, NegFinish(ty, Numeric(c, e1, g.next))))
        else Fallback(g, BoxedOne(Boxed(c, e1, g.next), OpNeg))
      else BoxedOne(Boxed(c, e1, n), OpNeg)
    case Compl(e1) =>
      if IsNum(GetType(c, e1)) then
        var g := Numeric(c, e1, n);
        if g.res.Some? then After(g, BoxFinish(TInt, ComplFinish(TInt, Numeric(c, e1, g.next))))
        else Fallback(g, BoxedOne(Boxed(c, e1, g.next), OpCompl))
      else BoxedOne(Boxed(c, e1, n), OpCompl)
    case Len(e1) => BoxedOne(Boxed(c, e1, n), OpLen)
    case Not(e1) => BoxedOne(Boxed(c, e1, n), OpNot)
    case Call(f, args) =>
      var ts := GetTypes(c, args);
      if f in c.funcs && |ts| == c.funcs[f].arity && TDynamic !in ts then
        var ret := (c.funcs[f].ret)(ts);
        var g := NativeCall(c, f, ts, NumericArgs(c, args, n));
        if IsNum(ret) then BoxFinish(ret, g) else g.(ok := NumericArgs(c, args, n).ok)
      else
        var ga := BoxedArgs(c, args, n);
        match ga.res
        case None => Gen(ga.out, None, ga.next, ga.ok)
        case Some(es) => Gen(ga.out + [SCall(ga.next, f, es)], Some(CTmp(ga.next)), ga.next + 1, ga.ok)
  }

  function BoxedCompare(c: Ctx, cmp: CmpOp, l: Exp, r: Exp, n: nat): Gen
    decreases Cmp(cmp, l, r), 0
  {
    var gl := Boxed(c, l, n);
    BoxedTwo(gl, Boxed(c, r, gl.next), OpCompare(cmp))
  }

  function BoxedArgs(c: Ctx, es: Exps, n: nat): GenArgs
    decreases es, 0
  {
    match es
    case NoExps => GenArgs([], Some([]), n, true)
    case Exps(e, rest) =>
      var g := Boxed(c, e, n);
      var h := BoxedArgs(c, rest, g.next);
      GenArgs(g.out + h.out, if g.res.Some? && h.res.Some? then Some([g.res.value] + h.res.value) else None,
              h.next, g.ok && h.ok)
  }
}
