/** One lemma per combinator of the generator: what the combined statements yield, from what the parts yield. */
module NumericSteps {
  import opened Options
  import opened Machine
  import opened LuaExp
  import opened CTarget
  import opened NumericGen
  import opened NumericFresh
  import opened NumericCorrect

  /** The value of an arithmetic node from the values of its operands. */
  function ArithRes(fpu: Fpu, op: ArithOp, ra: Res<CVal>, rb: Res<CVal>): Res<CVal>
  {
    match ra
    case Err(x, g) => Err(x, g)
    case Ok(a, _) =>
      match rb
      case Err(x, h) => Err(x, h)
      case Ok(b, h) =>
        if !a.N? || !b.N? then Err(NotNumeric, h)
        else match ArithNum(fpu, op, a.n, b.n)
          case Fault(x) => Err(x, h)
          case Fine(v) => Ok(N(v), h)
  }

  predicate Tagged(r: Res<CVal>, ty: Ty)
  {
    r.Ok? ==> r.v.N? && Tag(r.v.n) == ty
  }

  lemma IntOperandYields(w: World, ty: Ty, g: Gen, e: CExp, env: Env, t: Tmps, log: Log, v: Num, h: Log)
    requires IntOperand(ty, g, e).res.Some?
    requires ty == Tag(v)
    requires var r := Exec(w, g.out, env, t, log); r.Done? && r.log == h && EvalC(w, e, env, r.t) == Some(N(v))
    ensures Realizes(w, IntOperand(ty, g, e), env, t, log,
                     match ToIntOperand(v) case Fine(i) => Ok(N(I(i)), h) case Fault(x) => Err(x, h))
  {
    ExecSnoc(w, g.out, SToInt(g.next, e), env, t, log);
  }

  function Converted(v: Num, h: Log): Res<CVal>
  {
    match ToIntOperand(v) case Fine(i) => Ok(N(I(i)), h) case Fault(x) => Err(x, h)
  }

  lemma OperandsConvert(w: World, lt: Ty, rt: Ty, g: Gen, a: CExp, b: CExp, n: nat,
                        env: Env, t: Tmps, log: Log, va: Num, vb: Num, h: Log)
    requires Fresh(g, n) && ReadsWithin(a, n, g.next) && ReadsWithin(b, n, g.next)
    requires lt == Tag(va) && rt == Tag(vb)
    requires var r := Exec(w, g.out, env, t, log);
             r.Done? && r.log == h && EvalC(w, a, env, r.t) == Some(N(va)) && EvalC(w, b, env, r.t) == Some(N(vb))
    ensures var gi := IntOperand(lt, g, a);
            var gj := IntOperand(rt, gi, b);
            gi.res.Some? && gj.res.Some? &&
            YieldsBoth(w, gj.out, gi.res.value, gj.res.value, env, t, log, Converted(va, h), Converted(vb, h))
  {
    var gi := IntOperand(lt, g, a);
    var gj := IntOperand(rt, gi, b);
    IntOperandYields(w, lt, g, a, env, t, log, va, h);
    FreshIntOperand(lt, g, a, n);
    if Converted(va, h).Err? {
      // the first check already failed: whatever follows is not reached
      ExecSnoc(w, gi.out, SToInt(gi.next, b), env, t, log);
    } else {
      IntOperandKeeps(w, lt, g, a, n, env, t, log, b);
      IntOperandYields(w, rt, gi, b, env, t, log, vb, h);
      ReadsWiden(b, n, g.next, n, gi.next);
      IntOperandKeeps(w, rt, gi, b, n, env, t, log, gi.res.value);
    }
  }

  lemma BitsYield(w: World, op: ArithOp, lt: Ty, rt: Ty, g: Gen, a: CExp, b: CExp, n: nat,
                  env: Env, t: Tmps, log: Log, va: Num, vb: Num, h: Log)
    requires IsBitOp(op) && Fresh(g, n) && ReadsWithin(a, n, g.next) && ReadsWithin(b, n, g.next)
    requires lt == Tag(va) && rt == Tag(vb)
    requires var r := Exec(w, g.out, env, t, log);
             r.Done? && r.log == h && EvalC(w, a, env, r.t) == Some(N(va)) && EvalC(w, b, env, r.t) == Some(N(vb))
    ensures Realizes(w, BitFinish(op, lt, rt, g, a, b), env, t, log,
                     match ArithNum(w.fpu, op, va, vb) case Fine(v) => Ok(N(v), h) case Fault(x) => Err(x, h))
  {
    OperandsConvert(w, lt, rt, g, a, b, n, env, t, log, va, vb, h);
    var gi := IntOperand(lt, g, a);
    var gj := IntOperand(rt, gi, b);
    BitsLast(w, op, gj, gi.res.value, gj.res.value, env, t, log, Converted(va, h), Converted(vb, h));
  }

  function BitsEnd(op: ArithOp, gj: Gen, x: CExp, y: CExp): Gen
  {
    if op.Shl? then Emit(gj, SShift(gj.next, x, y, false))
    else if op.Shr? then Emit(gj, SShift(gj.next, x, y, true))
    else WithRes(gj, CBin(Bits(op), x, y))
  }

  lemma BitsLast(w: World, op: ArithOp, gj: Gen, x: CExp, y: CExp, env: Env, t: Tmps, log: Log, ra: Res<CVal>, rb: Res<CVal>)
    requires IsBitOp(op)
    requires YieldsBoth(w, gj.out, x, y, env, t, log, ra, rb)
    requires ra.Ok? ==> ra.v.N? && ra.v.n.I?
    requires rb.Ok? ==> rb.v.N? && rb.v.n.I?
    ensures Realizes(w, BitsEnd(op, gj, x, y), env, t, log,
                     if ra.Err? then ra else if rb.Err? then rb else Ok(N(I(BitArith(op, ra.v.n.i, rb.v.n.i))), rb.log))
  {
    if op.Shl? || op.Shr? {
      ShiftLast(w, op, gj, x, y, env, t, log, ra, rb);
    } else if ra.Ok? && rb.Ok? {
      MaskLast(w, op, x, y, env, Exec(w, gj.out, env, t, log).t, ra.v.n.i, rb.v.n.i);
    }
  }

  lemma MaskLast(w: World, op: ArithOp, x: CExp, y: CExp, env: Env, t: Tmps, a: int64, b: int64)
    requires IsBitOp(op)
    requires EvalC(w, x, env, t) == Some(N(I(a))) && EvalC(w, y, env, t) == Some(N(I(b)))
    ensures EvalC(w, CBin(Bits(op), x, y), env, t) == Some(N(I(BitArith(op, a, b))))
  {
  }

  lemma ShiftLast(w: World, op: ArithOp, gj: Gen, x: CExp, y: CExp, env: Env, t: Tmps, log: Log, ra: Res<CVal>, rb: Res<CVal>)
    requires op.Shl? || op.Shr?
    requires YieldsBoth(w, gj.out, x, y, env, t, log, ra, rb)
    requires ra.Ok? ==> ra.v.N? && ra.v.n.I?
    requires rb.Ok? ==> rb.v.N? && rb.v.n.I?
    ensures Realizes(w, Emit(gj, SShift(gj.next, x, y, op.Shr?)), env, t, log,
                     if ra.Err? then ra else if rb.Err? then rb else Ok(N(I(ShiftInt(ra.v.n.i, rb.v.n.i, op.Shr?))), rb.log))
  {
    ExecSnoc(w, gj.out, SShift(gj.next, x, y, op.Shr?), env, t, log);
  }

  /** Converting one operand leaves the value of the other alone. */
  lemma IntOperandKeeps(w: World, ty: Ty, g: Gen, e: CExp, n: nat, env: Env, t: Tmps, log: Log, other: CExp)
    requires Fresh(g, n) && ReadsWithin(e, n, g.next) && ReadsWithin(other, n, g.next)
    ensures var r0 := Exec(w, g.out, env, t, log);
            var r1 := Exec(w, IntOperand(ty, g, e).out, env, t, log);
            r0.Done? && r1.Done? ==> EvalC(w, other, env, r1.t) == EvalC(w, other, env, r0.t)
  {
    ExecSnoc(w, g.out, SToInt(g.next, e), env, t, log);
    var r0 := Exec(w, g.out, env, t, log);
    var r1 := Exec(w, IntOperand(ty, g, e).out, env, t, log);
    if r0.Done? && r1.Done? { EvalFrame(w, other, env, r0.t, r1.t, n, g.next); }
  }

  /** The core of the numeric compiler: every arithmetic operator, with the annotation inference gives it. */
  lemma ArithYields(w: World, op: ArithOp, lt: Ty, rt: Ty, ty: Ty, gl: Gen, gr: Gen, n: nat,
                    env: Env, t: Tmps, log: Log, ra: Res<CVal>, rb: Res<CVal>, lty: Ty, rty: Ty)
    requires Fresh(gl, n) && Fresh(gr, gl.next)
    requires gl.res.Some? && gr.res.Some? && ArithFinish(op, lt, rt, ty, gl, gr).res.Some?
    requires YieldsBoth(w, gl.out + gr.out, gl.res.value, gr.res.value, env, t, log, ra, rb)
    requires Tagged(ra, lty) && Tagged(rb, rty)
    requires lt == TDynamic || lt == lty
    requires rt == TDynamic || rt == rty
    requires ty == ArithType(op, lty, rty) && IsNum(ty)
    ensures Realizes(w, ArithFinish(op, lt, rt, ty, gl, gr), env, t, log, ArithRes(w.fpu, op, ra, rb))
  {
    var g := After(gl, gr);
    var a, b := gl.res.value, gr.res.value;
    FreshAfter(gl, gr, n);
    if ra.Err? || rb.Err? {
      ArithFails(w, op, lt, rt, ty, gl, gr, env, t, log, ra, rb);
    } else if IsBitOp(op) {
      BitsYield(w, op, lt, rt, g, a, b, n, env, t, log, ra.v.n, rb.v.n, rb.log);
    } else if op.Mod? || (op.IDiv? && ty == TInt) {
      DivModYields(w, op, ty, g, a, b, env, t, log, ra.v.n, rb.v.n);
    } else {
      PureArithYields(w, op, ty, a, b, env, Exec(w, g.out, env, t, log).t, ra.v.n, rb.v.n);
    }
  }

  lemma ArithFails(w: World, op: ArithOp, lt: Ty, rt: Ty, ty: Ty, gl: Gen, gr: Gen,
                   env: Env, t: Tmps, log: Log, ra: Res<CVal>, rb: Res<CVal>)
    requires gl.res.Some? && gr.res.Some? && ArithFinish(op, lt, rt, ty, gl, gr).res.Some?
    requires YieldsBoth(w, gl.out + gr.out, gl.res.value, gr.res.value, env, t, log, ra, rb)
    requires ra.Err? || rb.Err?
    ensures Realizes(w, ArithFinish(op, lt, rt, ty, gl, gr), env, t, log, if ra.Err? then ra else rb)
  {
    var first := gl.out + gr.out;
    var out := ArithFinish(op, lt, rt, ty, gl, gr).out;
    FinishExtends(op, lt, rt, ty, gl, gr);
    ExecConcat(w, first, out[|first|..], env, t, log);
  }

  lemma DivModYields(w: World, op: ArithOp, ty: Ty, g: Gen, a: CExp, b: CExp,
                     env: Env, t: Tmps, log: Log, va: Num, vb: Num)
    requires op.Mod? || (op.IDiv? && ty == TInt)
    requires ty == ArithType(op, Tag(va), Tag(vb))
    requires var r := Exec(w, g.out, env, t, log);
             r.Done? && EvalC(w, a, env, r.t) == Some(N(va)) && EvalC(w, b, env, r.t) == Some(N(vb))
    ensures var k := g.next;
            var s := if op.IDiv? then SFloorDiv(k, a, b) else if ty == TInt then SModInt(k, a, b) else SModFloat(k, a, b);
            var h := Exec(w, g.out, env, t, log).log;
            Realizes(w, Emit(g, s), env, t, log,
                     match ArithNum(w.fpu, op, va, vb) case Fine(v) => Ok(N(v), h) case Fault(x) => Err(x, h))
  {
    var k := g.next;
    var s := if op.IDiv? then SFloorDiv(k, a, b) else if ty == TInt then SModInt(k, a, b) else SModFloat(k, a, b);
    ExecSnoc(w, g.out, s, env, t, log);
    var r := Exec(w, g.out, env, t, log);
    DivModRuns(w, op, ty, k, a, b, env, r.t, r.log, va, vb);
  }

  lemma DivModRuns(w: World, op: ArithOp, ty: Ty, k: nat, a: CExp, b: CExp, env: Env, t: Tmps, log: Log, va: Num, vb: Num)
    requires op.Mod? || (op.IDiv? && ty == TInt)
    requires ty == ArithType(op, Tag(va), Tag(vb))
    requires EvalC(w, a, env, t) == Some(N(va)) && EvalC(w, b, env, t) == Some(N(vb))
    ensures var s := if op.IDiv? then SFloorDiv(k, a, b) else if ty == TInt then SModInt(k, a, b) else SModFloat(k, a, b);
            var n := ArithNum(w.fpu, op, va, vb);
            ExecStmt(w, s, env, t, log) == if n.Fine? then Done(t[k := N(n.v)], log) else Failed(n.e, log)
  {
    if ty == TInt { IntDivMod(w.fpu, op, va.i, vb.i); }
  }

  /** Lua's integer `//` and `%` are the runtime's formulas. */
  lemma IntDivMod(fpu: Fpu, op: ArithOp, a: int64, b: int64)
    requires op.IDiv? || op.Mod?
    ensures ArithNum(fpu, op, I(a), I(b)) ==
            if b == 0 then Fault(if op.IDiv? then FloorDivByZero else ModuloByZero)
            else Fine(I(if op.IDiv? then FloorQuotient(a, b) else ModInt(a, b)))
  {
    if b != 0 {
      FloorQuotientIsFloor(a, b);
      ModIntIsFloorMod(a, b);
    }
  }

  lemma PureArithYields(w: World, op: ArithOp, ty: Ty, a: CExp, b: CExp, env: Env, t: Tmps, va: Num, vb: Num)
    requires !IsBitOp(op) && !op.Mod? && !(op.IDiv? && ty == TInt)
    requires EvalC(w, a, env, t) == Some(N(va)) && EvalC(w, b, env, t) == Some(N(vb))
    requires ty == ArithType(op, Tag(va), Tag(vb))
    ensures var e := match op
                     case Add => CBin(if ty == TInt then IntMacro(op) else Plain(op), a, b)
                     case Sub => CBin(if ty == TInt then IntMacro(op) else Plain(op), a, b)
                     case Mul => CBin(if ty == TInt then IntMacro(op) else Plain(op), a, b)
                     case _ => CBin(OnDoubles(op), a, b);
            ArithNum(w.fpu, op, va, vb).Fine? && EvalC(w, e, env, t) == Some(N(ArithNum(w.fpu, op, va, vb).v))
  {
  }

  lemma FinishExtends(op: ArithOp, lt: Ty, rt: Ty, ty: Ty, gl: Gen, gr: Gen)
    requires gl.res.Some? && gr.res.Some?
    ensures var out := ArithFinish(op, lt, rt, ty, gl, gr).out;
            |gl.out + gr.out| <= |out| && out == (gl.out + gr.out) + out[|gl.out + gr.out|..]
  {
  }

  lemma NegYields(w: World, ty: Ty, g: Gen, env: Env, t: Tmps, log: Log, src: Res<CVal>)
    requires Realizes(w, g, env, t, log, src) && Tagged(src, ty) && IsNum(ty)
    ensures Realizes(w, NegFinish(ty, g), env, t, log,
              match src case Err(x, h) => Err(x, h)
                        case Ok(v, h) => Ok(N(if v.n.I? then I(Wrap(0 - v.n.i)) else F(Negate(v.n.f))), h))
  {
  }

  lemma ComplYields(w: World, ty: Ty, g: Gen, env: Env, t: Tmps, log: Log, src: Res<CVal>)
    requires Realizes(w, g, env, t, log, src) && Tagged(src, ty) && IsNum(ty)
    ensures Realizes(w, ComplFinish(ty, g), env, t, log,
              match src case Err(x, h) => Err(x, h)
                        case Ok(v, h) => match ToIntOperand(v.n) case Fault(x) => Err(x, h)
                                                                 case Fine(i) => Ok(N(I(BitNot(i))), h))
  {
    ExecSnoc(w, g.out, SToInt(g.next, g.res.value), env, t, log);
  }

  lemma BoxYields(w: World, ty: Ty, g: Gen, env: Env, t: Tmps, log: Log, src: Res<CVal>)
    requires Realizes(w, g, env, t, log, src) && Tagged(src, ty)
    ensures Realizes(w, BoxFinish(ty, g), env, t, log,
              match src case Err(x, h) => Err(x, h) case Ok(v, h) => Ok(B(Number(v.n)), h))
  {
    ExecSnoc(w, g.out, SSet(g.next, CUn(Box(ty), g.res.value)), env, t, log);
  }

  function Boxed1Res(o: Boxed1, src: Res<CVal>): Res<CVal>
  {
    match src
    case Err(x, h) => Err(x, h)
    case Ok(v, h) => if !v.B? then Err(NotNumeric, h) else Lift(ApplyBoxed1(o, v.v), h)
  }

  lemma BoxedOneYields(w: World, g: Gen, o: Boxed1, env: Env, t: Tmps, log: Log, src: Res<CVal>)
    requires Realizes(w, g, env, t, log, src) && (src.Ok? ==> src.v.B?)
    ensures Realizes(w, BoxedOne(g, o), env, t, log, Boxed1Res(o, src))
  {
    ExecSnoc(w, g.out, SBoxed1(g.next, o, g.res.value), env, t, log);
  }

  function Boxed2Res(w: World, o: Boxed2, ra: Res<CVal>, rb: Res<CVal>): Res<CVal>
  {
    match ra
    case Err(x, h) => Err(x, h)
    case Ok(a, _) =>
      match rb
      case Err(x, h) => Err(x, h)
      case Ok(b, h) => if !a.B? || !b.B? then Err(NotNumeric, h) else Lift(ApplyBoxed2(w, o, a.v, b.v), h)
  }

  lemma BoxedTwoYields(w: World, gl: Gen, gr: Gen, o: Boxed2, env: Env, t: Tmps, log: Log, ra: Res<CVal>, rb: Res<CVal>)
    requires gl.res.Some? && gr.res.Some?
    requires YieldsBoth(w, gl.out + gr.out, gl.res.value, gr.res.value, env, t, log, ra, rb)
    requires ra.Ok? ==> ra.v.B?
    requires rb.Ok? ==> rb.v.B?
    ensures Realizes(w, BoxedTwo(gl, gr, o), env, t, log, Boxed2Res(w, o, ra, rb))
  {
    var j := After(gl, gr);
    var s := SBoxed2(j.next, o, gl.res.value, gr.res.value);
    assert j.out == gl.out + gr.out && BoxedTwo(gl, gr, o).out == j.out + [s];
    ExecSnoc(w, j.out, s, env, t, log);
    if ra.Ok? && rb.Ok? {
      var r := Exec(w, j.out, env, t, log);
      assert EvalC(w, gl.res.value, env, r.t) == Some(ra.v) && EvalC(w, gr.res.value, env, r.t) == Some(rb.v);
    }
  }

  function CompareRes(cmp: CmpOp, ra: Res<CVal>, rb: Res<CVal>): Res<CVal>
  {
    match ra
    case Err(x, h) => Err(x, h)
    case Ok(a, _) =>
      match rb
      case Err(x, h) => Err(x, h)
      case Ok(b, h) => if !a.N? || !b.N? then Err(NotNumeric, h) else Ok(T(CmpNum(cmp, a.n, b.n)), h)
  }

  lemma CompareYields(w: World, cmp: CmpOp, lt: Ty, rt: Ty, gl: Gen, gr: Gen, env: Env, t: Tmps, log: Log,
                      ra: Res<CVal>, rb: Res<CVal>)
    requires gl.res.Some? && gr.res.Some?
    requires YieldsBoth(w, gl.out + gr.out, gl.res.value, gr.res.value, env, t, log, ra, rb)
    requires Tagged(ra, lt) && Tagged(rb, rt)
    ensures Realizes(w, CompareFinish(cmp, lt, rt, gl, gr), env, t, log, CompareRes(cmp, ra, rb))
  {
    if ra.Ok? && rb.Ok? { NativeCompareIsCmpNum(cmp, ra.v.n, rb.v.n); }
  }

  /** Storing a branch's value in `k`. */
  lemma BranchYields(w: World, g: Gen, k: nat, e: CExp, env: Env, t: Tmps, log: Log, src: Res<CVal>)
    requires Yields(w, g.out, e, env, t, log, src)
    ensures match src
            case Err(x, h) => Exec(w, g.out + [SSet(k, e)], env, t, log) == Failed(x, h)
            case Ok(v, h) =>
              var r := Exec(w, g.out + [SSet(k, e)], env, t, log);
              r.Done? && r.log == h && k in r.t && r.t[k] == v
  {
    ExecSnoc(w, g.out, SSet(k, e), env, t, log);
  }

  /** What a native temporary of type `ty` holds after it is assigned a number. */
  function Stored(fpu: Fpu, ty: Ty, src: Res<CVal>): Res<CVal>
  {
    if src.Ok? && src.v.N? && ty == TFloat then Ok(N(F(ToDouble(fpu, src.v.n))), src.log) else src
  }

  lemma DeclaredYields(w: World, ty: Ty, g: Gen, env: Env, t: Tmps, log: Log, src: Res<CVal>)
    requires Realizes(w, g, env, t, log, src)
    requires src.Ok? ==> src.v.N? && (ty == TFloat || Tag(src.v.n) == ty)
    ensures Yields(w, g.out, CUn(Declared(ty), g.res.value), env, t, log, Stored(w.fpu, ty, src))
    ensures Tagged(src, ty) ==> Stored(w.fpu, ty, src) == src
  {
  }

  /** The emitted ternary: the condition's truth picks the branch, and only that branch runs. */
  lemma TernaryYields(w: World, ty: Ty, gc: Gen, g1: Gen, g2: Gen, env: Env, t: Tmps, log: Log,
                      cond: Res<CVal>, src: Res<CVal>)
    requires gc.res.Some? && g1.res.Some? && g2.res.Some?
    requires Realizes(w, gc, env, t, log, cond)
    requires cond.Ok? ==> cond.v.T?
    requires cond.Err? ==> src == cond
    requires cond.Ok? ==> var r := Exec(w, gc.out, env, t, log);
                          Realizes(w, if cond.v.b then g1 else g2, env, r.t, r.log, src)
    requires src.Ok? ==> src.v.N? && (ty == TFloat || Tag(src.v.n) == ty)
    ensures Realizes(w, TernaryFinish(ty, gc, gc.next, g1, g2), env, t, log, Stored(w.fpu, ty, src))
    ensures Tagged(src, ty) ==> Stored(w.fpu, ty, src) == src
  {
    var k := gc.next;
    var e1, e2 := CUn(Declared(ty), g1.res.value), CUn(Declared(ty), g2.res.value);
    var s := SIf(gc.res.value, g1.out + [SSet(k, e1)], g2.out + [SSet(k, e2)]);
    ExecSnoc(w, gc.out, s, env, t, log);
    if cond.Ok? {
      var r := Exec(w, gc.out, env, t, log);
      DeclaredYields(w, ty, if cond.v.b then g1 else g2, env, r.t, r.log, src);
      BranchYields(w, if cond.v.b then g1 else g2, k, if cond.v.b then e1 else e2, env, r.t, r.log, Stored(w.fpu, ty, src));
    }
  }

  lemma ShortCircuitYields(w: World, isAnd: bool, gl: Gen, gr: Gen, n: nat, env: Env, t: Tmps, log: Log,
                           ra: Res<CVal>, rb: Res<CVal>)
    requires gl.res.Some? && gr.res.Some? && Fresh(gl, n)
    requires Realizes(w, gl, env, t, log, ra)
    requires ra.Ok? ==> ra.v.B?
    requires ra.Ok? && Truthy(ra.v.v) == isAnd ==>
      var r := Exec(w, gl.out, env, t, log); Realizes(w, gr, env, r.t[gl.next := ra.v], r.log, rb)
    ensures Realizes(w, ShortCircuitFinish(isAnd, gl, gr), env, t, log,
              if ra.Err? then ra else if Truthy(ra.v.v) == isAnd then rb else ra)
  {
    var k := gl.next;
    var test := CUn(IsTrueC, CTmp(k));
    var s := SIf(if isAnd then CUn(NotC, test) else test, [SSet(k + 1, CTmp(k))], gr.out + [SSet(k + 1, gr.res.value)]);
    var all := ShortCircuitFinish(isAnd, gl, gr);
    assert all.out == (gl.out + [SSet(k, gl.res.value)]) + [s];
    ExecSnoc(w, gl.out, SSet(k, gl.res.value), env, t, log);
    ExecSnoc(w, gl.out + [SSet(k, gl.res.value)], s, env, t, log);
    if ra.Ok? {
      var r := Exec(w, gl.out, env, t, log);
      ShortCircuitPicks(w, isAnd, k, gr, env, r.t[k := ra.v], r.log, ra, rb);
    }
  }

  /** The printed conditional copies the left value, or runs the right side and copies its value. */
  lemma ShortCircuitPicks(w: World, isAnd: bool, k: nat, gr: Gen, env: Env, t1: Tmps, log: Log, ra: Res<CVal>, rb: Res<CVal>)
    requires gr.res.Some? && ra.Ok? && ra.v.B? && ra.log == log && k in t1 && t1[k] == ra.v
    requires Truthy(ra.v.v) == isAnd ==> Realizes(w, gr, env, t1, log, rb)
    ensures var test := CUn(IsTrueC, CTmp(k));
            var s := SIf(if isAnd then CUn(NotC, test) else test, [SSet(k + 1, CTmp(k))], gr.out + [SSet(k + 1, gr.res.value)]);
            var o := ExecStmt(w, s, env, t1, log);
            var src := if Truthy(ra.v.v) == isAnd then rb else ra;
            if src.Ok? then o.Done? && o.log == src.log && k + 1 in o.t && o.t[k + 1] == src.v else o == Failed(src.e, src.log)
  {
    assert EvalC(w, CUn(IsTrueC, CTmp(k)), env, t1) == Some(T(Truthy(ra.v.v)));
    if Truthy(ra.v.v) == isAnd {
      BranchYields(w, gr, k + 1, gr.res.value, env, t1, log, rb);
    } else {
      ExecSnoc(w, [], SSet(k + 1, CTmp(k)), env, t1, log);
      assert [] + [SSet(k + 1, CTmp(k))] == [SSet(k + 1, CTmp(k))];
    }
  }

  // ----- argument lists and calls -----

  predicate YieldsAll(w: World, g: GenArgs, env: Env, t: Tmps, log: Log, src: Res<seq<CVal>>)
  {
    g.res.Some? &&
    match src
    case Err(x, h) => Exec(w, g.out, env, t, log) == Failed(x, h)
    case Ok(vs, h) => var r := Exec(w, g.out, env, t, log); r.Done? && r.log == h && EvalCs(w, g.res.value, env, r.t) == Some(vs)
  }

  function ConsRes(ra: Res<CVal>, rb: Res<seq<CVal>>): Res<seq<CVal>>
  {
    match ra
    case Err(x, h) => Err(x, h)
    case Ok(a, _) => match rb case Err(x, h) => Err(x, h) case Ok(vs, h) => Ok([a] + vs, h)
  }

  lemma ConsYields(w: World, g: Gen, h: GenArgs, n: nat, env: Env, t: Tmps, log: Log, ra: Res<CVal>, rb: Res<seq<CVal>>)
    requires Fresh(g, n) && FreshArgs(h, g.next)
    requires h.res.Some?
    requires Realizes(w, g, env, t, log, ra)
    requires ra.Ok? ==> var r := Exec(w, g.out, env, t, log); YieldsAll(w, h, env, r.t, r.log, rb)
    ensures forall nx, ok :: YieldsAll(w, GenArgs(g.out + h.out, Some([g.res.value] + h.res.value), nx, ok), env, t, log, ConsRes(ra, rb))
  {
    ExecConcat(w, g.out, h.out, env, t, log);
    if ra.Ok? && rb.Ok? {
      var r1 := Exec(w, g.out, env, t, log);
      ExecFrame(w, h.out, env, r1.t, r1.log, g.next, h.next);
      var r2 := Exec(w, h.out, env, r1.t, r1.log);
      EvalFrame(w, g.res.value, env, r1.t, r2.t, n, g.next);
      assert ([g.res.value] + h.res.value)[1..] == h.res.value;
    }
  }

  function NumVals(vs: seq<Value>): (r: seq<CVal>)
    ensures |r| == |vs|
  {
    if vs == [] then [] else [if vs[0].Number? then N(vs[0].n) else B(vs[0])] + NumVals(vs[1..])
  }

  function BoxVals(vs: seq<Value>): (r: seq<CVal>)
    ensures |r| == |vs|
  {
    if vs == [] then [] else [B(vs[0])] + BoxVals(vs[1..])
  }

  lemma {:induction false} PassTyped(fpu: Fpu, sig: seq<Ty>, vs: seq<Value>)
    requires Typed(vs, sig)
    ensures PassAll(fpu, sig, NumVals(vs)) == Some(vs)
  {
    if vs != [] {
      var v, ty, rest, tys := vs[0], sig[0], vs[1..], sig[1..];
      assert v.Number? && Tag(v.n) == ty && Typed(rest, tys);
      PassTyped(fpu, tys, rest);
      PassCons(fpu, ty, tys, N(v.n), NumVals(rest));
      assert vs == [v] + rest && sig == [ty] + tys;
    }
  }

  lemma PassCons(fpu: Fpu, ty: Ty, tys: seq<Ty>, v: CVal, vs: seq<CVal>)
    ensures var first, rest := PassAs(fpu, ty, v), PassAll(fpu, tys, vs);
            PassAll(fpu, [ty] + tys, [v] + vs) == if first.Some? && rest.Some? then Some([first.value] + rest.value) else None
  {
    assert ([ty] + tys)[1..] == tys && ([v] + vs)[1..] == vs;
  }

  lemma {:induction false} BoxesOfBoxVals(vs: seq<Value>)
    ensures Boxes(BoxVals(vs)) == Some(vs)
  {
    if vs != [] {
      BoxesOfBoxVals(vs[1..]);
      assert BoxVals(vs)[1..] == BoxVals(vs[1..]);
      assert vs == [vs[0]] + vs[1..];
    }
  }

  lemma CallYields(w: World, c: Ctx, f: string, ts: seq<Ty>, g: GenArgs, env: Env, t: Tmps, log: Log, src: Res<seq<Value>>)
    requires HostTyped(w, c) && f in c.funcs && |ts| == c.funcs[f].arity
    requires g.res.Some?
    requires YieldsAll(w, g, env, t, log, match src case Err(x, h) => Err(x, h) case Ok(vs, h) => Ok(NumVals(vs), h))
    requires src.Ok? ==> Typed(src.v, MaskTypes(ts))
    ensures var ret := (c.funcs[f].ret)(MaskTypes(ts));
            var call := match src case Err(x, h) => Err(x, h) case Ok(vs, h) => Invoke(w, f, vs, h);
            Realizes(w, NativeCall(c, f, ts, g), env, t, log, if IsNum(ret) then AsNum(call) else AsBox(call))
  {
    var ret := (c.funcs[f].ret)(MaskTypes(ts));
    ExecSnoc(w, g.out, SCallSpec(g.next, f, MaskTypes(ts), g.res.value, ret), env, t, log);
    if src.Ok? {
      PassTyped(w.fpu, MaskTypes(ts), src.v);
      var r := (w.host)(f, src.v, src.log);
    }
  }
}
