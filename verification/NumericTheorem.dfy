/** The simulation theorem of the expression generator, by induction over the expression. */
module NumericTheorem {
  import opened Options
  import opened Machine
  import opened LuaExp
  import opened CTarget
  import opened NumericGen
  import opened NumericFresh
  import opened NumericCorrect
  import opened NumericSteps
  import opened CleanCode

  /** What the numeric compiler emits, run and read back, is the number Lua evaluation gives, tag included,
      or the same error after the same calls. */
  lemma {:induction false} NumericIsCorrect(w: World, c: Ctx, e: Exp, n: nat, env: Env, t: Tmps, log: Log)
    requires Setting(w, c, env) && Regular(c, e) && NumFine(c, e) && IsNum(Infer(c, e))
    requires NumClean(c, e)
    ensures Realizes(w, Numeric(c, e, n), env, t, log, AsNum(Eval(w, e, env, log)))
    decreases e, 1
  {
    TypeSound(w, c, e, env, log);
    if ConstFold(e).Some? {
      FoldIsEval(w, c, e, env, log);
    } else {
      match e
      case Var(x) =>
      case Paren(e1) => NumericIsCorrect(w, c, e1, n, env, t, log);
      case Call(f, args) =>
        TypesInStep(c, args);
        NumericCallIsCorrect(w, c, f, args, n, env, t, log);
      case And(l, r) => NumericAndIsCorrect(w, c, l, r, n, env, t, log);
      case Or(_, _) => NumericOpIsCorrect(w, c, e, n, env, t, log);
      case Arith(_, _, _) => NumericOpIsCorrect(w, c, e, n, env, t, log);
      case Neg(_) => NumericOpIsCorrect(w, c, e, n, env, t, log);
      case Compl(_) => NumericOpIsCorrect(w, c, e, n, env, t, log);
      case Len(_) => NumericOpIsCorrect(w, c, e, n, env, t, log);
    }
  }

  lemma {:induction false} NumericOpIsCorrect(w: World, c: Ctx, e: Exp, n: nat, env: Env, t: Tmps, log: Log)
    requires e.Or? || e.Arith? || e.Neg? || e.Compl? || e.Len?
    requires Setting(w, c, env) && Regular(c, e) && NumFine(c, e) && IsNum(Infer(c, e)) && ConstFold(e).None?
    requires NumClean(c, e)
    ensures Realizes(w, Numeric(c, e, n), env, t, log, AsNum(Eval(w, e, env, log)))
    decreases e, 0, 5
  {
    match e
    case Or(l, r) => NumericOrIsCorrect(w, c, l, r, n, env, t, log);
    case Arith(op, l, r) => NumericArithIsCorrect(w, c, op, l, r, Infer(c, e), n, env, t, log);
    case Neg(e1) => NumericUnaryIsCorrect(w, c, e1, false, n, env, t, log);
    case Compl(e1) => NumericUnaryIsCorrect(w, c, e1, true, n, env, t, log);
    case Len(e1) => LenIsCorrect(w, c, e1, n, env, t, log);
  }

  lemma TernaryTypes(c: Ctx, q: Exp, a: Exp, b: Exp)
    requires IsNum(Infer(c, Or(And(q, a), b))) && Regular(c, Or(And(q, a), b))
    ensures IsNum(Infer(c, a)) && (IsNum(Infer(c, b)) || IsNum(Infer(c, q)))
    ensures var ty := Infer(c, Or(And(q, a), b)); ty == Infer(c, a) && (IsNum(Infer(c, b)) ==> Infer(c, b) == ty)
  {
    assert Infer(c, And(q, a)) == if IsNum(Infer(c, q)) then Infer(c, a) else TDynamic;
  }

  lemma {:induction false} NumericOrIsCorrect(w: World, c: Ctx, l: Exp, r: Exp, n: nat, env: Env, t: Tmps, log: Log)
    requires var e := Or(l, r);
             Setting(w, c, env) && Regular(c, e) && NumFine(c, e) && IsNum(Infer(c, e)) && NumClean(c, e)
    ensures var e := Or(l, r); Realizes(w, Numeric(c, e, n), env, t, log, AsNum(Eval(w, e, env, log)))
    decreases Or(l, r), 0, 4
  {
    if ConstFold(Or(l, r)).Some? {
      FoldIsEval(w, c, Or(l, r), env, log);
    } else if l.And? {
      NumericTernaryIsCorrect(w, c, l.l, l.r, r, n, env, t, log);
    } else {
      TypeSound(w, c, l, env, log);
      NumericIsCorrect(w, c, l, n, env, t, log);
      OrOfNumber(w, l, r, env, log);
      assert Numeric(c, Or(l, r), n) == Numeric(c, l, n);
    }
  }

  lemma OrOfNumber(w: World, l: Exp, r: Exp, env: Env, log: Log)
    requires var a := Eval(w, l, env, log); a.Ok? ==> a.v.Number?
    ensures Eval(w, Or(l, r), env, log) == Eval(w, l, env, log)
  {
  }

  lemma {:induction false} NumericTernaryIsCorrect(w: World, c: Ctx, q: Exp, a: Exp, b: Exp, n: nat, env: Env, t: Tmps, log: Log)
    requires var e := Or(And(q, a), b);
             Setting(w, c, env) && Regular(c, e) && NumFine(c, e) && IsNum(Infer(c, e)) && ConstFold(e).None?
             && NumClean(c, e)
    ensures var e := Or(And(q, a), b); Realizes(w, Numeric(c, e, n), env, t, log, AsNum(Eval(w, e, env, log)))
    decreases Or(And(q, a), b), 0, 3
  {
    var e := Or(And(q, a), b);
    var ty := Infer(c, e);
    var gc := TernaryCond(c, q, n);
    var g1 := Numeric(c, a, gc.next + 1);
    var g2 := Numeric(c, b, g1.next);
    TernaryCode(c, q, a, b, n);
    TernaryTypes(c, q, a, b);
    TernaryIsCorrect(w, c, e, ty, q, a, b, n, env, t, log);
    TernaryIsTagged(w, c, q, a, b, env, log);
  }

  lemma TernaryCode(c: Ctx, q: Exp, a: Exp, b: Exp, n: nat)
    ensures var e := Or(And(q, a), b);
            var gc := TernaryCond(c, q, n);
            var g1 := Numeric(c, a, gc.next + 1);
            Numeric(c, e, n) == TernaryFinish(Infer(c, e), gc, gc.next, g1, Numeric(c, b, g1.next))
  {
    assert ConstFold(Or(And(q, a), b)).None?;
  }

  lemma TernaryIsTagged(w: World, c: Ctx, q: Exp, a: Exp, b: Exp, env: Env, log: Log)
    requires var e := Or(And(q, a), b); Setting(w, c, env) && Regular(c, e) && IsNum(Infer(c, e))
    ensures var e := Or(And(q, a), b);
            var r := Choose(w, q, a, b, env, log);
            Eval(w, e, env, log) == r && Tagged(AsNum(r), Infer(c, e))
  {
    TernaryTypes(c, q, a, b);
    TernaryIsChoose(w, c, q, a, b, env, log);
    TypeSound(w, c, Or(And(q, a), b), env, log);
  }

  lemma {:induction false} NumericAndIsCorrect(w: World, c: Ctx, l: Exp, r: Exp, n: nat, env: Env, t: Tmps, log: Log)
    requires var e := And(l, r);
             Setting(w, c, env) && Regular(c, e) && NumFine(c, e) && IsNum(Infer(c, e)) && NumClean(c, e)
    ensures var e := And(l, r); Realizes(w, Numeric(c, e, n), env, t, log, AsNum(Eval(w, e, env, log)))
    decreases And(l, r), 0, 1
  {
    TypeSound(w, c, l, env, log);
    NumericPair(w, c, And(l, r), l, r, n, env, t, log);
  }

  lemma {:induction false} NumericUnaryIsCorrect(w: World, c: Ctx, e1: Exp, flip: bool, n: nat, env: Env, t: Tmps, log: Log)
    requires Setting(w, c, env) && Regular(c, e1) && NumFine(c, e1) && IsNum(GetType(c, e1)) && NumClean(c, e1)
    ensures var ty := GetType(c, e1);
            var src := Eval(w, e1, env, log);
            var g := Numeric(c, e1, n);
            if flip then Realizes(w, ComplFinish(ty, g), env, t, log,
                                  AsNum(match src case Err(x, h) => Err(x, h) case Ok(v, h) => Lift(ComplValue(v), h)))
            else Realizes(w, NegFinish(ty, g), env, t, log,
                          AsNum(match src case Err(x, h) => Err(x, h) case Ok(v, h) => Lift(NegValue(v), h)))
    decreases e1, 4
  {
    TypeSound(w, c, e1, env, log);
    NumericIsCorrect(w, c, e1, n, env, t, log);
    UnaryNative(w, GetType(c, e1), Numeric(c, e1, n), flip, env, t, log, Eval(w, e1, env, log));
  }

  lemma UnaryNative(w: World, ty: Ty, g: Gen, flip: bool, env: Env, t: Tmps, log: Log, src: Res<Value>)
    requires Realizes(w, g, env, t, log, AsNum(src)) && Tagged(AsNum(src), ty) && IsNum(ty)
    ensures if flip then Realizes(w, ComplFinish(ty, g), env, t, log,
                                  AsNum(match src case Err(x, h) => Err(x, h) case Ok(v, h) => Lift(ComplValue(v), h)))
            else Realizes(w, NegFinish(ty, g), env, t, log,
                          AsNum(match src case Err(x, h) => Err(x, h) case Ok(v, h) => Lift(NegValue(v), h)))
  {
    if flip {
      ComplYields(w, ty, g, env, t, log, AsNum(src));
    } else {
      NegYields(w, ty, g, env, t, log, AsNum(src));
    }
  }

  lemma {:induction false} LenIsCorrect(w: World, c: Ctx, e1: Exp, n: nat, env: Env, t: Tmps, log: Log)
    requires Setting(w, c, env) && Regular(c, e1) && BoxFine(c, e1) && BoxClean(c, e1)
    ensures Realizes(w, BoxedOne(Boxed(c, e1, n), LenInt), env, t, log, AsNum(Eval(w, Len(e1), env, log)))
    decreases e1, 4
  {
    BoxedIsCorrect(w, c, e1, n, env, t, log);
    BoxedOneYields(w, Boxed(c, e1, n), LenInt, env, t, log, AsBox(Eval(w, e1, env, log)));
  }

  /** Both operands of `parent`, the right one compiled with the counter the left one left. */
  lemma {:induction false} NumericPair(w: World, c: Ctx, parent: Exp, l: Exp, r: Exp, n: nat, env: Env, t: Tmps, log: Log)
    requires l < parent && r < parent
    requires Setting(w, c, env) && Regular(c, l) && Regular(c, r) && NumFine(c, l) && NumFine(c, r)
    requires IsNum(Infer(c, l)) && IsNum(Infer(c, r))
    requires NumClean(c, l) && NumClean(c, r)
    ensures var gl := Numeric(c, l, n);
            var gr := Numeric(c, r, gl.next);
            var ra := Eval(w, l, env, log);
            var rb := if ra.Ok? then Eval(w, r, env, ra.log) else ra;
            && Fresh(gl, n) && Fresh(gr, gl.next) && gl.res.Some? && gr.res.Some?
            && YieldsBoth(w, gl.out + gr.out, gl.res.value, gr.res.value, env, t, log, AsNum(ra), AsNum(rb))
            && Tagged(AsNum(ra), Infer(c, l)) && Tagged(AsNum(rb), Infer(c, r))
    decreases parent, 0, 0
  {
    var gl := Numeric(c, l, n);
    var gr := Numeric(c, r, gl.next);
    var ra := Eval(w, l, env, log);
    NumericIsFresh(c, l, n);
    NumericIsFresh(c, r, gl.next);
    NumericCleanIff(c, r, gl.next);
    NumericIsCorrect(w, c, l, n, env, t, log);
    TypeSound(w, c, l, env, log);
    var rb := ra;
    if ra.Ok? {
      var r1 := Exec(w, gl.out, env, t, log);
      rb := Eval(w, r, env, ra.log);
      NumericIsCorrect(w, c, r, gl.next, env, r1.t, ra.log);
      TypeSound(w, c, r, env, ra.log);
    }
    Two(w, gl, gr, n, env, t, log, AsNum(ra), AsNum(rb));
  }

  lemma {:induction false} BoxedPair(w: World, c: Ctx, parent: Exp, l: Exp, r: Exp, n: nat, env: Env, t: Tmps, log: Log)
    requires l < parent && r < parent
    requires Setting(w, c, env) && Regular(c, l) && Regular(c, r) && BoxFine(c, l) && BoxFine(c, r)
    requires BoxClean(c, l) && BoxClean(c, r)
    ensures var gl := Boxed(c, l, n);
            var gr := Boxed(c, r, gl.next);
            var ra := Eval(w, l, env, log);
            var rb := if ra.Ok? then Eval(w, r, env, ra.log) else ra;
            && gl.res.Some? && gr.res.Some?
            && YieldsBoth(w, gl.out + gr.out, gl.res.value, gr.res.value, env, t, log, AsBox(ra), AsBox(rb))
    decreases parent, 0, 0
  {
    var gl := Boxed(c, l, n);
    var gr := Boxed(c, r, gl.next);
    var ra := Eval(w, l, env, log);
    BoxedIsFresh(c, l, n);
    BoxedIsFresh(c, r, gl.next);
    BoxedCleanIff(c, r, gl.next);
    BoxedIsCorrect(w, c, l, n, env, t, log);
    var rb := ra;
    if ra.Ok? {
      rb := Eval(w, r, env, ra.log);
      BoxedIsCorrect(w, c, r, gl.next, env, Exec(w, gl.out, env, t, log).t, ra.log);
    }
    Two(w, gl, gr, n, env, t, log, AsBox(ra), AsBox(rb));
  }

  lemma {:induction false} NumericArithIsCorrect(w: World, c: Ctx, op: ArithOp, l: Exp, r: Exp, ty: Ty, n: nat,
                                                 env: Env, t: Tmps, log: Log)
    requires Setting(w, c, env) && Regular(c, l) && Regular(c, r) && NumFine(c, l) && NumFine(c, r)
    requires ty == ArithType(op, Infer(c, l), Infer(c, r)) && IsNum(ty)
    requires NumClean(c, l) && NumClean(c, r) && (IsBitOp(op) ==> IsNum(GetType(c, l)) && IsNum(GetType(c, r)))
    ensures var gl := Numeric(c, l, n);
            Realizes(w, ArithFinish(op, GetType(c, l), GetType(c, r), ty, gl, Numeric(c, r, gl.next)), env, t, log,
                     AsNum(Eval(w, Arith(op, l, r), env, log)))
    decreases Arith(op, l, r), 0, 1
  {
    var gl := Numeric(c, l, n);
    var gr := Numeric(c, r, gl.next);
    var ra := Eval(w, l, env, log);
    var rb := if ra.Ok? then Eval(w, r, env, ra.log) else ra;
    NumericCleanIff(c, l, n);
    NumericCleanIff(c, r, gl.next);
    ArithFinishIff(op, GetType(c, l), GetType(c, r), ty, gl, gr);
    NumericPair(w, c, Arith(op, l, r), l, r, n, env, t, log);
    ArithYields(w, op, GetType(c, l), GetType(c, r), ty, gl, gr, n, env, t, log, AsNum(ra), AsNum(rb), Infer(c, l), Infer(c, r));
    ArithOfNumbers(w, op, l, r, env, log);
  }

  lemma ArithOfNumbers(w: World, op: ArithOp, l: Exp, r: Exp, env: Env, log: Log)
    requires var ra := Eval(w, l, env, log);
             ra.Ok? ==> ra.v.Number? && var rb := Eval(w, r, env, ra.log); rb.Ok? ==> rb.v.Number?
    ensures var ra := Eval(w, l, env, log);
            var rb := if ra.Ok? then Eval(w, r, env, ra.log) else ra;
            AsNum(Eval(w, Arith(op, l, r), env, log)) == ArithRes(w.fpu, op, AsNum(ra), AsNum(rb))
  {
  }

  /** `q and a or b` when `a` is a number: an if-then-else. */
  function Choose(w: World, q: Exp, a: Exp, b: Exp, env: Env, log: Log): Res<Value>
  {
    match Eval(w, q, env, log)
    case Err(x, g) => Err(x, g)
    case Ok(v, g) => if Truthy(v) then Eval(w, a, env, g) else Eval(w, b, env, g)
  }

  lemma TernaryIsChoose(w: World, c: Ctx, q: Exp, a: Exp, b: Exp, env: Env, log: Log)
    requires Setting(w, c, env) && Regular(c, a) && IsNum(Infer(c, a))
    ensures Eval(w, Or(And(q, a), b), env, log) == Choose(w, q, a, b, env, log)
  {
    var cond := Eval(w, q, env, log);
    if cond.Ok? { TypeSound(w, c, a, env, cond.log); }
    var both := Eval(w, And(q, a), env, log);
    assert both == (match cond case Err(x, g) => Err(x, g) case Ok(v, g) => if Truthy(v) then Eval(w, a, env, g) else Ok(v, g));
  }

  lemma ChooseFits(w: World, c: Ctx, ty: Ty, q: Exp, a: Exp, b: Exp, env: Env, log: Log)
    requires Setting(w, c, env) && Regular(c, q) && Regular(c, a) && Regular(c, b)
    requires IsNum(Infer(c, a)) && (IsNum(Infer(c, b)) || IsNum(Infer(c, q)))
    requires ty == TFloat || (ty == Infer(c, a) && (IsNum(Infer(c, b)) ==> Infer(c, b) == ty))
    ensures var r := Choose(w, q, a, b, env, log); r.Ok? ==> r.v.Number? && (ty == TFloat || Tag(r.v.n) == ty)
  {
    var cond := Eval(w, q, env, log);
    TypeSound(w, c, q, env, log);
    if cond.Ok? {
      TypeSound(w, c, a, env, cond.log);
      TypeSound(w, c, b, env, cond.log);
    }
  }

  lemma TernaryJoins(w: World, ty: Ty, gc: Gen, g1: Gen, g2: Gen, q: Exp, a: Exp, b: Exp, env: Env, t: Tmps, log: Log)
    requires gc.res.Some? && g1.res.Some? && g2.res.Some?
    requires Realizes(w, gc, env, t, log, AsTruth(Eval(w, q, env, log)))
    requires var cond := Eval(w, q, env, log);
             cond.Ok? ==> Realizes(w, if Truthy(cond.v) then g1 else g2, env, Exec(w, gc.out, env, t, log).t, cond.log,
                                   AsNum(Choose(w, q, a, b, env, log)))
    requires var r := Choose(w, q, a, b, env, log); r.Ok? ==> r.v.Number? && (ty == TFloat || Tag(r.v.n) == ty)
    ensures Realizes(w, TernaryFinish(ty, gc, gc.next, g1, g2), env, t, log,
                     Stored(w.fpu, ty, AsNum(Choose(w, q, a, b, env, log))))
    ensures Tagged(AsNum(Choose(w, q, a, b, env, log)), ty) ==>
              Stored(w.fpu, ty, AsNum(Choose(w, q, a, b, env, log))) == AsNum(Choose(w, q, a, b, env, log))
  {
    var cond := Eval(w, q, env, log);
    TernaryYields(w, ty, gc, g1, g2, env, t, log, AsTruth(cond), AsNum(Choose(w, q, a, b, env, log)));
  }

  lemma {:induction false} TernaryIsCorrect(w: World, c: Ctx, parent: Exp, ty: Ty, q: Exp, a: Exp, b: Exp, n: nat,
                                            env: Env, t: Tmps, log: Log)
    requires q < parent && a < parent && b < parent
    requires Setting(w, c, env) && Regular(c, q) && Regular(c, a) && Regular(c, b)
    requires CondFine(c, q) && NumFine(c, a) && (IsNum(Infer(c, b)) ==> NumFine(c, b))
    requires IsNum(Infer(c, a)) && (IsNum(Infer(c, b)) || IsNum(Infer(c, q)))
    requires ty == TFloat || (ty == Infer(c, a) && (IsNum(Infer(c, b)) ==> Infer(c, b) == ty))
    requires CondClean(c, q) && NumClean(c, a) && NumClean(c, b)
    ensures var gc := TernaryCond(c, q, n);
            var g1 := Numeric(c, a, gc.next + 1);
            Realizes(w, TernaryFinish(ty, gc, gc.next, g1, Numeric(c, b, g1.next)), env, t, log,
                     Stored(w.fpu, ty, AsNum(Choose(w, q, a, b, env, log))))
    ensures Tagged(AsNum(Choose(w, q, a, b, env, log)), ty) ==>
              Stored(w.fpu, ty, AsNum(Choose(w, q, a, b, env, log))) == AsNum(Choose(w, q, a, b, env, log))
    decreases parent, 0, 2
  {
    TernaryCondIsCorrect(w, c, q, n, env, t, log);
    BranchesJoin(w, c, parent, ty, q, a, b, TernaryCond(c, q, n), env, t, log);
  }

  /** Whatever code decides the condition: after it the chosen branch computes its value, and it is stored. */
  lemma {:induction false} BranchesJoin(w: World, c: Ctx, parent: Exp, ty: Ty, q: Exp, a: Exp, b: Exp, gc: Gen,
                                        env: Env, t: Tmps, log: Log)
    requires a < parent && b < parent
    requires Setting(w, c, env) && Regular(c, q) && Regular(c, a) && Regular(c, b)
    requires NumFine(c, a) && (IsNum(Infer(c, b)) ==> NumFine(c, b)) && NumClean(c, a) && NumClean(c, b)
    requires IsNum(Infer(c, a)) && (IsNum(Infer(c, b)) || IsNum(Infer(c, q)))
    requires ty == TFloat || (ty == Infer(c, a) && (IsNum(Infer(c, b)) ==> Infer(c, b) == ty))
    requires Realizes(w, gc, env, t, log, AsTruth(Eval(w, q, env, log)))
    ensures var g1 := Numeric(c, a, gc.next + 1);
            Realizes(w, TernaryFinish(ty, gc, gc.next, g1, Numeric(c, b, g1.next)), env, t, log,
                     Stored(w.fpu, ty, AsNum(Choose(w, q, a, b, env, log))))
    ensures Tagged(AsNum(Choose(w, q, a, b, env, log)), ty) ==>
              Stored(w.fpu, ty, AsNum(Choose(w, q, a, b, env, log))) == AsNum(Choose(w, q, a, b, env, log))
    decreases parent, 0, 1
  {
    var g1 := Numeric(c, a, gc.next + 1);
    NumericCleanIff(c, a, gc.next + 1);
    NumericCleanIff(c, b, g1.next);
    var r := Exec(w, gc.out, env, t, log);
    if r.Done? { BranchIsCorrect(w, c, parent, q, a, b, gc.next + 1, env, r.t, log); }
    ChooseFits(w, c, ty, q, a, b, env, log);
    TernaryJoins(w, ty, gc, g1, Numeric(c, b, g1.next), q, a, b, env, t, log);
  }

  lemma {:induction false} BranchIsCorrect(w: World, c: Ctx, parent: Exp, q: Exp, a: Exp, b: Exp, k: nat,
                                           env: Env, t: Tmps, log: Log)
    requires a < parent && b < parent
    requires Setting(w, c, env) && Regular(c, q) && Regular(c, a) && Regular(c, b)
    requires NumFine(c, a) && (IsNum(Infer(c, b)) ==> NumFine(c, b))
    requires IsNum(Infer(c, a)) && (IsNum(Infer(c, b)) || IsNum(Infer(c, q)))
    requires NumClean(c, a) && NumClean(c, b)
    ensures var g1 := Numeric(c, a, k);
            var cond := Eval(w, q, env, log);
            cond.Ok? ==>
            Realizes(w, if Truthy(cond.v) then g1 else Numeric(c, b, g1.next), env, t, cond.log,
                     AsNum(Choose(w, q, a, b, env, log)))
    decreases parent, 0, 0
  {
    var cond := Eval(w, q, env, log);
    if cond.Ok? && Truthy(cond.v) {
      NumericIsCorrect(w, c, a, k, env, t, cond.log);
    } else if cond.Ok? {
      TypeSound(w, c, q, env, log);
      NumericIsCorrect(w, c, b, Numeric(c, a, k).next, env, t, cond.log);
    }
  }

  lemma {:induction false} TernaryCondIsCorrect(w: World, c: Ctx, e: Exp, n: nat, env: Env, t: Tmps, log: Log)
    requires Setting(w, c, env) && Regular(c, e) && CondFine(c, e)
    requires CondClean(c, e)
    ensures Realizes(w, TernaryCond(c, e, n), env, t, log, AsTruth(Eval(w, e, env, log)))
    decreases e, 3
  {
    NativeBoolDecides(c, e, n);
    if BoolShape(c, e) {
      NativeBoolIsCorrect(w, c, e, n, env, t, log);
    } else {
      var g := Boxed(c, e, n);
      BoxedIsCorrect(w, c, e, n, env, t, log);
      TruthYields(w, g, env, t, log, Eval(w, e, env, log));
      assert Miss(n).out + g.out == g.out;
    }
  }

  lemma TruthYields(w: World, g: Gen, env: Env, t: Tmps, log: Log, src: Res<Value>)
    requires Realizes(w, g, env, t, log, AsBox(src))
    ensures Realizes(w, WithRes(g, CUn(IsTrueC, g.res.value)), env, t, log, AsTruth(src))
  {
  }

  /** A native condition is Lua's truth value of the condition. */
  lemma {:induction false} NativeBoolIsCorrect(w: World, c: Ctx, e: Exp, n: nat, env: Env, t: Tmps, log: Log)
    requires Setting(w, c, env) && Regular(c, e) && BoolFine(c, e) && BoolShape(c, e)
    requires BoolClean(c, e)
    ensures Realizes(w, NativeBool(c, e, n), env, t, log, AsTruth(Eval(w, e, env, log)))
    decreases e, 1
  {
    match e
    case Paren(e1) => NativeBoolIsCorrect(w, c, e1, n, env, t, log);
    case Not(e1) =>
      NativeBoolIsCorrect(w, c, e1, n, env, t, log);
      NotYields(w, NativeBool(c, e1, n), env, t, log, Eval(w, e1, env, log));
    case Cmp(cmp, l, r) => NativeCmpIsCorrect(w, c, cmp, l, r, n, env, t, log);
  }

  lemma NotYields(w: World, g: Gen, env: Env, t: Tmps, log: Log, src: Res<Value>)
    requires Realizes(w, g, env, t, log, AsTruth(src))
    ensures Realizes(w, WithRes(g, CUn(NotC, g.res.value)), env, t, log,
                     AsTruth(match src case Err(x, h) => Err(x, h) case Ok(v, h) => Ok(Bool(!Truthy(v)), h)))
  {
  }

  lemma {:induction false} NativeCmpIsCorrect(w: World, c: Ctx, cmp: CmpOp, l: Exp, r: Exp, n: nat, env: Env, t: Tmps, log: Log)
    requires Setting(w, c, env) && Regular(c, l) && Regular(c, r) && NumFine(c, l) && NumFine(c, r)
    requires IsNum(GetType(c, l)) && IsNum(GetType(c, r))
    requires NumClean(c, l) && NumClean(c, r)
    ensures var gl := Numeric(c, l, n);
            Realizes(w, CompareFinish(cmp, GetType(c, l), GetType(c, r), gl, Numeric(c, r, gl.next)), env, t, log,
                     AsTruth(Eval(w, Cmp(cmp, l, r), env, log)))
    decreases Cmp(cmp, l, r), 0, 1
  {
    var ra := Eval(w, l, env, log);
    var rb := if ra.Ok? then Eval(w, r, env, ra.log) else ra;
    NumericCleanIff(c, l, n);
    NumericCleanIff(c, r, Numeric(c, l, n).next);
    NumericPair(w, c, Cmp(cmp, l, r), l, r, n, env, t, log);
    var gl := Numeric(c, l, n);
    CompareYields(w, cmp, GetType(c, l), GetType(c, r), gl, Numeric(c, r, gl.next), env, t, log, AsNum(ra), AsNum(rb));
    CmpOfNumbers(w, cmp, l, r, env, log);
  }

  lemma CmpOfNumbers(w: World, cmp: CmpOp, l: Exp, r: Exp, env: Env, log: Log)
    requires var ra := Eval(w, l, env, log);
             ra.Ok? ==> ra.v.Number? && var rb := Eval(w, r, env, ra.log); rb.Ok? ==> rb.v.Number?
    ensures var ra := Eval(w, l, env, log);
            var rb := if ra.Ok? then Eval(w, r, env, ra.log) else ra;
            AsTruth(Eval(w, Cmp(cmp, l, r), env, log)) == CompareRes(cmp, AsNum(ra), AsNum(rb))
  {
  }

  lemma {:induction false} NumericArgsAreCorrect(w: World, c: Ctx, es: Exps, n: nat, env: Env, t: Tmps, log: Log)
    requires Setting(w, c, env) && RegularAll(c, es) && NumFineAll(c, es)
    requires TDynamic !in InferAll(c, es)
    requires NumCleanAll(c, es)
    ensures var src := EvalAll(w, es, env, log);
            YieldsAll(w, NumericArgs(c, es, n), env, t, log,
                      match src case Err(x, h) => Err(x, h) case Ok(vs, h) => Ok(NumVals(vs), h))
    decreases es, 0
  {
    if es.Exps? {
      var g := Numeric(c, es.head, n);
      var h := NumericArgs(c, es.tail, g.next);
      assert InferAll(c, es)[0] == Infer(c, es.head) && InferAll(c, es)[1..] == InferAll(c, es.tail);
      NumericIsFresh(c, es.head, n);
      NumericArgsAreFresh(c, es.tail, g.next);
      NumericIsCorrect(w, c, es.head, n, env, t, log);
      var ra := Eval(w, es.head, env, log);
      var rb: Res<seq<CVal>> := Ok([], log);
      if ra.Ok? {
        var r := Exec(w, g.out, env, t, log);
        NumericArgsAreCorrect(w, c, es.tail, g.next, env, r.t, r.log);
        rb := match EvalAll(w, es.tail, env, ra.log) case Err(x, h) => Err(x, h) case Ok(vs, h) => Ok(NumVals(vs), h);
      }
      ConsYields(w, g, h, n, env, t, log, AsNum(ra), rb);
      ConsOfNumVals(w, es, env, log);
      assert YieldsAll(w, GenArgs(g.out + h.out, Some([g.res.value] + h.res.value), h.next, g.ok && h.ok),
                       env, t, log, ConsRes(AsNum(ra), rb));
    }
  }

  lemma ConsOfNumVals(w: World, es: Exps, env: Env, log: Log)
    requires es.Exps?
    ensures var a := Eval(w, es.head, env, log);
            var r := EvalAll(w, es, env, log);
            a.Ok? && r.Ok? ==> var rest := EvalAll(w, es.tail, env, a.log);
              rest.Ok? && NumVals(r.v) == [if a.v.Number? then N(a.v.n) else B(a.v)] + NumVals(rest.v)
              && BoxVals(r.v) == [B(a.v)] + BoxVals(rest.v)
  {
    var a := Eval(w, es.head, env, log);
    var r := EvalAll(w, es, env, log);
    if a.Ok? && r.Ok? { assert r.v[1..] == EvalAll(w, es.tail, env, a.log).v; }
  }

  lemma {:induction false} TypesInStep(c: Ctx, es: Exps)
    ensures |GetTypes(c, es)| == |InferAll(c, es)|
  {
    if es.Exps? { TypesInStep(c, es.tail); }
  }

  lemma {:induction false} SameTypes(c: Ctx, es: Exps)
    requires TDynamic !in GetTypes(c, es)
    ensures GetTypes(c, es) == InferAll(c, es)
  {
    if es.Exps? {
      assert GetTypes(c, es)[0] == GetType(c, es.head) && GetTypes(c, es)[1..] == GetTypes(c, es.tail);
      SameTypes(c, es.tail);
    }
  }

  lemma ArgsTyped(w: World, c: Ctx, args: Exps, env: Env, log: Log)
    requires Setting(w, c, env) && RegularAll(c, args) && TDynamic !in InferAll(c, args)
    ensures var src := EvalAll(w, args, env, log); src.Ok? ==> Typed(src.v, InferAll(c, args))
  {
    TypeSoundAll(w, c, args, env, log);
    var src, ts := EvalAll(w, args, env, log), InferAll(c, args);
    if src.Ok? {
      forall i | 0 <= i < |src.v| ensures src.v[i].Number? && Tag(src.v[i].n) == ts[i] { assert ts[i] in ts; }
    }
  }

  lemma {:induction false} NumericCallIsCorrect(w: World, c: Ctx, f: string, args: Exps, n: nat, env: Env, t: Tmps, log: Log)
    requires Setting(w, c, env) && RegularAll(c, args) && NumFineAll(c, args)
    requires f in c.funcs && |InferAll(c, args)| == c.funcs[f].arity
    requires MaskTypes(GetTypes(c, args)) == InferAll(c, args)
    requires NumCleanAll(c, args)
    ensures var call := Eval(w, Call(f, args), env, log);
            Realizes(w, NativeCall(c, f, GetTypes(c, args), NumericArgs(c, args, n)), env, t, log,
                     if IsNum((c.funcs[f].ret)(InferAll(c, args))) then AsNum(call) else AsBox(call))
    decreases Call(f, args), 0, 1
  {
    var ts := GetTypes(c, args);
    NumericArgsAreCorrect(w, c, args, n, env, t, log);
    ArgsTyped(w, c, args, env, log);
    var src := EvalAll(w, args, env, log);
    CallYields(w, c, f, ts, NumericArgs(c, args, n), env, t, log, src);
    CallUnfolds(w, f, args, env, log);
  }

  lemma CallUnfolds(w: World, f: string, args: Exps, env: Env, log: Log)
    ensures var src := EvalAll(w, args, env, log);
            Eval(w, Call(f, args), env, log) == if src.Ok? then Invoke(w, f, src.v, src.log) else Err(src.e, src.log)
  {
  }

  // ----- boxed expressions -----

  /** What the boxed compiler emits, run and read back, is the Lua value. */
  lemma {:induction false} BoxedIsCorrect(w: World, c: Ctx, e: Exp, n: nat, env: Env, t: Tmps, log: Log)
    requires Setting(w, c, env) && Regular(c, e) && BoxFine(c, e)
    requires BoxClean(c, e)
    ensures Realizes(w, Boxed(c, e, n), env, t, log, AsBox(Eval(w, e, env, log)))
    decreases e, 2
  {
    match e
    case Paren(e1) => BoxedIsCorrect(w, c, e1, n, env, t, log);
    case And(l, r) => BoxedLogicIsCorrect(w, c, e, true, l, r, n, env, t, log);
    case Or(l, r) => BoxedLogicIsCorrect(w, c, e, false, l, r, n, env, t, log);
    case Arith(op, l, r) => BoxedArithIsCorrect(w, c, op, l, r, n, env, t, log);
    case Cmp(cmp, l, r) => BoxedCmpIsCorrect(w, c, cmp, l, r, n, env, t, log);
    case Call(f, args) => BoxedCallIsCorrect(w, c, f, args, n, env, t, log);
    case Neg(e1) => BoxedUnaryIsCorrect(w, c, e1, false, n, env, t, log);
    case Compl(e1) => BoxedUnaryIsCorrect(w, c, e1, true, n, env, t, log);
    case Len(e1) => BoxedOneIsCorrect(w, c, e1, OpLen, n, env, t, log);
    case Not(e1) => BoxedOneIsCorrect(w, c, e1, OpNot, n, env, t, log);
    case _ => BoxedLeafIsCorrect(w, c, e, n, env, t, log);
  }

  /** A constant or a variable. */
  lemma BoxedLeafIsCorrect(w: World, c: Ctx, e: Exp, n: nat, env: Env, t: Tmps, log: Log)
    requires e.NilExp? || e.TrueExp? || e.FalseExp? || e.Lit? || e.Var?
    requires Setting(w, c, env) && Regular(c, e) && BoxFine(c, e) && BoxClean(c, e)
    ensures Realizes(w, Boxed(c, e, n), env, t, log, AsBox(Eval(w, e, env, log)))
  {
  }

  lemma {:induction false} BoxedLogicIsCorrect(w: World, c: Ctx, e: Exp, isAnd: bool, l: Exp, r: Exp, n: nat,
                                               env: Env, t: Tmps, log: Log)
    requires e == if isAnd then And(l, r) else Or(l, r)
    requires Setting(w, c, env) && Regular(c, e) && BoxFine(c, e) && BoxClean(c, e)
    ensures Realizes(w, Boxed(c, e, n), env, t, log, AsBox(Eval(w, e, env, log)))
    decreases e, 1
  {
    ShortCircuitIsCorrect(w, c, e, isAnd, l, r, n, env, t, log);
  }

  lemma {:induction false} BoxedOneIsCorrect(w: World, c: Ctx, e1: Exp, op: Boxed1, n: nat, env: Env, t: Tmps, log: Log)
    requires op.OpLen? || op.OpNot?
    requires Setting(w, c, env) && Regular(c, e1) && BoxFine(c, e1) && BoxClean(c, e1)
    ensures Realizes(w, BoxedOne(Boxed(c, e1, n), op), env, t, log,
                     AsBox(Eval(w, if op.OpLen? then Len(e1) else Not(e1), env, log)))
    decreases e1, 4
  {
    BoxedIsCorrect(w, c, e1, n, env, t, log);
    BoxedOneYields(w, Boxed(c, e1, n), op, env, t, log, AsBox(Eval(w, e1, env, log)));
  }

  lemma {:induction false} ShortCircuitIsCorrect(w: World, c: Ctx, parent: Exp, isAnd: bool, l: Exp, r: Exp, n: nat,
                                                 env: Env, t: Tmps, log: Log)
    requires l < parent && r < parent
    requires Setting(w, c, env) && Regular(c, l) && Regular(c, r) && BoxFine(c, l) && BoxFine(c, r)
    requires BoxClean(c, l) && BoxClean(c, r)
    ensures var gl := Boxed(c, l, n);
            var ra := Eval(w, l, env, log);
            Realizes(w, ShortCircuitFinish(isAnd, gl, Boxed(c, r, gl.next + 2)), env, t, log,
                     AsBox(if ra.Ok? && Truthy(ra.v) == isAnd then Eval(w, r, env, ra.log) else ra))
    decreases parent, 0
  {
    var gl := Boxed(c, l, n);
    BoxedCleanIff(c, l, n);
    BoxedIsFresh(c, l, n);
    BoxedIsCorrect(w, c, l, n, env, t, log);
    RightSide(w, c, parent, isAnd, gl, Eval(w, l, env, log), r, n, env, t, log);
  }

  /** Whatever code gives the left value: the right side runs after it when that does not decide. */
  lemma {:induction false} RightSide(w: World, c: Ctx, parent: Exp, isAnd: bool, gl: Gen, ra: Res<Value>, r: Exp, n: nat,
                                     env: Env, t: Tmps, log: Log)
    requires r < parent && Setting(w, c, env) && Regular(c, r) && BoxFine(c, r) && BoxClean(c, r)
    requires Fresh(gl, n) && Realizes(w, gl, env, t, log, AsBox(ra))
    ensures Realizes(w, ShortCircuitFinish(isAnd, gl, Boxed(c, r, gl.next + 2)), env, t, log,
                     AsBox(if ra.Ok? && Truthy(ra.v) == isAnd then Eval(w, r, env, ra.log) else ra))
    decreases parent, 0, 0
  {
    var gr := Boxed(c, r, gl.next + 2);
    BoxedCleanIff(c, r, gl.next + 2);
    var rb := ra;
    if ra.Ok? {
      rb := Eval(w, r, env, ra.log);
      BoxedIsCorrect(w, c, r, gl.next + 2, env, Exec(w, gl.out, env, t, log).t[gl.next := B(ra.v)], ra.log);
    }
    SidesJoin(w, isAnd, gl, gr, n, env, t, log, ra, rb);
  }

  lemma SidesJoin(w: World, isAnd: bool, gl: Gen, gr: Gen, n: nat, env: Env, t: Tmps, log: Log, ra: Res<Value>, rb: Res<Value>)
    requires gl.res.Some? && gr.res.Some? && Fresh(gl, n)
    requires Realizes(w, gl, env, t, log, AsBox(ra))
    requires ra.Ok? && Truthy(ra.v) == isAnd ==>
               Realizes(w, gr, env, Exec(w, gl.out, env, t, log).t[gl.next := B(ra.v)], ra.log, AsBox(rb))
    ensures Realizes(w, ShortCircuitFinish(isAnd, gl, gr), env, t, log,
                     AsBox(if ra.Ok? && Truthy(ra.v) == isAnd then rb else ra))
  {
    ShortCircuitYields(w, isAnd, gl, gr, n, env, t, log, AsBox(ra), AsBox(rb));
  }

  lemma {:induction false} BoxedArithIsCorrect(w: World, c: Ctx, op: ArithOp, l: Exp, r: Exp, n: nat, env: Env, t: Tmps, log: Log)
    requires var e := Arith(op, l, r);
             Setting(w, c, env) && Regular(c, e) && BoxFine(c, e) && BoxClean(c, e)
    ensures var e := Arith(op, l, r); Realizes(w, Boxed(c, e, n), env, t, log, AsBox(Eval(w, e, env, log)))
    decreases Arith(op, l, r), 1
  {
    var lt, rt := GetType(c, l), GetType(c, r);
    if IsNum(lt) && IsNum(rt) {
      var gl := Numeric(c, l, n);
      var ty := ArithType(op, lt, rt);
      var g := ArithFinish(op, lt, rt, ty, gl, Numeric(c, r, gl.next));
      NumericArithIsCorrect(w, c, op, l, r, ty, n, env, t, log);
      TypeSound(w, c, Arith(op, l, r), env, log);
      BoxYields(w, ty, g, env, t, log, AsNum(Eval(w, Arith(op, l, r), env, log)));
    } else {
      BoxedPair(w, c, Arith(op, l, r), l, r, n, env, t, log);
      var ra := Eval(w, l, env, log);
      var rb := if ra.Ok? then Eval(w, r, env, ra.log) else ra;
      BoxedTwoYields(w, Boxed(c, l, n), Boxed(c, r, Boxed(c, l, n).next), OpArith(op), env, t, log, AsBox(ra), AsBox(rb));
    }
  }

  lemma {:induction false} BoxedCmpIsCorrect(w: World, c: Ctx, cmp: CmpOp, l: Exp, r: Exp, n: nat, env: Env, t: Tmps, log: Log)
    requires var e := Cmp(cmp, l, r);
             Setting(w, c, env) && Regular(c, e) && BoxFine(c, e) && BoxClean(c, e)
    ensures var e := Cmp(cmp, l, r); Realizes(w, Boxed(c, e, n), env, t, log, AsBox(Eval(w, e, env, log)))
    decreases Cmp(cmp, l, r), 1
  {
    if IsNum(GetType(c, l)) && IsNum(GetType(c, r)) {
      BoxedNativeCmpIsCorrect(w, c, cmp, l, r, n, env, t, log);
    } else {
      assert Boxed(c, Cmp(cmp, l, r), n) == BoxedCompare(c, cmp, l, r, n);
      BoxedPair(w, c, Cmp(cmp, l, r), l, r, n, env, t, log);
      var ra := Eval(w, l, env, log);
      var rb := if ra.Ok? then Eval(w, r, env, ra.log) else ra;
      BoxedTwoYields(w, Boxed(c, l, n), Boxed(c, r, Boxed(c, l, n).next), OpCompare(cmp), env, t, log, AsBox(ra), AsBox(rb));
    }
  }

  lemma SetBoolYields(w: World, g: Gen, env: Env, t: Tmps, log: Log, src: Res<Value>)
    requires Realizes(w, g, env, t, log, AsTruth(src)) && (src.Ok? ==> src.v.Bool?)
    ensures Realizes(w, Emit(g, SSetBool(g.next, g.res.value)), env, t, log, AsBox(src))
  {
    ExecSnoc(w, g.out, SSetBool(g.next, g.res.value), env, t, log);
  }

  lemma {:induction false} BoxedNativeCmpIsCorrect(w: World, c: Ctx, cmp: CmpOp, l: Exp, r: Exp, n: nat,
                                                   env: Env, t: Tmps, log: Log)
    requires var e := Cmp(cmp, l, r);
             Setting(w, c, env) && Regular(c, e) && BoxFine(c, e) && BoxClean(c, e)
    requires IsNum(GetType(c, l)) && IsNum(GetType(c, r))
    ensures var e := Cmp(cmp, l, r); Realizes(w, Boxed(c, e, n), env, t, log, AsBox(Eval(w, e, env, log)))
    decreases Cmp(cmp, l, r), 0, 2
  {
    var gl := Numeric(c, l, n);
    var gr := Numeric(c, r, gl.next);
    var g := CompareFinish(cmp, GetType(c, l), GetType(c, r), gl, gr);
    NativeCmpIsCorrect(w, c, cmp, l, r, n, env, t, log);
    SetBoolYields(w, g, env, t, log, Eval(w, Cmp(cmp, l, r), env, log));
  }

  /** Evaluating an expression without calls records no call. */
  lemma {:induction false} CallFreeIsSilent(w: World, e: Exp, env: Env, log: Log)
    requires CallFree(e)
    ensures Eval(w, e, env, log).log == log
    decreases e
  {
    match e
    case Paren(e1) => CallFreeIsSilent(w, e1, env, log);
    case Arith(_, l, r) => CallFreeIsSilent(w, l, env, log); CallFreeIsSilent(w, r, env, log);
    case Cmp(_, l, r) => CallFreeIsSilent(w, l, env, log); CallFreeIsSilent(w, r, env, log);
    case And(l, r) => CallFreeIsSilent(w, l, env, log); CallFreeIsSilent(w, r, env, log);
    case Or(l, r) => CallFreeIsSilent(w, l, env, log); CallFreeIsSilent(w, r, env, log);
    case Neg(e1) => CallFreeIsSilent(w, e1, env, log);
    case Compl(e1) => CallFreeIsSilent(w, e1, env, log);
    case Len(e1) => CallFreeIsSilent(w, e1, env, log);
    case Not(e1) => CallFreeIsSilent(w, e1, env, log);
    case _ =>
  }

  /** A discarded first run of the same expression is invisible when it makes no call. */
  lemma DiscardYields(w: World, g: Gen, h: Gen, env: Env, t: Tmps, log: Log, first: Res<CVal>, src: Res<CVal>)
    requires Realizes(w, g, env, t, log, first) && h.res.Some?
    requires first.log == log
    requires first.Err? ==> src == first
    requires first.Ok? ==> Realizes(w, h, env, Exec(w, g.out, env, t, log).t, log, src)
    ensures Realizes(w, After(g, h), env, t, log, src)
  {
    ExecConcat(w, g.out, h.out, env, t, log);
  }

  lemma {:induction false} BoxedUnaryIsCorrect(w: World, c: Ctx, e1: Exp, flip: bool, n: nat, env: Env, t: Tmps, log: Log)
    requires var e := if flip then Compl(e1) else Neg(e1);
             Setting(w, c, env) && Regular(c, e) && BoxFine(c, e) && BoxClean(c, e)
    ensures var e := if flip then Compl(e1) else Neg(e1);
            Realizes(w, Boxed(c, e, n), env, t, log, AsBox(Eval(w, e, env, log)))
    decreases e1, 4
  {
    var ty := GetType(c, e1);
    var src := Eval(w, e1, env, log);
    if IsNum(ty) {
      var g := Numeric(c, e1, n);
      var h := Numeric(c, e1, g.next);
      CallFreeIsSilent(w, e1, env, log);
      TypeSound(w, c, e1, env, log);
      NumericIsCorrect(w, c, e1, n, env, t, log);
      var u := if flip then BoxFinish(TInt, ComplFinish(TInt, h)) else BoxFinish(ty, NegFinish(ty, h));
      var e := if flip then Compl(e1) else Neg(e1);
      if src.Ok? {
        var t1 := Exec(w, g.out, env, t, log).t;
        NumericIsCorrect(w, c, e1, g.next, env, t1, log);
        UnaryEnd(w, flip, ty, h, env, t1, log, src);
      }
      NumericCleanIff(c, e1, g.next);
      DiscardYields(w, g, u, env, t, log, AsNum(src), AsBox(Eval(w, e, env, log)));
    } else {
      BoxedIsCorrect(w, c, e1, n, env, t, log);
      BoxedOneYields(w, Boxed(c, e1, n), if flip then OpCompl else OpNeg, env, t, log, AsBox(src));
    }
  }

  lemma UnaryEnd(w: World, flip: bool, ty: Ty, h: Gen, env: Env, t: Tmps, log: Log, src: Res<Value>)
    requires Realizes(w, h, env, t, log, AsNum(src))
    requires src.Ok? && src.v.Number? && Tag(src.v.n) == ty && (flip ==> ty == TInt)
    ensures var u := if flip then BoxFinish(TInt, ComplFinish(TInt, h)) else BoxFinish(ty, NegFinish(ty, h));
            Realizes(w, u, env, t, log, AsBox(Lift(if flip then ComplValue(src.v) else NegValue(src.v), src.log)))
  {
    if flip {
      ComplYields(w, TInt, h, env, t, log, AsNum(src));
      BoxYields(w, TInt, ComplFinish(TInt, h), env, t, log, Ok(N(I(BitNot(src.v.n.i))), src.log));
    } else {
      NegYields(w, ty, h, env, t, log, AsNum(src));
      BoxYields(w, ty, NegFinish(ty, h), env, t, log,
                Ok(N(if src.v.n.I? then I(Wrap(0 - src.v.n.i)) else F(Negate(src.v.n.f))), src.log));
    }
  }

  lemma {:induction false} BoxedCallIsCorrect(w: World, c: Ctx, f: string, args: Exps, n: nat, env: Env, t: Tmps, log: Log)
    requires var e := Call(f, args);
             Setting(w, c, env) && Regular(c, e) && BoxFine(c, e) && BoxClean(c, e)
    ensures var e := Call(f, args); Realizes(w, Boxed(c, e, n), env, t, log, AsBox(Eval(w, e, env, log)))
    decreases Call(f, args), 1
  {
    var ts := GetTypes(c, args);
    if f in c.funcs && |ts| == c.funcs[f].arity && TDynamic !in ts {
      BoxedSpecIsCorrect(w, c, f, args, n, env, t, log);
    } else {
      BoxedArgsAreCorrect(w, c, args, n, env, t, log);
      DynamicCallYields(w, f, BoxedArgs(c, args, n), env, t, log, EvalAll(w, args, env, log));
    }
  }

  lemma DynamicCallYields(w: World, f: string, ga: GenArgs, env: Env, t: Tmps, log: Log, src: Res<seq<Value>>)
    requires YieldsAll(w, ga, env, t, log, match src case Err(x, h) => Err(x, h) case Ok(vs, h) => Ok(BoxVals(vs), h))
    ensures Realizes(w, Emit(Gen(ga.out, None, ga.next, ga.ok), SCall(ga.next, f, ga.res.value)), env, t, log,
                     AsBox(match src case Err(x, h) => Err(x, h) case Ok(vs, h) => Invoke(w, f, vs, h)))
  {
    ExecSnoc(w, ga.out, SCall(ga.next, f, ga.res.value), env, t, log);
    if src.Ok? { BoxesOfBoxVals(src.v); }
  }

  lemma {:induction false} BoxedSpecIsCorrect(w: World, c: Ctx, f: string, args: Exps, n: nat, env: Env, t: Tmps, log: Log)
    requires var e := Call(f, args);
             Setting(w, c, env) && Regular(c, e) && BoxFine(c, e) && BoxClean(c, e)
    requires f in c.funcs && |GetTypes(c, args)| == c.funcs[f].arity && TDynamic !in GetTypes(c, args)
    ensures var e := Call(f, args); Realizes(w, Boxed(c, e, n), env, t, log, AsBox(Eval(w, e, env, log)))
    decreases Call(f, args), 0, 2
  {
    var ts := GetTypes(c, args);
    SameTypes(c, args);
    NumericCallIsCorrect(w, c, f, args, n, env, t, log);
    TypeSound(w, c, Call(f, args), env, log);
    var ret := (c.funcs[f].ret)(ts);
    var g := NativeCall(c, f, ts, NumericArgs(c, args, n));
    if IsNum(ret) { BoxYields(w, ret, g, env, t, log, AsNum(Eval(w, Call(f, args), env, log))); }
  }

  lemma {:induction false} BoxedArgsAreCorrect(w: World, c: Ctx, es: Exps, n: nat, env: Env, t: Tmps, log: Log)
    requires Setting(w, c, env) && RegularAll(c, es) && BoxFineAll(c, es)
    requires BoxCleanAll(c, es)
    ensures var src := EvalAll(w, es, env, log);
            YieldsAll(w, BoxedArgs(c, es, n), env, t, log,
                      match src case Err(x, h) => Err(x, h) case Ok(vs, h) => Ok(BoxVals(vs), h))
    decreases es, 0
  {
    if es.Exps? {
      var g := Boxed(c, es.head, n);
      var h := BoxedArgs(c, es.tail, g.next);
      BoxedIsFresh(c, es.head, n);
      BoxedArgsAreFresh(c, es.tail, g.next);
      BoxedIsCorrect(w, c, es.head, n, env, t, log);
      var ra := Eval(w, es.head, env, log);
      var rb: Res<seq<CVal>> := Ok([], log);
      if ra.Ok? {
        var r := Exec(w, g.out, env, t, log);
        BoxedArgsAreCorrect(w, c, es.tail, g.next, env, r.t, r.log);
        rb := match EvalAll(w, es.tail, env, ra.log) case Err(x, h) => Err(x, h) case Ok(vs, h) => Ok(BoxVals(vs), h);
      }
      BoxedArgsCleanIff(c, es.tail, g.next);
      ConsYields(w, g, h, n, env, t, log, AsBox(ra), rb);
      ConsOfNumVals(w, es, env, log);
      assert YieldsAll(w, GenArgs(g.out + h.out, Some([g.res.value] + h.res.value), h.next, g.ok && h.ok),
                       env, t, log, ConsRes(AsBox(ra), rb));
    }
  }
}
