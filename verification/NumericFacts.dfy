/** Where the expression generator departs from Lua, and exactly when it does not. */
module NumericFacts {
  import opened Options
  import opened Machine
  import opened LuaExp
  import opened CTarget
  import opened NumericGen
  import opened NumericFresh
  import opened NumericCorrect
  import opened NumericSteps
  import opened NumericTheorem
  import opened CleanCode
  import opened Guards
  import opened Conditions

  /** What a generated piece yields is unique. */
  lemma YieldsOnce(w: World, g: Gen, env: Env, t: Tmps, log: Log, one: Res<CVal>, two: Res<CVal>)
    requires Realizes(w, g, env, t, log, one)
    ensures Realizes(w, g, env, t, log, two) <==> one == two
  {
  }

  // ----- `q and a or b` with numbers of different types -----

  /** Which numbers a double holds unchanged. */
  lemma TakenStored(w: World, c: Ctx, taken: Exp, env: Env, log: Log)
    requires Setting(w, c, env) && Regular(c, taken) && IsNum(Infer(c, taken))
    ensures var r := Eval(w, taken, env, log);
            Stored(w.fpu, TFloat, AsNum(r)) == AsNum(r) <==> r.Err? || Infer(c, taken) == TFloat
  {
    TypeSound(w, c, taken, env, log);
    StoredIff(w.fpu, Eval(w, taken, env, log));
  }

  lemma ChooseTakes(w: World, q: Exp, a: Exp, b: Exp, env: Env, log: Log)
    ensures var cond := Eval(w, q, env, log);
            Choose(w, q, a, b, env, log) == if cond.Err? then cond else Eval(w, if Truthy(cond.v) then a else b, env, cond.log)
  {
  }

  /** Which choices it does. */
  lemma MixedStored(w: World, c: Ctx, q: Exp, a: Exp, b: Exp, env: Env, log: Log)
    requires Setting(w, c, env) && Regular(c, a) && Regular(c, b) && IsNum(Infer(c, a)) && IsNum(Infer(c, b))
    ensures var src := AsNum(Choose(w, q, a, b, env, log));
            var cond := Eval(w, q, env, log);
            Stored(w.fpu, TFloat, src) == src <==>
            cond.Err? || var taken := if Truthy(cond.v) then a else b;
                         Infer(c, taken) == TFloat || Eval(w, taken, env, cond.log).Err?
  {
    ChooseTakes(w, q, a, b, env, log);
    var cond := Eval(w, q, env, log);
    if cond.Ok? { TakenStored(w, c, if Truthy(cond.v) then a else b, env, cond.log); }
  }

  lemma StoredIff(fpu: Fpu, r: Res<Value>)
    requires r.Ok? ==> r.v.Number?
    ensures Stored(fpu, TFloat, AsNum(r)) == AsNum(r) <==> r.Err? || r.v.n.F?
  {
  }

  lemma MixedCode(c: Ctx, q: Exp, a: Exp, b: Exp, n: nat)
    requires IsNum(Infer(c, a)) && IsNum(Infer(c, b)) && Infer(c, a) != Infer(c, b)
    ensures var gc := TernaryCond(c, q, n);
            var g1 := Numeric(c, a, gc.next + 1);
            Numeric(c, Or(And(q, a), b), n) == TernaryFinish(TFloat, gc, gc.next, g1, Numeric(c, b, g1.next))
  {
  }

  lemma MixedRuns(w: World, c: Ctx, q: Exp, a: Exp, b: Exp, n: nat, env: Env, t: Tmps, log: Log)
    requires Setting(w, c, env) && Regular(c, q) && Regular(c, a) && Regular(c, b)
    requires CondFine(c, q) && NumFine(c, a) && NumFine(c, b)
    requires IsNum(Infer(c, a)) && IsNum(Infer(c, b)) && Infer(c, a) != Infer(c, b)
    requires NumClean(c, Or(And(q, a), b))
    ensures Realizes(w, Numeric(c, Or(And(q, a), b), n), env, t, log, Stored(w.fpu, TFloat, AsNum(Choose(w, q, a, b, env, log))))
  {
    MixedCode(c, q, a, b, n);
    TernaryIsCorrect(w, c, Or(And(q, a), b), TFloat, q, a, b, n, env, t, log);
  }

  /** The temporary of the emitted ternary is a double when the branches differ in type, so the emitted code is Lua's
      exactly when the condition raises, or selects the branch of float type, or the branch it selects raises. */
  lemma MixedTernaryIff(w: World, c: Ctx, q: Exp, a: Exp, b: Exp, n: nat, env: Env, t: Tmps, log: Log)
    requires Setting(w, c, env) && Regular(c, q) && Regular(c, a) && Regular(c, b)
    requires CondFine(c, q) && NumFine(c, a) && NumFine(c, b)
    requires IsNum(Infer(c, a)) && IsNum(Infer(c, b)) && Infer(c, a) != Infer(c, b)
    requires NumClean(c, Or(And(q, a), b))
    ensures var e := Or(And(q, a), b);
            var cond := Eval(w, q, env, log);
            Realizes(w, Numeric(c, e, n), env, t, log, AsNum(Eval(w, e, env, log))) <==>
            cond.Err? || var taken := if Truthy(cond.v) then a else b;
                         Infer(c, taken) == TFloat || Eval(w, taken, env, cond.log).Err?
  {
    var e := Or(And(q, a), b);
    MixedRuns(w, c, q, a, b, n, env, t, log);
    TernaryIsChoose(w, c, q, a, b, env, log);
    MixedStored(w, c, q, a, b, env, log);
    var src := AsNum(Choose(w, q, a, b, env, log));
    YieldsOnce(w, Numeric(c, e, n), env, t, log, Stored(w.fpu, TFloat, src), src);
  }

  /** `true and 1 or 2.5` is the integer 1 in Lua and a float in the emitted C. */
  lemma MixedTernaryLosesTheTag(w: World, c: Ctx, env: Env, t: Tmps, log: Log)
    requires Setting(w, c, env)
    ensures var e := Or(And(TrueExp, Lit(I(1))), Lit(F(Fin(2.5))));
            && Eval(w, e, env, log) == Ok(Number(I(1)), log)
            && Realizes(w, Numeric(c, e, 0), env, t, log, Ok(N(F((w.fpu.fromInt)(1))), log))
  {
    var q, a, b := TrueExp, Lit(I(1)), Lit(F(Fin(2.5)));
    assert NumClean(c, Or(And(q, a), b)) && CondFine(c, q) && NumFine(c, a) && NumFine(c, b);
    MixedRuns(w, c, q, a, b, 0, env, t, log);
    ChoosesOne(w, env, log);
    TernaryIsChoose(w, c, q, a, b, env, log);
  }

  lemma ChoosesOne(w: World, env: Env, log: Log)
    ensures Choose(w, TrueExp, Lit(I(1)), Lit(F(Fin(2.5))), env, log) == Ok(Number(I(1)), log)
  {
  }

  // ----- how far the conditions reach -----

  /** No unary minus or complement, no `c and a or b` with branches of two types, no negative literal, and no call of a
      specialised function. */
  predicate Simple(c: Ctx, e: Exp)
  {
    match e
    case Lit(n) => n.I? ==> n.i >= 0
    case Paren(e1) => Simple(c, e1)
    case Arith(_, l, r) => Simple(c, l) && Simple(c, r)
    case Cmp(_, l, r) => Simple(c, l) && Simple(c, r)
    case And(l, r) => Simple(c, l) && Simple(c, r)
    case Or(l, r) =>
      Simple(c, l) && Simple(c, r) && !(l.And? && IsNum(Infer(c, l.r)) && IsNum(Infer(c, r)) && Infer(c, l.r) != Infer(c, r))
    case Neg(_) => false
    case Compl(_) => false
    case Len(e1) => Simple(c, e1)
    case Not(e1) => Simple(c, e1)
    case Call(f, args) => f !in c.funcs && AllSimple(c, args)
    case _ => true
  }

  predicate AllSimple(c: Ctx, es: Exps) { es.Exps? ==> Simple(c, es.head) && AllSimple(c, es.tail) }

  /** All such expressions that compile meet the conditions of the simulation theorems, in native, boxed and guard
      position. */
  lemma {:induction false} SimpleIsFine(c: Ctx, e: Exp)
    requires Simple(c, e)
    ensures Regular(c, e)
    ensures (NumClean(c, e) ==> NumFine(c, e)) && (BoxClean(c, e) ==> BoxFine(c, e)) && (BoolClean(c, e) ==> BoolFine(c, e))
    ensures CondClean(c, e) ==> CondFine(c, e)
    decreases e
  {
    match e
    case Paren(e1) => SimpleIsFine(c, e1);
    case Arith(_, l, r) => SimpleIsFine(c, l); SimpleIsFine(c, r);
    case Cmp(_, l, r) => SimpleIsFine(c, l); SimpleIsFine(c, r);
    case And(l, r) => SimpleIsFine(c, l); SimpleIsFine(c, r);
    case Or(l, r) =>
      SimpleIsFine(c, l);
      SimpleIsFine(c, r);
      if l.And? { SimpleIsFine(c, l.l); SimpleIsFine(c, l.r); }
    case Len(e1) => SimpleIsFine(c, e1);
    case Not(e1) => SimpleIsFine(c, e1);
    case Call(_, args) => AllSimpleAreFine(c, args);
    case _ =>
  }

  lemma {:induction false} SimpleGuardIsFine(c: Ctx, e: Exp)
    requires Simple(c, e) && GuardClean(c, e)
    ensures GuardFine(c, e)
  {
    SimpleIsFine(c, e);
    if !BoolShape(c, e) {
      StripIsSimple(c, e);
      match StripParens(e)
      case Not(e1) => SimpleGuardIsFine(c, e1);
      case Cmp(_, l, r) => SimpleIsFine(c, l); SimpleIsFine(c, r);
      case _ =>
    }
  }

  lemma {:induction false} StripIsSimple(c: Ctx, e: Exp)
    requires Simple(c, e)
    ensures Simple(c, StripParens(e))
  {
    if e.Paren? { StripIsSimple(c, e.e); }
  }

  lemma {:induction false} AllSimpleAreFine(c: Ctx, es: Exps)
    requires AllSimple(c, es)
    ensures RegularAll(c, es) && (BoxCleanAll(c, es) ==> BoxFineAll(c, es))
    decreases es
  {
    if es.Exps? {
      SimpleIsFine(c, es.head);
      AllSimpleAreFine(c, es.tail);
    }
  }

  // ----- boxed unary operators -----

  /** A boxed `-e` on a native operand evaluates `e`, drops the value, and evaluates `e` again. */
  lemma BoxedNegRunsTwice(w: World, c: Ctx, e1: Exp, n: nat, env: Env, t: Tmps, log: Log)
    requires Setting(w, c, env) && Regular(c, e1) && NumFine(c, e1) && IsNum(GetType(c, e1))
    requires BoxClean(c, Neg(e1))
    ensures var first := Eval(w, e1, env, log);
            Realizes(w, Boxed(c, Neg(e1), n), env, t, log,
                     if first.Err? then Err(first.e, first.log) else AsBox(Eval(w, Neg(e1), env, first.log)))
  {
    var ty := GetType(c, e1);
    var g := Numeric(c, e1, n);
    var h := Numeric(c, e1, g.next);
    var first := Eval(w, e1, env, log);
    NumericCleanIff(c, e1, g.next);
    NumericIsCorrect(w, c, e1, n, env, t, log);
    if first.Ok? {
      var t1 := Exec(w, g.out, env, t, log).t;
      NumericIsCorrect(w, c, e1, g.next, env, t1, first.log);
      NegBoxed(w, c, e1, h, env, t1, first.log);
    }
    ExecConcat(w, g.out, BoxFinish(ty, NegFinish(ty, h)).out, env, t, log);
  }

  lemma NegBoxed(w: World, c: Ctx, e1: Exp, h: Gen, env: Env, t: Tmps, log: Log)
    requires Setting(w, c, env) && Regular(c, e1) && IsNum(GetType(c, e1))
    requires Realizes(w, h, env, t, log, AsNum(Eval(w, e1, env, log)))
    ensures var ty := GetType(c, e1);
            Realizes(w, BoxFinish(ty, NegFinish(ty, h)), env, t, log, AsBox(Eval(w, Neg(e1), env, log)))
  {
    var ty := GetType(c, e1);
    var src := Eval(w, e1, env, log);
    TypeSound(w, c, e1, env, log);
    UnaryNative(w, ty, h, false, env, t, log, src);
    NegUnfolds(w, e1, env, log);
    BoxYields(w, ty, NegFinish(ty, h), env, t, log, AsNum(Eval(w, Neg(e1), env, log)));
  }

  lemma NegUnfolds(w: World, e1: Exp, env: Env, log: Log)
    ensures var r := Eval(w, e1, env, log);
            Eval(w, Neg(e1), env, log) == if r.Err? then r else Lift(NegValue(r.v), r.log)
  {
  }

  /** So a boxed `-e` is Lua's exactly when evaluating `e` raises or makes no call. */
  lemma BoxedNegIff(w: World, c: Ctx, e1: Exp, n: nat, env: Env, t: Tmps, log: Log)
    requires Setting(w, c, env) && Regular(c, e1) && NumFine(c, e1) && IsNum(GetType(c, e1))
    requires BoxClean(c, Neg(e1))
    ensures Realizes(w, Boxed(c, Neg(e1), n), env, t, log, AsBox(Eval(w, Neg(e1), env, log))) <==>
            var r := Eval(w, e1, env, log); r.Err? || r.log == log
  {
    BoxedNegRunsTwice(w, c, e1, n, env, t, log);
    var first := Eval(w, e1, env, log);
    var run: Res<CVal> := if first.Err? then Err(first.e, first.log) else AsBox(Eval(w, Neg(e1), env, first.log));
    YieldsOnce(w, Boxed(c, Neg(e1), n), env, t, log, run, AsBox(Eval(w, Neg(e1), env, log)));
    SilentEverywhere(w, e1, env, first.log, log);
    TypeSound(w, c, e1, env, log);
  }

  /** A boxed `~e` on a native operand runs `e` twice as well, and truncates a float where Lua demands an exact
      integer: it is Lua's exactly when `e` raises, or makes no call and is an integer or a float with an exact
      integer value. */
  lemma BoxedComplIff(w: World, c: Ctx, e1: Exp, n: nat, env: Env, t: Tmps, log: Log)
    requires Setting(w, c, env) && Regular(c, e1) && NumFine(c, e1) && IsNum(GetType(c, e1))
    requires BoxClean(c, Compl(e1))
    ensures Realizes(w, Boxed(c, Compl(e1), n), env, t, log, AsBox(Eval(w, Compl(e1), env, log))) <==>
            var r := Eval(w, e1, env, log);
            r.Err? || (r.log == log && (GetType(c, e1) == TInt || (IsFloat(r.v) && ToInt(r.v.n.f).Some?)))
  {
    var g := Numeric(c, e1, n);
    var h := Numeric(c, e1, g.next);
    var u := BoxFinish(TInt, ComplFinish(TInt, h));
    ComplCode(c, e1, n);
    var first := Eval(w, e1, env, log);
    TypeSound(w, c, e1, env, log);
    NumericIsCorrect(w, c, e1, n, env, t, log);
    ExecConcat(w, g.out, u.out, env, t, log);
    if first.Ok? {
      var t1 := Exec(w, g.out, env, t, log).t;
      NumericIsCorrect(w, c, e1, g.next, env, t1, first.log);
      SilentEverywhere(w, e1, env, first.log, log);
      TypeSound(w, c, e1, env, first.log);
      SecondRun(w, GetType(c, e1), h, env, t1, first.log, Eval(w, e1, env, first.log));
    }
  }

  lemma ComplCode(c: Ctx, e1: Exp, n: nat)
    requires IsNum(GetType(c, e1)) && BoxClean(c, Compl(e1))
    ensures var g := Numeric(c, e1, n);
            var h := Numeric(c, e1, g.next);
            NumClean(c, e1) && h.res.Some? && Boxed(c, Compl(e1), n) == After(g, BoxFinish(TInt, ComplFinish(TInt, h)))
  {
    NumericCleanIff(c, e1, n);
    NumericCleanIff(c, e1, Numeric(c, e1, n).next);
  }

  /** The flip of the second run keeps the log, and is Lua's exactly for an integer or a float of integer value. */
  lemma SecondRun(w: World, ty: Ty, h: Gen, env: Env, t: Tmps, log: Log, src: Res<Value>)
    requires Realizes(w, h, env, t, log, AsNum(src)) && IsNum(ty)
    requires src.Ok? ==> src.v.Number? && Tag(src.v.n) == ty
    ensures var u := BoxFinish(TInt, ComplFinish(TInt, h));
            var r := Exec(w, u.out, env, t, log);
            && (!r.Stuck? ==> r.log == src.log)
            && (src.Ok? ==> (Realizes(w, u, env, t, log, AsBox(Lift(ComplValue(src.v), src.log))) <==>
                             ty == TInt || ToInt(src.v.n.f).Some?))
  {
    FlipKeepsLog(w, h, env, t, log, src);
    if src.Ok? {
      if ty == TInt { UnaryEnd(w, true, TInt, h, env, t, log, src); } else { TruncatedFlip(w, h, env, t, log, src); }
    }
  }

  predicate IsFloat(v: Value) { v.Number? && v.n.F? }

  /** The statement after the operand makes no call. */
  lemma FlipKeepsLog(w: World, h: Gen, env: Env, t: Tmps, log: Log, src: Res<Value>)
    requires Realizes(w, h, env, t, log, AsNum(src))
    ensures var r := Exec(w, BoxFinish(TInt, ComplFinish(TInt, h)).out, env, t, log); !r.Stuck? ==> r.log == src.log
  {
    var e := CUn(Flip, CUn(CastToInt, h.res.value));
    ExecSnoc(w, h.out, SSet(h.next, CUn(Box(TInt), e)), env, t, log);
  }

  lemma TruncatedFlip(w: World, h: Gen, env: Env, t: Tmps, log: Log, src: Res<Value>)
    requires src.Ok? && src.v.Number? && src.v.n.F? && Realizes(w, h, env, t, log, AsNum(src))
    ensures var d := src.v.n.f;
            Realizes(w, BoxFinish(TInt, ComplFinish(TInt, h)), env, t, log, AsBox(Lift(ComplValue(src.v), src.log))) <==> ToInt(d).Some?
  {
    var d := src.v.n.f;
    var e := CUn(Flip, CUn(CastToInt, h.res.value));
    ExecSnoc(w, h.out, SSet(h.next, CUn(Box(TInt), e)), env, t, log);
    var r := Exec(w, h.out, env, t, log);
    assert EvalC(w, CUn(CastToInt, h.res.value), env, r.t) == (match CastInt(F(d)) case Some(i) => Some(N(I(i))) case None => None);
    if ToInt(d).Some? {
      ExactTruncates(d);
      assert EvalC(w, e, env, r.t) == Some(N(I(BitNot(ToInt(d).value))));
    } else {
      assert ComplValue(src.v) == Fault(NoIntegerRepresentation);
    }
  }

  lemma ExactTruncates(d: Double)
    requires ToInt(d).Some?
    ensures CastInt(F(d)) == ToInt(d)
  {
    if d.Fin? && d.r < 0.0 { assert (-d.r).Floor == -(d.r.Floor); }
  }

  // ----- captured arguments of a specialised call -----

  lemma PassOneIff(fpu: Fpu, ty: Ty, n: Num)
    requires IsNum(ty)
    ensures PassAs(fpu, ty, N(n)) == Some(Number(n)) <==> ty == Tag(n)
  {
  }

  /** Native numbers arrive unchanged exactly in a variant whose parameter types are their tags. */
  lemma {:induction false} PassIff(fpu: Fpu, sig: seq<Ty>, ts: seq<Ty>, vs: seq<Value>)
    requires Typed(vs, ts) && |sig| == |ts| && TDynamic !in sig
    ensures PassAll(fpu, sig, NumVals(vs)) == Some(vs) <==> sig == ts
  {
    if vs != [] {
      assert Typed(vs[1..], ts[1..]) && Tag(vs[0].n) == ts[0];
      assert sig[0] in sig && TDynamic !in sig[1..];
      PassOneIff(fpu, sig[0], vs[0].n);
      PassIff(fpu, sig[1..], ts[1..], vs[1..]);
      PassCons(fpu, sig[0], sig[1..], N(vs[0].n), NumVals(vs[1..]));
      assert vs == [vs[0]] + vs[1..] && sig == [sig[0]] + sig[1..] && ts == [ts[0]] + ts[1..];
    }
  }

  /** The types of a variant: those of the arguments up to the first dynamic one, integers from there on. */
  lemma {:induction false} MaskTypesAre(ts: seq<Ty>, i: nat)
    requires i < |ts|
    ensures MaskTypes(ts)[i] == if exists j :: 0 <= j <= i && ts[j] == TDynamic then TInt else ts[i]
  {
    var t := ts[1..];
    assert forall j :: 0 <= j < |t| ==> t[j] == ts[j + 1];
    if ts[0] != TDynamic && i > 0 {
      MaskTypesAre(t, i - 1);
      if j :| 0 <= j <= i && ts[j] == TDynamic { assert t[j - 1] == TDynamic; }
    }
  }

  /** A call in a numeric expression selects its variant by the types of the arguments as variables and snapshot give
      them, and takes `int64_t` from the first captured or otherwise dynamically read one on. It is Lua's call exactly
      when that is the variant for the inferred types, or an argument raises: captured integers arrive, a captured
      float, or a float behind a captured argument, does not. */
  lemma SpecCallIff(w: World, c: Ctx, f: string, args: Exps, n: nat, env: Env, t: Tmps, log: Log)
    requires Setting(w, c, env) && RegularAll(c, args) && NumFineAll(c, args)
    requires IsNum(Infer(c, Call(f, args)))
    requires NumCleanAll(c, args)
    ensures Realizes(w, Numeric(c, Call(f, args), n), env, t, log, AsNum(Eval(w, Call(f, args), env, log))) <==>
            EvalAll(w, args, env, log).Err? || MaskTypes(GetTypes(c, args)) == InferAll(c, args)
  {
    var ts, sig := InferAll(c, args), MaskTypes(GetTypes(c, args));
    var g := NumericArgs(c, args, n);
    var src := EvalAll(w, args, env, log);
    TypesInStep(c, args);
    if sig == ts {
      NumericCallIsCorrect(w, c, f, args, n, env, t, log);
    } else {
      ArgsTyped(w, c, args, env, log);
      NumericArgsAreCorrect(w, c, args, n, env, t, log);
      if src.Ok? {
        PassIff(w.fpu, sig, ts, src.v);
        OtherVariantMisses(w, c, f, GetTypes(c, args), g, env, t, log, src.v, src.log);
      } else {
        CallYields(w, c, f, GetTypes(c, args), g, env, t, log, src);
      }
    }
  }

  lemma OtherVariantMisses(w: World, c: Ctx, f: string, ts: seq<Ty>, g: GenArgs, env: Env, t: Tmps, log: Log, vs: seq<Value>, h: Log)
    requires f in c.funcs && g.res.Some? && YieldsAll(w, g, env, t, log, Ok(NumVals(vs), h))
    requires PassAll(w.fpu, MaskTypes(ts), NumVals(vs)) != Some(vs)
    ensures !Realizes(w, NativeCall(c, f, ts, g), env, t, log, AsNum(Invoke(w, f, vs, h)))
  {
    var sig := MaskTypes(ts);
    var r := Exec(w, g.out, env, t, log);
    ExecSnoc(w, g.out, SCallSpec(g.next, f, sig, g.res.value, (c.funcs[f].ret)(sig)), env, t, log);
    SpecCallLogs(w, g.next, f, sig, g.res.value, (c.funcs[f].ret)(sig), env, r.t, h, NumVals(vs));
    var passed := PassAll(w.fpu, sig, NumVals(vs));
    assert Invoke(w, f, vs, h).log == h + [Called(f, vs)] && (h + [Called(f, vs)])[|h|] == Called(f, vs);
    if passed.Some? { assert (h + [Called(f, passed.value)])[|h|] == Called(f, passed.value); }
  }

  /** What a specialised call is seen to pass. */
  lemma SpecCallLogs(w: World, k: nat, f: string, sig: seq<Ty>, args: seq<CExp>, ret: Ty, env: Env, t: Tmps, log: Log, vs: seq<CVal>)
    requires EvalCs(w, args, env, t) == Some(vs)
    ensures var r := ExecStmt(w, SCallSpec(k, f, sig, args, ret), env, t, log);
            var passed := PassAll(w.fpu, sig, vs);
            r.Stuck? || (passed.Some? && r.log == log + [Called(f, passed.value)])
  {
  }

  /** `f(x)` inside a numeric expression, `x` a captured float: the argument type is not looked up further
      and the integer specialisation is called, with the value truncated. */
  lemma CapturedFloatReachesIntegerCallee(w: World, c: Ctx, env: Env, t: Tmps, n: nat, log: Log)
    requires HostTyped(w, c)
    requires c.funcs.Keys == {"f"} && c.funcs["f"].arity == 1 && forall ts :: (c.funcs["f"].ret)(ts) == TInt
    requires c.vars == map["x" := VarInfo(TFloat, true)]
    requires env == Env(map[], map["x" := Number(F(Fin(2.5)))])
    ensures var e := Call("f", Exps(Var("x"), NoExps));
            && Infer(c, e) == TInt
            && Numeric(c, e, n).res.Some?
            && var run := Exec(w, Numeric(c, e, n).out, env, t, log);
            && !run.Stuck? && run.log == log + [Called("f", [Number(I(2))])]
            && Eval(w, e, env, log).log == log + [Called("f", [Number(F(Fin(2.5)))])]
  {
    CapturedArgumentCompiles(c, n);
    TruncatingCallRuns(w, c, env, t, n, log);
    LuaPassesTheFloat(w, env, log);
  }

  lemma TruncatingCallRuns(w: World, c: Ctx, env: Env, t: Tmps, n: nat, log: Log)
    requires HostTyped(w, c)
    requires c.funcs.Keys == {"f"} && c.funcs["f"].arity == 1 && forall ts :: (c.funcs["f"].ret)(ts) == TInt
    requires env == Env(map[], map["x" := Number(F(Fin(2.5)))])
    ensures var run := Exec(w, [SCallSpec(n, "f", [TInt], [CField("x", true)], TInt)], env, t, log);
            !run.Stuck? && run.log == log + [Called("f", [Number(I(2))])]
  {
    var call := SCallSpec(n, "f", [TInt], [CField("x", true)], TInt);
    assert EvalC(w, CField("x", true), env, t) == Some(N(F(Fin(2.5))));
    TruncatedArgument(w, CField("x", true), env, t);
    CalleeReturnsInteger(w, c, log);
    SpecCallLogs(w, n, "f", [TInt], [CField("x", true)], TInt, env, t, log, [N(F(Fin(2.5)))]);
    ExecSnoc(w, [], call, env, t, log);
    assert [] + [call] == [call];
  }

  lemma CapturedArgumentCompiles(c: Ctx, n: nat)
    requires c.funcs.Keys == {"f"} && c.funcs["f"].arity == 1 && forall ts :: (c.funcs["f"].ret)(ts) == TInt
    requires c.vars == map["x" := VarInfo(TFloat, true)]
    ensures var e := Call("f", Exps(Var("x"), NoExps));
            && Infer(c, e) == TInt && Numeric(c, e, n).res.Some?
            && Numeric(c, e, n).out == [SCallSpec(n, "f", [TInt], [CField("x", true)], TInt)]
  {
    var args := Exps(Var("x"), NoExps);
    var x := CField("x", true);
    assert InferAll(c, NoExps) == [] && GetTypes(c, NoExps) == [];
    assert InferAll(c, args) == [TFloat] && GetTypes(c, args) == [TDynamic];
    assert MaskTypes([TDynamic]) == [TInt];
    assert Numeric(c, Var("x"), n) == Plainly(x, n);
    assert NumericArgs(c, NoExps, n) == GenArgs([], Some([]), n, true);
    assert [x] + [] == [x];
    assert NumericArgs(c, args, n) == GenArgs([], Some([x]), n, true);
    assert [] + [SCallSpec(n, "f", [TInt], [x], TInt)] == [SCallSpec(n, "f", [TInt], [x], TInt)];
  }

  lemma TruncatedArgument(w: World, x: CExp, env: Env, t: Tmps)
    requires EvalC(w, x, env, t) == Some(N(F(Fin(2.5))))
    ensures EvalCs(w, [x], env, t) == Some([N(F(Fin(2.5)))])
    ensures PassAll(w.fpu, [TInt], [N(F(Fin(2.5)))]) == Some([Number(I(2))])
  {
    assert EvalCs(w, [], env, t) == Some([]);
    assert [x][1..] == [];
    assert PassAll(w.fpu, [], []) == Some([]);
    assert [N(F(Fin(2.5)))][1..] == [] && [TInt][1..] == [];
    assert CastInt(F(Fin(2.5))) == Some(2);
    assert [N(F(Fin(2.5)))] + [] == [N(F(Fin(2.5)))] && [Number(I(2))] + [] == [Number(I(2))];
  }

  lemma CalleeReturnsInteger(w: World, c: Ctx, log: Log)
    requires HostTyped(w, c)
    requires "f" in c.funcs && c.funcs["f"].arity == 1 && (c.funcs["f"].ret)([TInt]) == TInt
    ensures var r := (w.host)("f", [Number(I(2))], log); r.Returns? ==> r.v.Number? && Tag(r.v.n) == TInt
  {
    assert Typed([Number(I(2))], [TInt]);
  }

  lemma LuaPassesTheFloat(w: World, env: Env, log: Log)
    requires env == Env(map[], map["x" := Number(F(Fin(2.5)))])
    ensures Eval(w, Call("f", Exps(Var("x"), NoExps)), env, log).log == log + [Called("f", [Number(F(Fin(2.5)))])]
  {
    assert EvalAll(w, NoExps, env, log) == Ok([], log);
    assert Eval(w, Var("x"), env, log) == Ok(Number(F(Fin(2.5))), log);
    assert [Number(F(Fin(2.5)))] + [] == [Number(F(Fin(2.5)))];
    assert EvalAll(w, Exps(Var("x"), NoExps), env, log) == Ok([Number(F(Fin(2.5)))], log);
  }
}
