/** The emitted statements followed by the returned C expression compute what Lua evaluation computes. */
module NumericCorrect {
  import opened Options
  import opened Machine
  import opened LuaExp
  import opened CTarget
  import opened NumericGen
  import opened NumericFresh

  // ----- the conditions under which it holds, all read off the source expression -----

  /** Literals are non-negative, as the lexer delivers them, and the two branches of every numeric
      `c and a or b` have the same inferred type. */
  predicate Regular(c: Ctx, e: Exp)
  {
    match e
    case Lit(n) => n.I? ==> n.i >= 0
    case Paren(e1) => Regular(c, e1)
    case Arith(_, l, r) => Regular(c, l) && Regular(c, r)
    case Cmp(_, l, r) => Regular(c, l) && Regular(c, r)
    case And(l, r) => Regular(c, l) && Regular(c, r)
    case Or(l, r) =>
      && Regular(c, l) && Regular(c, r)
      && (l.And? && IsNum(Infer(c, l.r)) && IsNum(Infer(c, r)) ==> Infer(c, l.r) == Infer(c, r))
    case Neg(e1) => Regular(c, e1)
    case Compl(e1) => Regular(c, e1)
    case Len(e1) => Regular(c, e1)
    case Not(e1) => Regular(c, e1)
    case Call(_, args) => RegularAll(c, args)
    case _ => true
  }

  predicate RegularAll(c: Ctx, es: Exps)
  {
    es.Exps? ==> Regular(c, es.head) && RegularAll(c, es.tail)
  }

  predicate CallFree(e: Exp)
  {
    match e
    case Paren(e1) => CallFree(e1)
    case Arith(_, l, r) => CallFree(l) && CallFree(r)
    case Cmp(_, l, r) => CallFree(l) && CallFree(r)
    case And(l, r) => CallFree(l) && CallFree(r)
    case Or(l, r) => CallFree(l) && CallFree(r)
    case Neg(e1) => CallFree(e1)
    case Compl(e1) => CallFree(e1)
    case Len(e1) => CallFree(e1)
    case Not(e1) => CallFree(e1)
    case Call(_, _) => false
    case _ => true
  }

  /** Wherever the numeric compiler falls into the boxed one, the boxed unary path is harmless there; and the variant
      a specialised call selects is the one for the inferred types. */
  predicate NumFine(c: Ctx, e: Exp)
    decreases e, 1
  {
    if ConstFold(e).Some? then true
    else match e
      case Paren(e1) => NumFine(c, e1)
      case Call(_, args) => NumFineAll(c, args) && MaskTypes(GetTypes(c, args)) == InferAll(c, args)
      case And(l, r) => NumFine(c, l) && NumFine(c, r)
      case Or(l, r) =>
        if l.And? then CondFine(c, l.l) && NumFine(c, l.r) && (IsNum(Infer(c, r)) ==> NumFine(c, r)) else NumFine(c, l)
      case Arith(_, l, r) => NumFine(c, l) && NumFine(c, r)
      case Neg(e1) => NumFine(c, e1)
      case Compl(e1) => NumFine(c, e1)
      case Len(e1) => BoxFine(c, e1)
      case _ => true
  }

  predicate NumFineAll(c: Ctx, es: Exps)
    decreases es, 0
  {
    es.Exps? ==> NumFine(c, es.head) && NumFineAll(c, es.tail)
  }

  /** The shape NativeBool accepts: a comparison of numerically typed operands under `not` and parentheses. */
  predicate BoolShape(c: Ctx, e: Exp)
  {
    match e
    case Paren(e1) => BoolShape(c, e1)
    case Not(e1) => BoolShape(c, e1)
    case Cmp(_, l, r) => IsNum(GetType(c, l)) && IsNum(GetType(c, r))
    case _ => false
  }

  predicate BoolFine(c: Ctx, e: Exp)
    decreases e, 1
  {
    match e
    case Paren(e1) => BoolFine(c, e1)
    case Not(e1) => BoolFine(c, e1)
    case Cmp(_, l, r) => NumFine(c, l) && NumFine(c, r)
    case _ => true
  }

  predicate CondFine(c: Ctx, e: Exp)
    decreases e, 3
  {
    if BoolShape(c, e) then BoolFine(c, e) else BoxFine(c, e)
  }

  /** A boxed `-e` or `~e` on a numerically typed operand compiles `e` twice, so `e` must not call; and its
      `~` converts a float without checking, so the operand must be an integer. */
  predicate BoxFine(c: Ctx, e: Exp)
    decreases e, 2
  {
    match e
    case Paren(e1) => BoxFine(c, e1)
    case And(l, r) => BoxFine(c, l) && BoxFine(c, r)
    case Or(l, r) => BoxFine(c, l) && BoxFine(c, r)
    case Arith(_, l, r) =>
      if IsNum(GetType(c, l)) && IsNum(GetType(c, r)) then NumFine(c, l) && NumFine(c, r)
      else BoxFine(c, l) && BoxFine(c, r)
    case Cmp(_, l, r) =>
      if IsNum(GetType(c, l)) && IsNum(GetType(c, r)) then NumFine(c, l) && NumFine(c, r)
      else BoxFine(c, l) && BoxFine(c, r)
    case Neg(e1) => if IsNum(GetType(c, e1)) then NumFine(c, e1) && CallFree(e1) else BoxFine(c, e1)
    case Compl(e1) =>
      if IsNum(GetType(c, e1)) then GetType(c, e1) == TInt && NumFine(c, e1) && CallFree(e1) else BoxFine(c, e1)
    case Len(e1) => BoxFine(c, e1)
    case Not(e1) => BoxFine(c, e1)
    case Call(f, args) =>
      var ts := GetTypes(c, args);
      if f in c.funcs && |ts| == c.funcs[f].arity && TDynamic !in ts then NumFineAll(c, args) else BoxFineAll(c, args)
    case _ => true
  }

  predicate BoxFineAll(c: Ctx, es: Exps)
    decreases es, 0
  {
    es.Exps? ==> BoxFine(c, es.head) && BoxFineAll(c, es.tail)
  }

  // ----- what "computes" means -----

  ghost predicate Setting(w: World, c: Ctx, env: Env)
  {
    WellTyped(c, env) && OnlyDeclared(c, env) && HostTyped(w, c)
  }

  function AsNum(r: Res<Value>): Res<CVal>
  {
    match r case Err(e, g) => Err(e, g) case Ok(v, g) => Ok(if v.Number? then N(v.n) else B(v), g)
  }

  function AsBox(r: Res<Value>): Res<CVal>
  {
    match r case Err(e, g) => Err(e, g) case Ok(v, g) => Ok(B(v), g)
  }

  function AsTruth(r: Res<Value>): Res<CVal>
  {
    match r case Err(e, g) => Err(e, g) case Ok(v, g) => Ok(T(Truthy(v)), g)
  }

  /** Running `out` ends as `src` says; on success the expression has `src`'s value afterwards. */
  predicate Yields(w: World, out: seq<Stmt>, e: CExp, env: Env, t: Tmps, log: Log, src: Res<CVal>)
  {
    match src
    case Err(x, g) => Exec(w, out, env, t, log) == Failed(x, g)
    case Ok(v, g) => var r := Exec(w, out, env, t, log); r.Done? && r.log == g && EvalC(w, e, env, r.t) == Some(v)
  }

  predicate Realizes(w: World, g: Gen, env: Env, t: Tmps, log: Log, src: Res<CVal>)
  {
    g.res.Some? && Yields(w, g.out, g.res.value, env, t, log, src)
  }

  /** Two operands in a row: both expressions keep their values until both statement lists have run. */
  predicate YieldsBoth(w: World, out: seq<Stmt>, a: CExp, b: CExp, env: Env, t: Tmps, log: Log, ra: Res<CVal>, rb: Res<CVal>)
  {
    match ra
    case Err(x, g) => Exec(w, out, env, t, log) == Failed(x, g)
    case Ok(va, _) =>
      match rb
      case Err(x, h) => Exec(w, out, env, t, log) == Failed(x, h)
      case Ok(vb, h) =>
        var r := Exec(w, out, env, t, log);
        r.Done? && r.log == h && EvalC(w, a, env, r.t) == Some(va) && EvalC(w, b, env, r.t) == Some(vb)
  }

  lemma Two(w: World, gl: Gen, gr: Gen, n: nat, env: Env, t: Tmps, log: Log, ra: Res<CVal>, rb: Res<CVal>)
    requires Fresh(gl, n) && Fresh(gr, gl.next)
    requires Realizes(w, gl, env, t, log, ra)
    requires gr.res.Some?
    requires ra.Ok? ==> var r := Exec(w, gl.out, env, t, log); Realizes(w, gr, env, r.t, r.log, rb)
    ensures YieldsBoth(w, gl.out + gr.out, gl.res.value, gr.res.value, env, t, log, ra, rb)
  {
    ExecConcat(w, gl.out, gr.out, env, t, log);
    if ra.Ok? && rb.Ok? {
      var r1 := Exec(w, gl.out, env, t, log);
      ExecFrame(w, gr.out, env, r1.t, r1.log, gl.next, gr.next);
      var r2 := Exec(w, gr.out, env, r1.t, r1.log);
      EvalFrame(w, gl.res.value, env, r1.t, r2.t, n, gl.next);
    }
  }

  /** One more statement after a list. */
  lemma ExecSnoc(w: World, out: seq<Stmt>, s: Stmt, env: Env, t: Tmps, log: Log)
    ensures Exec(w, out + [s], env, t, log) ==
      match Exec(w, out, env, t, log)
      case Done(t1, g) => ExecStmt(w, s, env, t1, g)
      case Failed(e, g) => Failed(e, g)
      case Stuck => Stuck
  {
    ExecConcat(w, out, [s], env, t, log);
    match Exec(w, out, env, t, log) {
      case Done(t1, g) => assert [s][1..] == [];
      case _ =>
    }
  }

  // ----- types are sound -----

  lemma {:induction false} FoldIsEval(w: World, c: Ctx, e: Exp, env: Env, log: Log)
    requires Regular(c, e) && ConstFold(e).Some?
    ensures Eval(w, e, env, log) == Ok(Number(ConstFold(e).value), log)
    ensures ConstFold(e).value.I? ==> -MAX <= ConstFold(e).value.i
  {
    if e.Neg? { FoldIsEval(w, c, e.e, env, log); }
  }

  lemma TagOfFold(e: Exp, c: Ctx)
    requires ConstFold(e).Some? && Regular(c, e)
    ensures Infer(c, e) == Tag(ConstFold(e).value)
  {
  }

  lemma ArithNumTag(fpu: Fpu, op: ArithOp, a: Num, b: Num)
    ensures var r := ArithNum(fpu, op, a, b); r.Fine? ==> Tag(r.v) == ArithType(op, Tag(a), Tag(b))
  {
    if IsBitOp(op) {
      BitNumTag(fpu, op, a, b);
    } else if a.I? && b.I? && !op.Div? && !op.Pow? {
      IntNumTag(fpu, op, a, b);
    } else {
      assert ArithNum(fpu, op, a, b) == Fine(F(FloatArith(fpu, op, ToDouble(fpu, a), ToDouble(fpu, b))));
    }
  }

  lemma BitNumTag(fpu: Fpu, op: ArithOp, a: Num, b: Num)
    requires IsBitOp(op)
    ensures var r := ArithNum(fpu, op, a, b); r.Fine? ==> r.v.I?
  {
    var x, y := ToIntOperand(a), ToIntOperand(b);
    if x.Fine? && y.Fine? { assert ArithNum(fpu, op, a, b) == Fine(I(BitArith(op, x.v, y.v))); }
  }

  lemma IntNumTag(fpu: Fpu, op: ArithOp, a: Num, b: Num)
    requires a.I? && b.I? && !IsBitOp(op) && !op.Div? && !op.Pow?
    ensures var r := ArithNum(fpu, op, a, b); r.Fine? ==> r.v.I?
  {
    match op
    case Add =>
    case Sub =>
    case Mul =>
    case IDiv =>
    case Mod =>
  }

  lemma {:induction false} TypeSound(w: World, c: Ctx, e: Exp, env: Env, log: Log)
    requires Setting(w, c, env) && Regular(c, e)
    ensures var r := Eval(w, e, env, log);
            r.Ok? && IsNum(Infer(c, e)) ==> r.v.Number? && Tag(r.v.n) == Infer(c, e)
    decreases e
  {
    if ConstFold(e).Some? {
      FoldIsEval(w, c, e, env, log);
      TagOfFold(e, c);
    } else {
      match e
      case Paren(e1) => TypeSound(w, c, e1, env, log);
      case Arith(op, l, r) =>
        TypeSound(w, c, l, env, log);
        var a := Eval(w, l, env, log);
        if a.Ok? {
          TypeSound(w, c, r, env, a.log);
          var b := Eval(w, r, env, a.log);
          if b.Ok? && IsNum(Infer(c, e)) { ArithNumTag(w.fpu, op, a.v.n, b.v.n); }
        }
      case And(l, r) =>
        TypeSound(w, c, l, env, log);
        var a := Eval(w, l, env, log);
        if a.Ok? { TypeSound(w, c, r, env, a.log); }
      case Or(l, r) => TypeSoundOr(w, c, l, r, env, log);
      case Neg(e1) => TypeSound(w, c, e1, env, log);
      case Compl(e1) => TypeSound(w, c, e1, env, log);
      case Len(_) =>
      case Call(f, args) =>
        TypeSoundAll(w, c, args, env, log);
        var a := EvalAll(w, args, env, log);
        if a.Ok? && IsNum(Infer(c, e)) {
          assert Typed(a.v, InferAll(c, args));
        }
      case _ =>
    }
  }

  lemma {:induction false} TypeSoundOr(w: World, c: Ctx, l: Exp, r: Exp, env: Env, log: Log)
    requires Setting(w, c, env) && Regular(c, Or(l, r))
    ensures var x := Eval(w, Or(l, r), env, log);
            x.Ok? && IsNum(Infer(c, Or(l, r))) ==> x.v.Number? && Tag(x.v.n) == Infer(c, Or(l, r))
    decreases Or(l, r), 0
  {
    TypeSound(w, c, l, env, log);
    var a := Eval(w, l, env, log);
    if a.Ok? { TypeSound(w, c, r, env, a.log); }
    if l.And? {
      var q := Eval(w, l.l, env, log);
      TypeSound(w, c, l.l, env, log);
      if q.Ok? { TypeSound(w, c, l.r, env, q.log); }
    }
  }

  lemma {:induction false} TypeSoundAll(w: World, c: Ctx, es: Exps, env: Env, log: Log)
    requires Setting(w, c, env) && RegularAll(c, es)
    ensures var r := EvalAll(w, es, env, log);
            r.Ok? ==> |r.v| == |InferAll(c, es)|
    ensures var r := EvalAll(w, es, env, log);
            r.Ok? ==> forall i :: 0 <= i < |r.v| && IsNum(InferAll(c, es)[i]) ==>
                        r.v[i].Number? && Tag(r.v[i].n) == InferAll(c, es)[i]
    decreases es
  {
    if es.Exps? {
      TypeSound(w, c, es.head, env, log);
      var a := Eval(w, es.head, env, log);
      if a.Ok? { TypeSoundAll(w, c, es.tail, env, a.log); }
    }
  }
}
