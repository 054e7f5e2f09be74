/** The fragment of C the expression generator emits: pure expressions over C variables, and statements
    that assign numbered temporaries. `None` is an expression C gives no meaning to. */
module CTarget {
  import opened Options
  import opened Machine
  import opened LuaExp

  /** A native number, a boxed CVar, or a C truth value. */
  datatype CVal = N(n: Num) | B(v: Value) | T(b: bool)

  datatype Binary =
    | IntMacro(op: ArithOp)                     // FL_INT_ADD, FL_INT_SUB, FL_INT_MUL
    | Plain(op: ArithOp)                        // +, -, * under C's usual conversions
    | OnDoubles(op: ArithOp)                    // both operands cast to double: /, pow, floor(/)
    | Bits(op: ArithOp)                         // &, |, ^
    | Compare(cmp: CmpOp, lt: Ty, rt: Ty)       // FormatNativeNumericComparison

  datatype Unary =
    | CastToInt                                 // (int64_t)(e)
    | NegInt                                    // FL_INT_SUB(0, e)
    | NegDouble                                 // -(e)
    | Flip                                      // ~(e)
    | Box(ty: Ty)                               // BoxNativeValue
    | Declared(ty: Ty)                          // assignment to a native temporary of that type
    | NotC                                      // !(e)
    | IsTrueC                                   // FlIsTrue(e)

  datatype CExp =
    | CNum(n: Num)                              // a C literal
    | CLocal(x: string)                         // a native variable
    | CField(x: string, float: bool)            // x.data_.f or x.data_.i of a CVar
    | CTmp(k: nat)
    | CConst(v: Value)                          // kNil, kTrue, kFalse, a literal CVar
    | CCell(x: string)                          // a CVar variable, plain or through its box
    | CBin(bin: Binary, l: CExp, r: CExp)
    | CUn(un: Unary, e: CExp)
    | CMissing                                  // the empty text of a failed attempt; not C

  /** The runtime macros on CVars: OpUnaryMinus, OpBitNot, OpNot, OpLen, and FlLenInt into an int64_t. */
  datatype Boxed1 = OpNeg | OpCompl | OpNot | OpLen | LenInt

  /** OpAdd and the other arithmetic macros; OpLt and the other comparisons. */
  datatype Boxed2 = OpArith(op: ArithOp) | OpCompare(cmp: CmpOp)

  datatype Stmt =
    | SSet(k: nat, e: CExp)
    | SFloorDiv(k: nat, l: CExp, r: CExp)
    | SModInt(k: nat, l: CExp, r: CExp)
    | SModFloat(k: nat, l: CExp, r: CExp)
    | SToInt(k: nat, e: CExp)
    | SShift(k: nat, l: CExp, r: CExp, right: bool)
    | SBoxed1(k: nat, op1: Boxed1, e: CExp)
    | SBoxed2(k: nat, op2: Boxed2, l: CExp, r: CExp)
    | SSetBool(k: nat, e: CExp)
    | SCallSpec(k: nat, f: string, sig: seq<Ty>, args: seq<CExp>, ret: Ty)
    | SCall(k: nat, f: string, args: seq<CExp>)
    | SIf(c: CExp, thn: seq<Stmt>, els: seq<Stmt>)

  type Tmps = map<nat, CVal>

  // ----- expressions -----

  function IntArith(op: ArithOp, a: int64, b: int64): Option<int64>
  {
    match op
    case Add => Some(Wrap(a + b))
    case Sub => Some(Wrap(a - b))
    case Mul => Some(Wrap(a * b))
    case _ => None
  }

  /** FormatNativeNumericComparison: equal types compare directly, mixed types through FlCompareIntDouble. */
  function NativeCompare(cmp: CmpOp, a: Num, b: Num, lt: Ty, rt: Ty): Option<bool>
  {
    if Tag(a) != lt || Tag(b) != rt then None
    else if a.I? && b.I? then Some(CmpNum(cmp, a, b))
    else if a.F? && b.F? then Some(CmpNum(cmp, a, b))
    else
      var i, d := if a.I? then a.i else b.i, if a.I? then b.f else a.f;
      var o := if a.I? then CompareIntDouble(i, d) else 0 - CompareIntDouble(i, d);
      Some(match cmp
           case Equal => !d.NaN? && CompareIntDouble(i, d) == 0
           case NotEqual => !(!d.NaN? && CompareIntDouble(i, d) == 0)
           case Less => !d.NaN? && o < 0
           case LessEq => !d.NaN? && o <= 0
           case More => !d.NaN? && o > 0
           case MoreEq => !d.NaN? && o >= 0)
  }

  function ApplyBinary(w: World, o: Binary, l: CVal, r: CVal): Option<CVal>
  {
    if !l.N? || !r.N? then None
    else
      var a, b := l.n, r.n;
      match o
      case IntMacro(op) =>
        if a.F? || b.F? then None
        else (match IntArith(op, a.i, b.i) case Some(i) => Some(N(I(i))) case None => None)
      case Plain(op) =>
        if (a.I? && b.I?) || IsBitOp(op) then None
        else Some(N(F(FloatArith(w.fpu, op, ToDouble(w.fpu, a), ToDouble(w.fpu, b)))))
      case OnDoubles(op) =>
        if IsBitOp(op) then None else Some(N(F(FloatArith(w.fpu, op, ToDouble(w.fpu, a), ToDouble(w.fpu, b)))))
      case Bits(op) =>
        if a.F? || b.F? || !IsBitOp(op) then None else Some(N(I(BitArith(op, a.i, b.i))))
      case Compare(cmp, lt, rt) =>
        (match NativeCompare(cmp, a, b, lt, rt) case Some(x) => Some(T(x)) case None => None)
  }

  function ApplyUnary(w: World, o: Unary, v: CVal): Option<CVal>
  {
    match (o, v)
    case (CastToInt, N(n)) => (match CastInt(n) case Some(i) => Some(N(I(i))) case None => None)
    case (NegInt, N(I(i))) => Some(N(I(Wrap(0 - i))))
    case (NegDouble, N(F(d))) => Some(N(F(Negate(d))))
    case (Flip, N(I(i))) => Some(N(I(BitNot(i))))
    case (Declared(ty), N(n)) =>
      if ty == TFloat then Some(N(F(ToDouble(w.fpu, n))))
      else (match CastInt(n) case Some(i) => Some(N(I(i))) case None => None)
    case (Box(ty), N(n)) => if Tag(n) == ty then Some(B(Number(n))) else None
    case (NotC, T(b)) => Some(T(!b))
    case (IsTrueC, B(x)) => Some(T(Truthy(x)))
    case _ => None
  }

  function EvalC(w: World, e: CExp, env: Env, t: Tmps): Option<CVal>
  {
    match e
    case CNum(n) => Some(N(n))
    case CLocal(x) => if x in env.locals then Some(N(env.locals[x])) else None
    case CField(x, float) =>
      if x in env.cells && env.cells[x].Number? && env.cells[x].n.F? == float then Some(N(env.cells[x].n)) else None
    case CTmp(k) => if k in t then Some(t[k]) else None
    case CConst(v) => Some(B(v))
    case CCell(x) => if x in env.cells then Some(B(env.cells[x])) else None
    case CBin(o, l, r) =>
      (match EvalC(w, l, env, t)
       case None => None
       case Some(a) => match EvalC(w, r, env, t) case None => None case Some(b) => ApplyBinary(w, o, a, b))
    case CUn(o, e1) => (match EvalC(w, e1, env, t) case None => None case Some(a) => ApplyUnary(w, o, a))
    case CMissing => None
  }

  /** C's conversion to int64_t; out of range it has no meaning. */
  function CastInt(n: Num): Option<int64>
  {
    match n
    case I(i) => Some(i)
    case F(NegZero) => Some(0)
    case F(Fin(r)) => if MIN <= Truncate(r) <= MAX then Some(Truncate(r)) else None
    case _ => None
  }

  function EvalCs(w: World, es: seq<CExp>, env: Env, t: Tmps): (r: Option<seq<CVal>>)
    ensures r.Some? ==> |r.value| == |es|
  {
    if es == [] then Some([])
    else match (EvalC(w, es[0], env, t), EvalCs(w, es[1..], env, t))
      case (Some(v), Some(vs)) => Some([v] + vs)
      case _ => None
  }

  // ----- statements -----

  datatype Run = Done(t: Tmps, log: Log) | Failed(e: Error, log: Log) | Stuck

  /** Passing a native number to a C parameter of the given type. */
  function PassAs(fpu: Fpu, ty: Ty, v: CVal): Option<Value>
  {
    match v
    case N(n) =>
      if ty == TFloat then Some(Number(F(ToDouble(fpu, n))))
      else (match CastInt(n) case Some(i) => Some(Number(I(i))) case None => None)
    case _ => None
  }

  function PassAll(fpu: Fpu, sig: seq<Ty>, vs: seq<CVal>): Option<seq<Value>>
  {
    if |sig| != |vs| then None
    else if sig == [] then Some([])
    else match (PassAs(fpu, sig[0], vs[0]), PassAll(fpu, sig[1..], vs[1..]))
      case (Some(v), Some(rest)) => Some([v] + rest)
      case _ => None
  }

  function Boxes(vs: seq<CVal>): Option<seq<Value>>
  {
    if vs == [] then Some([])
    else match (vs[0], Boxes(vs[1..]))
      case (B(v), Some(rest)) => Some([v] + rest)
      case _ => None
  }

  /** What a specialised callee hands back as a native value of its return type. */
  function NativeReturn(v: Value, ret: Ty): Option<CVal>
  {
    if v.Number? && Tag(v.n) == ret then Some(N(v.n)) else None
  }

  function Store(k: nat, p: Pure<CVal>, t: Tmps, log: Log): Run
  {
    match p case Fine(v) => Done(t[k := v], log) case Fault(e) => Failed(e, log)
  }

  function AsBoxed(p: Pure<Value>): Pure<CVal>
  {
    match p case Fine(v) => Fine(B(v)) case Fault(e) => Fault(e)
  }

  function ApplyBoxed1(o: Boxed1, v: Value): Pure<CVal>
  {
    match o
    case OpNeg => AsBoxed(NegValue(v))
    case OpCompl => AsBoxed(ComplValue(v))
    case OpNot => Fine(B(Bool(!Truthy(v))))
    case OpLen => AsBoxed(LenValue(v))
    case LenInt =>
      match LenValue(v)
      case Fine(Number(n)) => Fine(N(n))
      case Fine(x) => Fine(B(x))
      case Fault(e) => Fault(e)
  }

  function ApplyBoxed2(w: World, o: Boxed2, a: Value, b: Value): Pure<CVal>
  {
    match o
    case OpArith(op) => AsBoxed(ArithValue(w.fpu, op, a, b))
    case OpCompare(cmp) => AsBoxed(AsBool(CmpValue(cmp, a, b)))
  }

  function ExecStmt(w: World, s: Stmt, env: Env, t: Tmps, log: Log): Run
    decreases s, 0
  {
    match s
    case SSet(k, e) => (match EvalC(w, e, env, t) case Some(v) => Done(t[k := v], log) case None => Stuck)
    case SFloorDiv(k, l, r) =>
      (match (EvalC(w, l, env, t), EvalC(w, r, env, t))
       case (Some(N(I(a))), Some(N(I(b)))) =>
         if b == 0 then Failed(FloorDivByZero, log) else Done(t[k := N(I(FloorQuotient(a, b)))], log)
       case _ => Stuck)
    case SModInt(k, l, r) =>
      (match (EvalC(w, l, env, t), EvalC(w, r, env, t))
       case (Some(N(I(a))), Some(N(I(b)))) =>
         if b == 0 then Failed(ModuloByZero, log) else Done(t[k := N(I(ModInt(a, b)))], log)
       case _ => Stuck)
    case SModFloat(k, l, r) =>
      (match (EvalC(w, l, env, t), EvalC(w, r, env, t))
       case (Some(N(a)), Some(N(b))) =>
         Done(t[k := N(F(FloatArith(w.fpu, Mod, ToDouble(w.fpu, a), ToDouble(w.fpu, b))))], log)
       case _ => Stuck)
    case SToInt(k, e) =>
      (match EvalC(w, e, env, t)
       case Some(N(n)) => (match ToInt(ToDouble(w.fpu, n))
                           case Some(i) => Done(t[k := N(I(i))], log)
                           case None => Failed(NoIntegerRepresentation, log))
       case _ => Stuck)
    case SShift(k, l, r, right) =>
      (match (EvalC(w, l, env, t), EvalC(w, r, env, t))
       case (Some(N(I(a))), Some(N(I(b)))) => Done(t[k := N(I(ShiftInt(a, b, right)))], log)
       case _ => Stuck)
    case SBoxed1(k, o, e) =>
      (match EvalC(w, e, env, t) case Some(B(v)) => Store(k, ApplyBoxed1(o, v), t, log) case _ => Stuck)
    case SBoxed2(k, o, l, r) =>
      (match (EvalC(w, l, env, t), EvalC(w, r, env, t))
       case (Some(B(a)), Some(B(b))) => Store(k, ApplyBoxed2(w, o, a, b), t, log)
       case _ => Stuck)
    case SSetBool(k, e) =>
      (match EvalC(w, e, env, t) case Some(T(b)) => Done(t[k := B(Bool(b))], log) case _ => Stuck)
    case SCallSpec(k, f, sig, args, ret) =>
      (match EvalCs(w, args, env, t)
       case None => Stuck
       case Some(vs) =>
         match PassAll(w.fpu, sig, vs)
         case None => Stuck
         case Some(ps) =>
           match Invoke(w, f, ps, log)
           case Err(e, g) => Failed(e, g)
           case Ok(v, g) =>
             if ret == TDynamic then Done(t[k := B(v)], g)
             else (match NativeReturn(v, ret) case Some(x) => Done(t[k := x], g) case None => Stuck))
    case SCall(k, f, args) =>
      (match EvalCs(w, args, env, t)
       case None => Stuck
       case Some(vs) =>
         match Boxes(vs)
         case None => Stuck
         case Some(ps) =>
           match Invoke(w, f, ps, log)
           case Err(e, g) => Failed(e, g)
           case Ok(v, g) => Done(t[k := B(v)], g))
    case SIf(c, thn, els) =>
      (match EvalC(w, c, env, t)
       case Some(T(b)) => if b then Exec(w, thn, env, t, log) else Exec(w, els, env, t, log)
       case _ => Stuck)
  }

  function Exec(w: World, ss: seq<Stmt>, env: Env, t: Tmps, log: Log): Run
    decreases ss, 1
  {
    if ss == [] then Done(t, log)
    else match ExecStmt(w, ss[0], env, t, log)
      case Done(t1, g) => Exec(w, ss[1..], env, t1, g)
      case Failed(e, g) => Failed(e, g)
      case Stuck => Stuck
  }

  lemma {:induction false} ExecConcat(w: World, a: seq<Stmt>, b: seq<Stmt>, env: Env, t: Tmps, log: Log)
    ensures var r := Exec(w, a, env, t, log);
            Exec(w, a + b, env, t, log) == if r.Done? then Exec(w, b, env, r.t, r.log) else r
  {
    if a == [] {
      assert a + b == b;
    } else {
      assert (a + b)[0] == a[0] && (a + b)[1..] == a[1..] + b;
      match ExecStmt(w, a[0], env, t, log) {
        case Done(t1, g) => ExecConcat(w, a[1..], b, env, t1, g);
        case Failed(_, _) =>
        case Stuck =>
      }
    }
  }

  // ----- which temporaries an expression reads and a statement writes -----

  predicate ReadsWithin(e: CExp, lo: nat, hi: nat)
  {
    match e
    case CTmp(k) => lo <= k < hi
    case CBin(_, l, r) => ReadsWithin(l, lo, hi) && ReadsWithin(r, lo, hi)
    case CUn(_, e1) => ReadsWithin(e1, lo, hi)
    case _ => true
  }

  predicate WritesWithin(s: Stmt, lo: nat, hi: nat)
    decreases s, 0
  {
    match s
    case SIf(_, thn, els) => AllWriteWithin(thn, lo, hi) && AllWriteWithin(els, lo, hi)
    case _ => lo <= s.k < hi
  }

  predicate AllWriteWithin(ss: seq<Stmt>, lo: nat, hi: nat)
    decreases ss, 1
  {
    ss == [] || (WritesWithin(ss[0], lo, hi) && AllWriteWithin(ss[1..], lo, hi))
  }

  /** Two temporary stores agree on [lo, hi). */
  ghost predicate Agree(t: Tmps, u: Tmps, lo: nat, hi: nat)
  {
    forall k :: lo <= k < hi ==> (k in t <==> k in u) && (k in t ==> t[k] == u[k])
  }

  /** `u` differs from `t` only on [lo, hi). */
  ghost predicate SameOutside(t: Tmps, u: Tmps, lo: nat, hi: nat)
  {
    forall k: nat :: !(lo <= k < hi) ==> (k in t <==> k in u) && (k in t ==> t[k] == u[k])
  }

  lemma {:induction false} EvalFrame(w: World, e: CExp, env: Env, t: Tmps, u: Tmps, lo: nat, hi: nat)
    requires ReadsWithin(e, lo, hi) && Agree(t, u, lo, hi)
    ensures EvalC(w, e, env, t) == EvalC(w, e, env, u)
  {
    match e
    case CBin(_, l, r) => EvalFrame(w, l, env, t, u, lo, hi); EvalFrame(w, r, env, t, u, lo, hi);
    case CUn(_, e1) => EvalFrame(w, e1, env, t, u, lo, hi);
    case _ =>
  }

  lemma {:induction false} StmtFrame(w: World, s: Stmt, env: Env, t: Tmps, log: Log, lo: nat, hi: nat)
    requires WritesWithin(s, lo, hi)
    ensures var r := ExecStmt(w, s, env, t, log); r.Done? ==> SameOutside(t, r.t, lo, hi)
    decreases s, 0
  {
    match s
    case SIf(_, thn, els) =>
      ExecFrame(w, thn, env, t, log, lo, hi);
      ExecFrame(w, els, env, t, log, lo, hi);
    case _ =>
  }

  lemma {:induction false} ExecFrame(w: World, ss: seq<Stmt>, env: Env, t: Tmps, log: Log, lo: nat, hi: nat)
    requires AllWriteWithin(ss, lo, hi)
    ensures var r := Exec(w, ss, env, t, log); r.Done? ==> SameOutside(t, r.t, lo, hi)
    decreases ss, 1
  {
    if ss != [] {
      StmtFrame(w, ss[0], env, t, log, lo, hi);
      var r := ExecStmt(w, ss[0], env, t, log);
      if r.Done? { ExecFrame(w, ss[1..], env, r.t, r.log, lo, hi); }
    }
  }

  lemma {:induction false} WritesConcat(a: seq<Stmt>, b: seq<Stmt>, lo: nat, hi: nat)
    ensures AllWriteWithin(a + b, lo, hi) <==> AllWriteWithin(a, lo, hi) && AllWriteWithin(b, lo, hi)
  {
    if a == [] { assert a + b == b; }
    else { assert (a + b)[0] == a[0] && (a + b)[1..] == a[1..] + b; WritesConcat(a[1..], b, lo, hi); }
  }

  lemma {:induction false} ReadsWiden(e: CExp, lo: nat, hi: nat, lo2: nat, hi2: nat)
    requires ReadsWithin(e, lo, hi) && lo2 <= lo && hi <= hi2
    ensures ReadsWithin(e, lo2, hi2)
  {
    match e
    case CBin(_, l, r) => ReadsWiden(l, lo, hi, lo2, hi2); ReadsWiden(r, lo, hi, lo2, hi2);
    case CUn(_, e1) => ReadsWiden(e1, lo, hi, lo2, hi2);
    case _ =>
  }

  lemma {:induction false} WritesWidenStmt(s: Stmt, lo: nat, hi: nat, lo2: nat, hi2: nat)
    requires WritesWithin(s, lo, hi) && lo2 <= lo && hi <= hi2
    ensures WritesWithin(s, lo2, hi2)
    decreases s, 0
  {
    match s
    case SIf(_, thn, els) => WritesWiden(thn, lo, hi, lo2, hi2); WritesWiden(els, lo, hi, lo2, hi2);
    case _ =>
  }

  lemma {:induction false} WritesWiden(ss: seq<Stmt>, lo: nat, hi: nat, lo2: nat, hi2: nat)
    requires AllWriteWithin(ss, lo, hi) && lo2 <= lo && hi <= hi2
    ensures AllWriteWithin(ss, lo2, hi2)
    decreases ss, 1
  {
    if ss != [] { WritesWidenStmt(ss[0], lo, hi, lo2, hi2); WritesWiden(ss[1..], lo, hi, lo2, hi2); }
  }

  /** The emitted mixed comparison is Lua's comparison. */
  lemma NativeCompareIsCmpNum(cmp: CmpOp, a: Num, b: Num)
    ensures NativeCompare(cmp, a, b, Tag(a), Tag(b)) == Some(CmpNum(cmp, a, b))
  {
    if a.I? && b.F? { CompareIntDoubleIsExact(a.i, b.f); }
    if a.F? && b.I? { CompareIntDoubleIsExact(b.i, a.f); }
  }
}
