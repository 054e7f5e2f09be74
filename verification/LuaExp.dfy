/** The expressions that reach the numeric code generator, their inferred types, and their Lua meaning. */
module LuaExp {
  import opened Options
  import opened Machine

  datatype ArithOp = Add | Sub | Mul | Div | Pow | IDiv | Mod | And64 | Or64 | Xor64 | Shl | Shr
  datatype CmpOp = Less | LessEq | More | MoreEq | Equal | NotEqual

  datatype Exp =
    | NilExp | TrueExp | FalseExp
    | Lit(n: Num)
    | Var(x: string)
    | Paren(e: Exp)
    | Arith(op: ArithOp, l: Exp, r: Exp)
    | Cmp(cmp: CmpOp, l: Exp, r: Exp)
    | And(l: Exp, r: Exp)
    | Or(l: Exp, r: Exp)
    | Neg(e: Exp)
    | Compl(e: Exp)
    | Len(e: Exp)
    | Not(e: Exp)
    | Call(f: string, args: Exps)

  datatype Exps = NoExps | Exps(head: Exp, tail: Exps)

  // ----- inferred types -----

  datatype Ty = TInt | TFloat | TDynamic

  predicate IsNum(t: Ty) { t != TDynamic }

  /** What inference and scope resolution say of a variable; a boxed (captured) variable lives in a CVar
      even when its type is known. */
  datatype VarInfo = VarInfo(ty: Ty, boxed: bool)

  /** A specialised file-level function: all its parameters are numeric ones; `ret` is its return type
      for each combination of argument types. */
  datatype FuncInfo = FuncInfo(arity: nat, ret: seq<Ty> -> Ty)

  datatype Ctx = Ctx(vars: map<string, VarInfo>, funcs: map<string, FuncInfo>)

  /** IsTypedNativeVar: the variable is a C `int64_t` or `double`. */
  predicate Native(c: Ctx, x: string) { x in c.vars && !c.vars[x].boxed && IsNum(c.vars[x].ty) }

  function Tag(n: Num): Ty { if n.I? then TInt else TFloat }

  /** ClassifyConstNumberExp: a literal under any number of unary minuses. */
  function ConstFold(e: Exp): Option<Num>
  {
    match e
    case Lit(n) => Some(n)
    case Neg(e1) =>
      (match ConstFold(e1)
       case None => None
       case Some(I(i)) => if i == MIN then Some(F(Fin(9223372036854775808.0))) else Some(I(0 - i))
       case Some(F(d)) => Some(F(Negate(d))))
    case _ => None
  }

  predicate IsBitOp(op: ArithOp) { op.And64? || op.Or64? || op.Xor64? || op.Shl? || op.Shr? }

  function ArithType(op: ArithOp, lt: Ty, rt: Ty): Ty
  {
    if !IsNum(lt) || !IsNum(rt) then TDynamic
    else if op.Div? || op.Pow? then TFloat
    else if IsBitOp(op) then TInt
    else if lt == TInt && rt == TInt then TInt else TFloat
  }

  /** The snapshot type of an expression node. */
  function Infer(c: Ctx, e: Exp): Ty
    decreases e
  {
    match e
    case Lit(n) => Tag(n)
    case Var(x) => if x in c.vars then c.vars[x].ty else TDynamic
    case Paren(e1) => Infer(c, e1)
    case Arith(op, l, r) => ArithType(op, Infer(c, l), Infer(c, r))
    case And(l, r) => if IsNum(Infer(c, l)) then Infer(c, r) else TDynamic
    case Or(l, r) =>
      if l.And? && IsNum(Infer(c, l.r)) && IsNum(Infer(c, r)) then
        (if Infer(c, l.r) == Infer(c, r) then Infer(c, r) else TFloat)
      else Infer(c, l)
    case Neg(e1) => (match ConstFold(e) case Some(n) => Tag(n) case None => Infer(c, e1))
    case Compl(e1) => if IsNum(Infer(c, e1)) then TInt else TDynamic
    case Len(_) => TInt
    case Call(f, args) =>
      var ts := InferAll(c, args);
      if f in c.funcs && |ts| == c.funcs[f].arity && TDynamic !in ts then (c.funcs[f].ret)(ts) else TDynamic
    case _ => TDynamic
  }

  function InferAll(c: Ctx, es: Exps): (ts: seq<Ty>)
    decreases es
  {
    match es
    case NoExps => []
    case Exps(e, rest) => [Infer(c, e)] + InferAll(c, rest)
  }

  /** GetType: the snapshot, except that a bare variable is numeric only when it is a native C variable. */
  function GetType(c: Ctx, e: Exp): Ty
  {
    if e.Var? then (if Native(c, e.x) then c.vars[e.x].ty else TDynamic) else Infer(c, e)
  }

  function GetTypes(c: Ctx, es: Exps): (ts: seq<Ty>)
    decreases es
  {
    match es
    case NoExps => []
    case Exps(e, rest) => [GetType(c, e)] + GetTypes(c, rest)
  }

  // ----- values and Lua evaluation -----

  /** Strings and tables matter only through identity and length. */
  datatype Value = Nil | Bool(b: bool) | Number(n: Num) | Object(id: nat, len: Option<int64>)

  predicate Truthy(v: Value) { !v.Nil? && v != Bool(false) }

  datatype Error = FloorDivByZero | ModuloByZero | NoIntegerRepresentation | NotNumeric | NoLength | CalleeRaised(code: int)

  datatype Event = Called(f: string, args: seq<Value>)
  type Log = seq<Event>

  datatype Reply = Returns(v: Value) | Raises(code: int)

  /** The machine under the program: its floating point, and what a call does, which may depend on all earlier calls. */
  datatype World = World(fpu: Fpu, host: (string, seq<Value>, Log) -> Reply)

  /** Native C variables and boxed CVar variables; an expression reads them and never assigns them. */
  datatype Env = Env(locals: map<string, Num>, cells: map<string, Value>)

  datatype Res<+T> = Ok(v: T, log: Log) | Err(e: Error, log: Log)

  datatype Pure<+T> = Fine(v: T) | Fault(e: Error)

  function ToIntOperand(n: Num): Pure<int64>
  {
    match n
    case I(i) => Fine(i)
    case F(d) => (match ToInt(d) case Some(i) => Fine(i) case None => Fault(NoIntegerRepresentation))
  }

  function BitArith(op: ArithOp, a: int64, b: int64): int64
    requires IsBitOp(op)
  {
    match op
    case And64 => BitAnd(a, b)
    case Or64 => BitOr(a, b)
    case Xor64 => BitXor(a, b)
    case Shl => ShiftInt(a, b, false)
    case Shr => ShiftInt(a, b, true)
  }

  function FloatArith(fpu: Fpu, op: ArithOp, a: Double, b: Double): Double
    requires !IsBitOp(op)
  {
    match op
    case Add => (fpu.add)(a, b)
    case Sub => (fpu.sub)(a, b)
    case Mul => (fpu.mul)(a, b)
    case Div => (fpu.div)(a, b)
    case Pow => (fpu.pow)(a, b)
    case IDiv => (fpu.floor)((fpu.div)(a, b))
    case Mod => (fpu.sub)(a, (fpu.mul)(b, (fpu.floor)((fpu.div)(a, b))))
  }

  /** Section 3.4.1 and 3.4.2 of the Lua 5.4 Reference Manual on two numbers. */
  function ArithNum(fpu: Fpu, op: ArithOp, a: Num, b: Num): Pure<Num>
  {
    if IsBitOp(op) then
      match ToIntOperand(a)
      case Fault(e) => Fault(e)
      case Fine(x) =>
        (match ToIntOperand(b)
         case Fault(e) => Fault(e)
         case Fine(y) => Fine(I(BitArith(op, x, y))))
    else if a.I? && b.I? && !op.Div? && !op.Pow? then
      match op
      case Add => Fine(I(Wrap(a.i + b.i)))
      case Sub => Fine(I(Wrap(a.i - b.i)))
      case Mul => Fine(I(Wrap(a.i * b.i)))
      case IDiv => if b.i == 0 then Fault(FloorDivByZero) else Fine(I(Wrap(FloorDiv(a.i, b.i))))
      case Mod => if b.i == 0 then Fault(ModuloByZero) else Fine(I(Wrap(a.i - b.i * FloorDiv(a.i, b.i))))
    else Fine(F(FloatArith(fpu, op, ToDouble(fpu, a), ToDouble(fpu, b))))
  }

  function ArithValue(fpu: Fpu, op: ArithOp, a: Value, b: Value): Pure<Value>
  {
    if !a.Number? || !b.Number? then Fault(NotNumeric)
    else match ArithNum(fpu, op, a.n, b.n)
      case Fault(e) => Fault(e)
      case Fine(n) => Fine(Number(n))
  }

  function CmpNum(op: CmpOp, a: Num, b: Num): bool
  {
    match op
    case Less => NumLt(a, b)
    case LessEq => NumLe(a, b)
    case More => NumLt(b, a)
    case MoreEq => NumLe(b, a)
    case Equal => NumEq(a, b)
    case NotEqual => !NumEq(a, b)
  }

  predicate SameValue(a: Value, b: Value) { if a.Number? && b.Number? then NumEq(a.n, b.n) else a == b }

  function CmpValue(op: CmpOp, a: Value, b: Value): Pure<bool>
  {
    if op.Equal? then Fine(SameValue(a, b))
    else if op.NotEqual? then Fine(!SameValue(a, b))
    else if a.Number? && b.Number? then Fine(CmpNum(op, a.n, b.n))
    else Fault(NotNumeric)
  }

  function NegValue(v: Value): Pure<Value>
  {
    match v
    case Number(I(i)) => Fine(Number(I(Wrap(0 - i))))
    case Number(F(d)) => Fine(Number(F(Negate(d))))
    case _ => Fault(NotNumeric)
  }

  function ComplValue(v: Value): Pure<Value>
  {
    if !v.Number? then Fault(NotNumeric)
    else match ToIntOperand(v.n)
      case Fault(e) => Fault(e)
      case Fine(i) => Fine(Number(I(BitNot(i))))
  }

  function LenValue(v: Value): Pure<Value>
  {
    if v.Object? && v.len.Some? then Fine(Number(I(v.len.value))) else Fault(NoLength)
  }

  function Lift<T>(p: Pure<T>, log: Log): Res<T>
  {
    match p case Fine(v) => Ok(v, log) case Fault(e) => Err(e, log)
  }

  function AsBool(p: Pure<bool>): Pure<Value>
  {
    match p case Fine(b) => Fine(Bool(b)) case Fault(e) => Fault(e)
  }

  function Invoke(w: World, f: string, args: seq<Value>, log: Log): Res<Value>
  {
    match (w.host)(f, args, log)
    case Returns(v) => Ok(v, log + [Called(f, args)])
    case Raises(code) => Err(CalleeRaised(code), log + [Called(f, args)])
  }

  function ReadVar(x: string, env: Env): Value
  {
    if x in env.locals then Number(env.locals[x]) else if x in env.cells then env.cells[x] else Nil
  }

  /** Lua evaluation: operands left to right, `and` and `or` by short circuit. */
  function Eval(w: World, e: Exp, env: Env, log: Log): Res<Value>
    decreases e
  {
    match e
    case NilExp => Ok(Nil, log)
    case TrueExp => Ok(Bool(true), log)
    case FalseExp => Ok(Bool(false), log)
    case Lit(n) => Ok(Number(n), log)
    case Var(x) => Ok(ReadVar(x, env), log)
    case Paren(e1) => Eval(w, e1, env, log)
    case Arith(op, l, r) =>
      (match Eval(w, l, env, log)
       case Err(x, g) => Err(x, g)
       case Ok(a, g) =>
         match Eval(w, r, env, g)
         case Err(x, h) => Err(x, h)
         case Ok(b, h) => Lift(ArithValue(w.fpu, op, a, b), h))
    case Cmp(op, l, r) =>
      (match Eval(w, l, env, log)
       case Err(x, g) => Err(x, g)
       case Ok(a, g) =>
         match Eval(w, r, env, g)
         case Err(x, h) => Err(x, h)
         case Ok(b, h) => Lift(AsBool(CmpValue(op, a, b)), h))
    case And(l, r) =>
      (match Eval(w, l, env, log)
       case Err(x, g) => Err(x, g)
       case Ok(a, g) => if Truthy(a) then Eval(w, r, env, g) else Ok(a, g))
    case Or(l, r) =>
      (match Eval(w, l, env, log)
       case Err(x, g) => Err(x, g)
       case Ok(a, g) => if Truthy(a) then Ok(a, g) else Eval(w, r, env, g))
    case Neg(e1) =>
      (match Eval(w, e1, env, log) case Err(x, g) => Err(x, g) case Ok(a, g) => Lift(NegValue(a), g))
    case Compl(e1) =>
      (match Eval(w, e1, env, log) case Err(x, g) => Err(x, g) case Ok(a, g) => Lift(ComplValue(a), g))
    case Len(e1) =>
      (match Eval(w, e1, env, log) case Err(x, g) => Err(x, g) case Ok(a, g) => Lift(LenValue(a), g))
    case Not(e1) =>
      (match Eval(w, e1, env, log) case Err(x, g) => Err(x, g) case Ok(a, g) => Ok(Bool(!Truthy(a)), g))
    case Call(f, args) =>
      (match EvalAll(w, args, env, log)
       case Err(x, g) => Err(x, g)
       case Ok(vs, g) => Invoke(w, f, vs, g))
  }

  function EvalAll(w: World, es: Exps, env: Env, log: Log): (r: Res<seq<Value>>)
    decreases es
  {
    match es
    case NoExps => Ok([], log)
    case Exps(e, rest) =>
      match Eval(w, e, env, log)
      case Err(x, g) => Err(x, g)
      case Ok(v, g) =>
        match EvalAll(w, rest, env, g)
        case Err(x, h) => Err(x, h)
        case Ok(vs, h) => Ok([v] + vs, h)
  }

  // ----- hypotheses on a program state -----

  /** Every variable holds what inference says it holds, in the place the generator reads it from. */
  ghost predicate WellTyped(c: Ctx, env: Env)
  {
    forall x :: x in c.vars ==>
      if Native(c, x) then x in env.locals && Tag(env.locals[x]) == c.vars[x].ty
      else x !in env.locals && x in env.cells &&
           (IsNum(c.vars[x].ty) ==> env.cells[x].Number? && Tag(env.cells[x].n) == c.vars[x].ty)
  }

  ghost predicate OnlyDeclared(c: Ctx, env: Env)
  {
    env.locals.Keys + env.cells.Keys <= c.vars.Keys
  }

  predicate Typed(vs: seq<Value>, ts: seq<Ty>)
  {
    |vs| == |ts| && forall i :: 0 <= i < |vs| ==> vs[i].Number? && Tag(vs[i].n) == ts[i]
  }

  /** A specialised function returns the type recorded for its argument types. */
  ghost predicate HostTyped(w: World, c: Ctx)
  {
    forall f, vs: seq<Value>, ts: seq<Ty>, log ::
      f in c.funcs && |ts| == c.funcs[f].arity && Typed(vs, ts) && IsNum((c.funcs[f].ret)(ts)) ==>
      var r := (w.host)(f, vs, log);
      r.Returns? ==> r.v.Number? && Tag(r.v.n) == (c.funcs[f].ret)(ts)
  }
}
