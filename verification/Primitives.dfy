/** What the operations compute that Lua's semantics and the emitted C both use: order, negation and conversion of
    numbers on the real line, and equality, truth and length of values. */
module Primitives {
  import opened Options
  import opened Machine
  import opened LuaExp

  // ----- numbers on the extended real line -----

  datatype Point = Below | At(r: real) | Above

  /** Where a number lies; NaN lies nowhere, and both zeros at 0. */
  function PointOf(n: Num): Option<Point>
  {
    match n
    case I(i) => Some(At(i as real))
    case F(NaN) => None
    case F(NegInf) => Some(Below)
    case F(PosInf) => Some(Above)
    case F(NegZero) => Some(At(0.0))
    case F(Fin(r)) => Some(At(r))
  }

  predicate Left(p: Point, q: Point)
  {
    match (p, q)
    case (At(x), At(y)) => x < y
    case (Below, At(_)) => true
    case (Below, Above) => true
    case (At(_), Above) => true
    case _ => false
  }

  /** Mixed or not, numbers compare as points; nothing compares with NaN. */
  lemma NumbersCompareAsPoints(a: Num, b: Num)
    ensures var p, q := PointOf(a), PointOf(b);
            && (NumLt(a, b) <==> p.Some? && q.Some? && Left(p.value, q.value))
            && (NumEq(a, b) <==> p.Some? && q.Some? && p.value == q.value)
            && (NumLe(a, b) <==> p.Some? && q.Some? && (p.value == q.value || Left(p.value, q.value)))
  {
  }

  lemma DoublesCompareAsPoints(a: Double, b: Double)
    ensures var p, q := PointOf(F(a)), PointOf(F(b));
            && (Lt(a, b) <==> p.Some? && q.Some? && Left(p.value, q.value))
            && (Eq(a, b) <==> p.Some? && q.Some? && p.value == q.value)
            && (Le(a, b) <==> p.Some? && q.Some? && !Left(q.value, p.value))
  {
  }

  /** `<=` on doubles is the negation of `>`, except at NaN. */
  lemma LeIsNotGreater(a: Double, b: Double)
    ensures Le(a, b) <==> a.Ordered() && b.Ordered() && !Lt(b, a)
  {
  }

  /** Each comparison operator, as a relation of points. */
  lemma OperatorsCompareAsPoints(op: CmpOp, a: Num, b: Num)
    ensures var p, q := PointOf(a), PointOf(b);
            var both := p.Some? && q.Some?;
            CmpNum(op, a, b) <==>
            if op.Equal? then both && p.value == q.value
            else if op.NotEqual? then !both || p.value != q.value
            else if op.Less? then both && Left(p.value, q.value)
            else if op.More? then both && Left(q.value, p.value)
            else if op.LessEq? then both && !Left(q.value, p.value)
            else both && !Left(p.value, q.value)
  {
    NumbersCompareAsPoints(a, b);
    NumbersCompareAsPoints(b, a);
  }

  function Mirror(p: Point): Point { match p case Below => Above case Above => Below case At(r) => At(-r) }

  /** Unary minus on doubles mirrors the point, flips the sign of a zero, and undoes itself. */
  lemma NegateMirrors(d: Double)
    ensures var p := PointOf(F(d));
            PointOf(F(Negate(d))) == if p.Some? then Some(Mirror(p.value)) else None
    ensures Negate(Negate(d)) == d && (PointOf(F(d)) == Some(At(0.0)) ==> Negate(d) != d)
  {
  }

  /** The integer of a double, exactly when it lies at one in range. */
  lemma ToIntIff(d: Double, i: int64)
    ensures ToInt(d) == Some(i) <==> PointOf(F(d)) == Some(At(i as real))
  {
  }

  /** An operand of a bit operation is an integer, or a float at one. */
  lemma ToIntOperandIff(n: Num, i: int64)
    ensures ToIntOperand(n) == Fine(i) <==> PointOf(n) == Some(At(i as real))
  {
    if n.F? { ToIntIff(n.f, i); }
  }

  /** C's cast drops the fraction, on either side of zero. */
  lemma TruncateDropsTheFraction(r: real)
    ensures var t := Truncate(r) as real;
            if r >= 0.0 then 0.0 <= t <= r < t + 1.0 else t - 1.0 < r <= t <= 0.0
  {
  }

  // ----- float arithmetic, where it does not round -----

  predicate Denotes(d: Double, r: real) { PointOf(F(d)) == Some(At(r)) }

  /** What an operator on floats means; `//` is the floor of the quotient and `%` what that leaves. */
  function OnReals(op: ArithOp, x: real, y: real): real
    requires op.Add? || op.Sub? || op.Mul? || (y != 0.0 && (op.Div? || op.IDiv? || op.Mod?))
  {
    match op
    case Add => x + y
    case Sub => x - y
    case Mul => x * y
    case Div => x / y
    case IDiv => (x / y).Floor as real
    case Mod => x - y * (x / y).Floor as real
  }

  /** None of the operations on the way rounds at these operands. */
  ghost predicate Exact(fpu: Fpu, op: ArithOp, a: Double, b: Double, x: real, y: real)
    requires op.Add? || op.Sub? || op.Mul? || (y != 0.0 && (op.Div? || op.IDiv? || op.Mod?))
  {
    match op
    case Add => Denotes((fpu.add)(a, b), x + y)
    case Sub => Denotes((fpu.sub)(a, b), x - y)
    case Mul => Denotes((fpu.mul)(a, b), x * y)
    case Div => Denotes((fpu.div)(a, b), x / y)
    case IDiv => Denotes((fpu.div)(a, b), x / y) && forall d :: Denotes(d, x / y) ==> Denotes((fpu.floor)(d), (x / y).Floor as real)
    case Mod =>
      var q := (x / y).Floor as real;
      && Denotes((fpu.div)(a, b), x / y)
      && (forall d :: Denotes(d, x / y) ==> Denotes((fpu.floor)(d), q))
      && (forall d :: Denotes(d, q) ==> Denotes((fpu.mul)(b, d), y * q))
      && (forall d :: Denotes(d, y * q) ==> Denotes((fpu.sub)(a, d), x - y * q))
  }

  /** Where nothing rounds, the operators on floats are those on reals. */
  lemma FloatArithOnReals(fpu: Fpu, op: ArithOp, a: Double, b: Double, x: real, y: real)
    requires Denotes(a, x) && Denotes(b, y)
    requires op.Add? || op.Sub? || op.Mul? || (y != 0.0 && (op.Div? || op.IDiv? || op.Mod?))
    requires Exact(fpu, op, a, b, x, y)
    ensures Denotes(FloatArith(fpu, op, a, b), OnReals(op, x, y))
  {
  }

  // ----- values -----

  /** Numbers are equal at the same point whatever their tags, other values when they are the same, and nothing else. */
  lemma SameValueIff(a: Value, b: Value)
    ensures SameValue(a, b) <==>
            if a.Number? && b.Number? then PointOf(a.n).Some? && PointOf(a.n) == PointOf(b.n) else a == b
  {
    if a.Number? && b.Number? { NumbersCompareAsPoints(a.n, b.n); }
  }

  /** `==` and `~=` never raise and are opposites; the other comparisons raise exactly unless both are numbers. */
  lemma CmpValueRaisesIff(op: CmpOp, a: Value, b: Value)
    ensures CmpValue(op, a, b).Fault? <==> !op.Equal? && !op.NotEqual? && !(a.Number? && b.Number?)
    ensures CmpValue(NotEqual, a, b) == Fine(!CmpValue(Equal, a, b).v)
  {
  }

  /** `not` is true of nil and false and of nothing else; `or` passes them over, `and` stops at them. */
  lemma OnlyNilAndFalseAreFalse(w: World, e: Exp, other: Exp, env: Env, log: Log)
    requires Eval(w, e, env, log).Ok?
    ensures var r := Eval(w, e, env, log);
            var no := r.v == Nil || r.v == Bool(false);
            && Eval(w, Not(e), env, log) == Ok(Bool(no), r.log)
            && Eval(w, Or(e, other), env, log) == (if no then Eval(w, other, env, r.log) else r)
            && Eval(w, And(e, other), env, log) == (if no then r else Eval(w, other, env, r.log))
  {
  }

  /** `#` gives the length of what has one and raises on everything else. */
  lemma LengthIs(v: Value)
    ensures LenValue(v) == if v.Object? && v.len.Some? then Fine(Number(I(v.len.value))) else Fault(NoLength)
  {
  }
}
