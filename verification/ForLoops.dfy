/** The numeric `for` shapes the generator emits, against the loop of section 3.3.5 of the Lua 5.4
    Reference Manual. A loop body is any function from the program state and the loop value to a new
    state and a flag that says whether it executed `break`; `continue` ends the body normally. */
module ForLoops {
  import opened Options
  import opened Machine

  type Body<!S> = (S, Num) -> (S, bool)

  // ----- integer loops: the reference -----

  /** The value `i` is still within the limit, read in the direction of the step. */
  predicate Within(i: int, limit: int, step: int) { if step > 0 then i <= limit else i >= limit }

  /** The reference loop over unbounded integers: it visits start, start + step, ... up to the limit. */
  function IntFor<S>(i: int, limit: int64, step: int, s: S, body: Body<S>): S
    requires step != 0
    requires step > 0 ==> MIN <= i
    requires step < 0 ==> i <= MAX
    decreases if step > 0 then limit - i else i - limit
  {
    if !Within(i, limit, step) then s
    else
      var (s', broke) := body(s, I(i));
      if broke then s' else IntFor(i + step, limit, step, s', body)
  }

  /** The values the reference loop visits when no `break` cuts it short. */
  function Visited(i: int, limit: int64, step: int): (vs: seq<int64>)
    requires step != 0
    requires step > 0 ==> MIN <= i
    requires step < 0 ==> i <= MAX
    decreases if step > 0 then limit - i else i - limit
  {
    if !Within(i, limit, step) then [] else [i] + Visited(i + step, limit, step)
  }

  /** Running the body over a given list of values, stopping at a `break`. */
  function OverList<S>(vs: seq<int64>, s: S, body: Body<S>): S
  {
    if vs == [] then s
    else
      var (s', broke) := body(s, I(vs[0]));
      if broke then s' else OverList(vs[1..], s', body)
  }

  lemma {:induction false} IntForRunsOverVisited<S>(i: int, limit: int64, step: int, s: S, body: Body<S>)
    requires step != 0
    requires step > 0 ==> MIN <= i
    requires step < 0 ==> i <= MAX
    ensures IntFor(i, limit, step, s, body) == OverList(Visited(i, limit, step), s, body)
    decreases if step > 0 then limit - i else i - limit
  {
    if Within(i, limit, step) {
      var (s', broke) := body(s, I(i));
      if !broke { IntForRunsOverVisited(i + step, limit, step, s', body); }
      assert Visited(i, limit, step)[1..] == Visited(i + step, limit, step);
    }
  }

  /** The visited values in closed form: the k-th is start + k * step, and there is a k-th exactly up to the limit,
      which is included. */
  lemma {:induction false} VisitedIsArithmetic(i: int, limit: int64, step: int, k: nat)
    requires step != 0
    requires step > 0 ==> MIN <= i
    requires step < 0 ==> i <= MAX
    ensures var vs := Visited(i, limit, step);
            && (k < |vs| <==> if step > 0 then i + k * step <= limit else i + k * step >= limit)
            && (k < |vs| ==> vs[k] == i + k * step)
    decreases if step > 0 then limit - i else i - limit
  {
    if Within(i, limit, step) {
      if k > 0 {
        VisitedIsArithmetic(i + step, limit, step, k - 1);
        assert i + step + (k - 1) * step == i + k * step;
      }
    } else if step > 0 {
      assert k * step >= 0;
    } else {
      assert k * step <= 0;
    }
  }

  // ----- integer loops: the emitted shapes -----

  /** A constant step: the increment clause stops instead of overflowing. */
  method ConstStepFor<S>(start: int64, limit: int64, step: int64, s0: S, body: Body<S>) returns (s: S)
    requires step != 0
    ensures s == IntFor(start, limit, step, s0, body)
  {
    s := s0;
    var ctrl: int64, stop := start, false;
    while Within(ctrl, limit, step) && !stop
      invariant stop ==> s == IntFor(start, limit, step, s0, body)
      invariant !stop ==> IntFor(ctrl, limit, step, s, body) == IntFor(start, limit, step, s0, body)
      decreases if stop then 0 else 1, if step > 0 then limit - ctrl else ctrl - limit
    {
      var (s', broke) := body(s, I(ctrl));
      s := s';
      if broke { return; }
      if step > 0 {
        if ctrl >= MAX - (step - 1) { stop := true; } else { ctrl := ctrl + step; }
      } else {
        if ctrl <= MIN - (step + 1) { stop := true; } else { ctrl := ctrl + step; }
      }
    }
  }

  /** FlForIntAdvance: the next control value, or None when the signed addition would overflow. */
  function IntAdvance(cur: int64, step: int64): (r: Option<int64>)
    ensures r == if MIN <= cur + step <= MAX then Some(cur + step) else None
  {
    var next := Wrap(cur + step);
    if !SignsDiffer(cur, step) && SignsDiffer(next, cur) then None else Some(next)
  }

  /** A step known only at run time: FlForIntAdvance in the increment clause. */
  method RuntimeStepFor<S>(start: int64, limit: int64, step: int64, s0: S, body: Body<S>) returns (s: S)
    requires step != 0
    ensures s == IntFor(start, limit, step, s0, body)
  {
    s := s0;
    var ctrl: int64, stop := start, false;
    while Within(ctrl, limit, step) && !stop
      invariant stop ==> s == IntFor(start, limit, step, s0, body)
      invariant !stop ==> IntFor(ctrl, limit, step, s, body) == IntFor(start, limit, step, s0, body)
      decreases if stop then 0 else 1, if step > 0 then limit - ctrl else ctrl - limit
    {
      var (s', broke) := body(s, I(ctrl));
      s := s';
      if broke { return; }
      match IntAdvance(ctrl, step) {
        case None => stop := true;
        case Some(next) => ctrl := next;
      }
    }
  }

  /** The integer half of the dynamic loop: skip test, then `while (1)` with the step after the body. */
  method DynamicIntFor<S>(start: int64, limit: int64, step: int64, s0: S, body: Body<S>) returns (s: S)
    requires step != 0
    ensures s == IntFor(start, limit, step, s0, body)
  {
    s := s0;
    if !Within(start, limit, step) { return; }
    var ctrl: int64 := start;
    while true
      invariant Within(ctrl, limit, step)
      invariant IntFor(ctrl, limit, step, s, body) == IntFor(start, limit, step, s0, body)
      decreases if step > 0 then limit - ctrl else ctrl - limit
    {
      var (s', broke) := body(s, I(ctrl));
      s := s';
      if broke { return; }
      match IntAdvance(ctrl, step) {
        case None => break;
        case Some(next) => ctrl := next;
      }
      if !Within(ctrl, limit, step) { break; }
    }
  }

  // ----- an integer loop with a float limit -----

  /** The order of Lua between an integer and a float limit; a NaN limit is clipped like minus infinity. */
  predicate WithinFloat(i: int64, limit: Double, step: int)
  {
    if step > 0 then limit.Ordered() && !DoubleLtInt(limit, i)
    else !limit.Ordered() || !IntLtDouble(i, limit)
  }

  /** `x` is not beyond the limit, on the real line and in the direction of the step. */
  predicate UpTo(x: real, limit: Double, up: bool)
  {
    match limit
    case NaN => false
    case PosInf => up
    case NegInf => !up
    case NegZero => if up then x <= 0.0 else x >= 0.0
    case Fin(r) => if up then x <= r else x >= r
  }

  /** FlForLimitToInt: None skips the whole loop, otherwise the clipped integer limit. */
  function LimitToInt(limit: Double, step: int64): Option<int64>
  {
    if ToInt(limit).Some? then ToInt(limit)
    else if limit.PosInf? then (if step < 0 then None else Some(MAX))
    else if limit.NegInf? || limit.NaN? then (if step > 0 then None else Some(MIN))
    else if limit.Value() >= 9223372036854775808.0 then (if step < 0 then None else Some(MAX))
    else if limit.Value() < -9223372036854775808.0 then (if step > 0 then None else Some(MIN))
    else if step > 0 then Some(limit.Value().Floor)
    else CeilInRange(limit.Value()); Some(Ceil(limit.Value()))
  }

  function Ceil(r: real): int { -((-r).Floor) }

  lemma CeilInRange(r: real)
    requires -9223372036854775808.0 <= r < 9223372036854775808.0
    requires Representable(Fin(r))
    ensures MIN <= Ceil(r) <= MAX
  {
    var c := Ceil(r);
    assert c as real - 1.0 < r <= c as real;
    if r == r.Floor as real { assert c == r.Floor; }
  }

  /** Clipping a float limit keeps exactly the integers up to it, or down to it; the infinities admit all or none, and
      NaN counts as minus infinity. */
  lemma LimitToIntIsExact(limit: Double, step: int64, i: int64)
    requires step != 0
    ensures var n := LimitToInt(limit, step);
            && (WithinFloat(i, limit, step) <==> n.Some? && Within(i, n.value, step))
            && (WithinFloat(i, limit, step) <==> UpTo(i as real, if limit.NaN? then NegInf else limit, step > 0))
  {
    if limit.Fin? {
      var r := limit.r;
      assert r.Floor as real <= r < r.Floor as real + 1.0;
      assert Ceil(r) as real - 1.0 < r <= Ceil(r) as real;
    }
  }

  // ----- float loops -----

  /** What a bounded run has reached: the state, and whether the loop is over. */
  datatype Progress<+S> = Progress(state: S, over: bool)

  /** FORPREP's test: a strict comparison, so NaN does not skip. */
  predicate SkipsFloat(start: Double, limit: Double, step: Double)
  {
    if Lt(Fin(0.0), step) then Lt(limit, start) else Lt(start, limit)
  }

  /** FORLOOP's test after the step. */
  predicate StaysFloat(ctrl: Double, limit: Double, step: Double)
  {
    if Lt(Fin(0.0), step) then Le(ctrl, limit) else Le(limit, ctrl)
  }

  /** The reference float loop from an admitted value, for at most `fuel` iterations. */
  function FloatFor<S>(fuel: nat, fpu: Fpu, ctrl: Double, limit: Double, step: Double, s: S, body: Body<S>): Progress<S>
  {
    if fuel == 0 then Progress(s, false)
    else
      var (s', broke) := body(s, F(ctrl));
      var next := (fpu.add)(ctrl, step);
      if broke || !StaysFloat(next, limit, step) then Progress(s', true)
      else FloatFor(fuel - 1, fpu, next, limit, step, s', body)
  }

  function LuaFloatFor<S>(fuel: nat, fpu: Fpu, start: Double, limit: Double, step: Double, s: S, body: Body<S>): Progress<S>
  {
    if SkipsFloat(start, limit, step) then Progress(s, true) else FloatFor(fuel, fpu, start, limit, step, s, body)
  }

  /** A value that passed the loop test passes the preparation test again: the emitted `for` re-evaluates it. */
  lemma StaysImpliesNoSkip(ctrl: Double, limit: Double, step: Double)
    ensures StaysFloat(ctrl, limit, step) ==> !SkipsFloat(ctrl, limit, step)
  {
  }

  /** The typed float loop: one C `for` whose condition is the preparation test and, once `started`,
      the step followed by the loop test; `continue` reaches the `started = 1` clause. */
  method TypedFloatFor<S>(fuel: nat, fpu: Fpu, start: Double, limit: Double, step: Double, s0: S, body: Body<S>)
    returns (r: Progress<S>)
    ensures r == LuaFloatFor(fuel, fpu, start, limit, step, s0, body)
  {
    var s, ctrl, started, left: nat := s0, start, false, fuel;
    while true
      invariant left <= fuel
      invariant !started ==> ctrl == start && s == s0 && left == fuel
      invariant started ==> !SkipsFloat(ctrl, limit, step)
      invariant started ==>
        var next := (fpu.add)(ctrl, step);
        LuaFloatFor(fuel, fpu, start, limit, step, s0, body) ==
        if StaysFloat(next, limit, step) then FloatFor(left, fpu, next, limit, step, s, body) else Progress(s, true)
      decreases left, if started then 0 else 1
    {
      if SkipsFloat(ctrl, limit, step) { return Progress(s, true); }
      if started {
        ctrl := (fpu.add)(ctrl, step);
        if !StaysFloat(ctrl, limit, step) { return Progress(s, true); }
      }
      if left == 0 { return Progress(s, false); }
      var (s', broke) := body(s, F(ctrl));
      s, left := s', left - 1;
      if broke { return Progress(s, true); }
      started := true;
      StaysImpliesNoSkip(ctrl, limit, step);
    }
  }

  // ----- which values a float loop visits -----

  /** The values FloatFor runs its body on when no `break` cuts it short. */
  function FloatRounds(fuel: nat, fpu: Fpu, ctrl: Double, limit: Double, step: Double): (vs: seq<Double>)
  {
    if fuel == 0 then []
    else
      var next := (fpu.add)(ctrl, step);
      [ctrl] + if StaysFloat(next, limit, step) then FloatRounds(fuel - 1, fpu, next, limit, step) else []
  }

  function FloatVisited(fuel: nat, fpu: Fpu, start: Double, limit: Double, step: Double): (vs: seq<Double>)
  {
    if SkipsFloat(start, limit, step) then [] else FloatRounds(fuel, fpu, start, limit, step)
  }

  /** Running the body over a list of floats, stopping at a `break`; the flag tells whether one was reached. */
  function OverFloats<S>(vs: seq<Double>, s: S, body: Body<S>): (S, bool)
  {
    if vs == [] then (s, false)
    else
      var (s', broke) := body(s, F(vs[0]));
      if broke then (s', true) else OverFloats(vs[1..], s', body)
  }

  lemma {:induction false} RoundsRunOverVisited<S>(fuel: nat, fpu: Fpu, ctrl: Double, limit: Double, step: Double, s: S, body: Body<S>)
    ensures FloatFor(fuel, fpu, ctrl, limit, step, s, body).state == OverFloats(FloatRounds(fuel, fpu, ctrl, limit, step), s, body).0
  {
    if fuel > 0 {
      var (s', broke) := body(s, F(ctrl));
      var next := (fpu.add)(ctrl, step);
      var rest := if StaysFloat(next, limit, step) then FloatRounds(fuel - 1, fpu, next, limit, step) else [];
      assert FloatRounds(fuel, fpu, ctrl, limit, step) == [ctrl] + rest;
      assert ([ctrl] + rest)[1..] == rest;
      if StaysFloat(next, limit, step) { RoundsRunOverVisited(fuel - 1, fpu, next, limit, step, s', body); }
    }
  }

  /** The reference float loop runs its body over exactly these values, in order, up to a `break`. */
  lemma FloatForRunsOverVisited<S>(fuel: nat, fpu: Fpu, start: Double, limit: Double, step: Double, s: S, body: Body<S>)
    ensures LuaFloatFor(fuel, fpu, start, limit, step, s, body).state ==
            OverFloats(FloatVisited(fuel, fpu, start, limit, step), s, body).0
  {
    if !SkipsFloat(start, limit, step) { RoundsRunOverVisited(fuel, fpu, start, limit, step, s, body); }
  }

  /** The first `n` steps from `x` by `d` do not round. */
  predicate StepsExactly(fpu: Fpu, x: real, d: real, n: nat)
    decreases n
  {
    && Representable(Fin(x)) && Representable(Fin(d))
    && (n > 0 ==> Representable(Fin(x + d)) && (fpu.add)(Fin(x), Fin(d)) == Fin(x + d) && StepsExactly(fpu, x + d, d, n - 1))
  }

  lemma StaysUpTo(y: real, limit: Double, d: real)
    requires Representable(Fin(y)) && Representable(Fin(d)) && d != 0.0 && limit.Ordered()
    ensures StaysFloat(Fin(y), limit, Fin(d)) <==> UpTo(y, limit, d > 0.0)
    ensures SkipsFloat(Fin(y), limit, Fin(d)) <==> !UpTo(y, limit, d > 0.0)
  {
  }

  /** `z` is `k` steps further than `x`. */
  predicate Ahead(z: real, x: real, d: real, k: nat) { z == x + k as real * d }

  lemma AheadSteps(z: real, x: real, d: real, k: nat)
    requires Ahead(z, x, d, k)
    ensures if k == 0 then z == x else Ahead(z, x + d, d, k - 1)
    ensures if d > 0.0 then x <= z else x >= z
  {
    if d > 0.0 { assert k as real * d >= 0.0; } else { assert k as real * d <= 0.0; }
  }

  lemma UpToEarlier(z: real, y: real, limit: Double, up: bool)
    requires if up then y <= z else y >= z
    ensures UpTo(z, limit, up) ==> UpTo(y, limit, up)
  {
  }

  /** From a value up to the limit on, the next is visited exactly when it is up to the limit. */
  lemma {:induction false} RoundsAreArithmetic(fuel: nat, fpu: Fpu, x: real, z: real, limit: Double, d: real, k: nat)
    requires d != 0.0 && limit.Ordered() && StepsExactly(fpu, x, d, k) && k < fuel
    requires UpTo(x, limit, d > 0.0) && Ahead(z, x, d, k)
    ensures var vs := FloatRounds(fuel, fpu, Fin(x), limit, Fin(d));
            && (k < |vs| <==> UpTo(z, limit, d > 0.0))
            && (k < |vs| ==> vs[k] == Fin(z))
    decreases k
  {
    AheadSteps(z, x, d, k);
    if k > 0 {
      var y := x + d;
      AheadSteps(z, y, d, k - 1);
      StaysUpTo(y, limit, d);
      UpToEarlier(z, y, limit, d > 0.0);
      RoundsStep(fuel, fpu, Fin(x), limit, Fin(d), k);
      if UpTo(y, limit, d > 0.0) { RoundsAreArithmetic(fuel - 1, fpu, y, z, limit, d, k - 1); }
    }
  }

  lemma RoundsStep(fuel: nat, fpu: Fpu, ctrl: Double, limit: Double, step: Double, k: nat)
    requires fuel > 0 && k > 0
    ensures var next := (fpu.add)(ctrl, step);
            var vs, rest := FloatRounds(fuel, fpu, ctrl, limit, step), FloatRounds(fuel - 1, fpu, next, limit, step);
            if StaysFloat(next, limit, step) then (k < |vs| <==> k - 1 < |rest|) && (k < |vs| ==> vs[k] == rest[k - 1]) else |vs| == 1
  {
  }

  /** As long as the steps do not round, the float loop visits start + k * step exactly when that is not beyond the
      limit, the limit included; an infinite limit admits all or none. */
  lemma FloatVisitedIsArithmetic(fuel: nat, fpu: Fpu, x: real, limit: Double, d: real, k: nat)
    requires d != 0.0 && limit.Ordered() && StepsExactly(fpu, x, d, k) && k < fuel
    ensures var vs := FloatVisited(fuel, fpu, Fin(x), limit, Fin(d));
            && (k < |vs| <==> UpTo(x + k as real * d, limit, d > 0.0))
            && (k < |vs| ==> vs[k] == Fin(x + k as real * d))
  {
    var z := x + k as real * d;
    StaysUpTo(x, limit, d);
    AheadSteps(z, x, d, k);
    UpToEarlier(z, x, limit, d > 0.0);
    if UpTo(x, limit, d > 0.0) { RoundsAreArithmetic(fuel, fpu, x, z, limit, d, k); }
  }

  /** A NaN limit does not skip, and stops after the first round. */
  lemma NaNLimitRunsOnce(fuel: nat, fpu: Fpu, start: Double, step: Double)
    requires fuel > 0
    ensures FloatVisited(fuel, fpu, start, NaN, step) == [start]
  {
  }

  // ----- the dynamic loop on tagged values -----

  /** A boxed operand of a dynamic loop. */
  datatype Operand = Number(n: Num) | NotANumber

  /** The last is the comparison's own error, which does not say which operand is at fault. */
  datatype ForError = StepIsZero | StepNotNumber | LimitNotNumber | StartNotNumber | OperandNotNumber

  datatype Outcome<+S> = Ran(p: Progress<S>) | Raised(e: ForError)

  /** The reference: an integer loop when start and step are integers, otherwise limit, step and start must be numbers,
      in that order, and become floats. */
  function LuaFor<S>(fuel: nat, fpu: Fpu, start: Operand, limit: Operand, step: Operand, s: S, body: Body<S>): Outcome<S>
  {
    if start.Number? && start.n.I? && step.Number? && step.n.I? then
      (if step.n.i == 0 then Raised(StepIsZero) else IntHalf(start.n.i, limit, step.n.i, s, body))
    else if limit.NotANumber? then Raised(LimitNotNumber)
    else if step.NotANumber? then Raised(StepNotNumber)
    else if start.NotANumber? then Raised(StartNotNumber)
    else if IsZero(step.n) then Raised(StepIsZero)
    else Ran(LuaFloatFor(fuel, fpu, ToDouble(fpu, start.n), ToDouble(fpu, limit.n), ToDouble(fpu, step.n), s, body))
  }

  /** The typed integer loop as emitted: a constant zero step is refused at compile time (None), a float limit is clipped
      or skips the loop, and the step decides the shape. It is Lua's loop for every start, limit, step and body. */
  method TypedIntFor<S>(fuel: nat, fpu: Fpu, start: int64, limit: Num, step: int64, constant: bool, s0: S, body: Body<S>)
    returns (r: Option<Outcome<S>>)
    ensures r == if constant && step == 0 then None
                 else Some(LuaFor(fuel, fpu, Number(I(start)), Number(limit), Number(I(step)), s0, body))
  {
    if step == 0 { return if constant then None else Some(Raised(StepIsZero)); }
    var last: int64;
    match limit {
      case I(n) => last := n;
      case F(f) =>
        match LimitToInt(f, step) {
          case None => return Some(Ran(Progress(s0, true)));
          case Some(n) => last := n;
        }
    }
    var s: S;
    if constant { s := ConstStepFor(start, last, step, s0, body); }
    else { s := RuntimeStepFor(start, last, step, s0, body); }
    return Some(Ran(Progress(s, true)));
  }

  /** Under a float limit the loop visits the k-th value exactly when it lies within the float limit itself. */
  lemma FloatLimitVisits(start: int64, limit: Double, step: int64, k: nat)
    requires step != 0 && MIN <= start + k * step <= MAX
    ensures var n := LimitToInt(limit, step);
            n.Some? && k < |Visited(start, n.value, step)| <==>
            UpTo((start + k * step) as real, if limit.NaN? then NegInf else limit, step > 0)
  {
    LimitToIntIsExact(limit, step, start + k * step);
    var n := LimitToInt(limit, step);
    if n.Some? { VisitedIsArithmetic(start, n.value, step, k); }
  }

  predicate IsZero(n: Num) { if n.I? then n.i == 0 else Eq(n.f, Fin(0.0)) }

  /** Which steps are refused, and which way the others go: both zeros are refused, NaN goes down. */
  lemma StepSigns(n: Num)
    ensures IsZero(n) <==> n == I(0) || n == F(Fin(0.0)) || n == F(NegZero)
    ensures StepPositive(n) <==> if n.I? then n.i > 0 else n.f.PosInf? || (n.f.Fin? && n.f.r > 0.0)
  {
  }

  /** The integer loop under an integer or a clipped float limit. */
  function IntHalf<S>(start: int64, limit: Operand, step: int64, s: S, body: Body<S>): Outcome<S>
    requires step != 0
  {
    match limit
    case NotANumber => Raised(LimitNotNumber)
    case Number(I(n)) => Ran(Progress(IntFor(start, n, step, s, body), true))
    case Number(F(f)) =>
      match LimitToInt(f, step)
      case None => Ran(Progress(s, true))
      case Some(n) => Ran(Progress(IntFor(start, n, step, s, body), true))
  }

  /** The emitted skip test of the dynamic float half: OpLt on the values BEFORE they are converted. */
  predicate SkipsExact(start: Num, limit: Num, stepPositive: bool)
  {
    if stepPositive then NumLt(limit, start) else NumLt(start, limit)
  }

  predicate StepPositive(step: Num) { if step.I? then step.i > 0 else Lt(Fin(0.0), step.f) }

  /** The dynamic loop as emitted: type tests, skip test on the boxed values, conversion, `while (1)`. */
  method DynamicFor<S>(fuel: nat, fpu: Fpu, start: Operand, limit: Operand, step: Operand, s0: S, body: Body<S>)
    returns (r: Outcome<S>)
    ensures r == DynamicForSpec(fuel, fpu, start, limit, step, s0, body)
  {
    if step.NotANumber? { return Raised(StepNotNumber); }
    if IsZero(step.n) { return Raised(StepIsZero); }
    var stepPositive := StepPositive(step.n);
    if start.Number? && start.n.I? && step.n.I? {
      var lim: int64;
      match limit {
        case NotANumber => return Raised(LimitNotNumber);
        case Number(I(n)) => lim := n;
        case Number(F(f)) =>
          match LimitToInt(f, step.n.i) {
            case None => return Ran(Progress(s0, true));
            case Some(n) => lim := n;
          }
      }
      var s := DynamicIntFor(start.n.i, lim, step.n.i, s0, body);
      return Ran(Progress(s, true));
    }
    if limit.NotANumber? || start.NotANumber? { return Raised(OperandNotNumber); }
    if SkipsExact(start.n, limit.n, stepPositive) { return Ran(Progress(s0, true)); }
    var ctrl, last, inc := ToDouble(fpu, start.n), ToDouble(fpu, limit.n), ToDouble(fpu, step.n);
    var s, left := s0, fuel;
    while left > 0
      invariant FloatTail(left, fpu, ctrl, last, inc, stepPositive, s, body)
             == FloatTail(fuel, fpu, ToDouble(fpu, start.n), last, inc, stepPositive, s0, body)
    {
      var (s', broke) := body(s, F(ctrl));
      s, left := s', left - 1;
      if broke { return Ran(Progress(s, true)); }
      ctrl := (fpu.add)(ctrl, inc);
      if !(if stepPositive then Le(ctrl, last) else Le(last, ctrl)) { return Ran(Progress(s, true)); }
    }
    return Ran(Progress(s, false));
  }

  /** The float half of the dynamic loop keeps the direction it read from the boxed step. */
  function FloatTail<S>(fuel: nat, fpu: Fpu, ctrl: Double, limit: Double, step: Double, up: bool, s: S, body: Body<S>): Progress<S>
  {
    if fuel == 0 then Progress(s, false)
    else
      var (s', broke) := body(s, F(ctrl));
      var next := (fpu.add)(ctrl, step);
      if broke || !(if up then Le(next, limit) else Le(limit, next)) then Progress(s', true)
      else FloatTail(fuel - 1, fpu, next, limit, step, up, s', body)
  }

  function DynamicForSpec<S>(fuel: nat, fpu: Fpu, start: Operand, limit: Operand, step: Operand, s: S, body: Body<S>): Outcome<S>
  {
    if step.NotANumber? then Raised(StepNotNumber)
    else if IsZero(step.n) then Raised(StepIsZero)
    else if start.Number? && start.n.I? && step.n.I? then IntHalf(start.n.i, limit, step.n.i, s, body)
    else if limit.NotANumber? || start.NotANumber? then Raised(OperandNotNumber)
    else if SkipsExact(start.n, limit.n, StepPositive(step.n)) then Ran(Progress(s, true))
    else Ran(FloatTail(fuel, fpu, ToDouble(fpu, start.n), ToDouble(fpu, limit.n), ToDouble(fpu, step.n),
                       StepPositive(step.n), s, body))
  }

  /** The one place where the dynamic float loop can leave the reference: whether the skip decision,
      taken exactly, agrees with the decision on the converted values. */
  predicate SkipAgrees(fpu: Fpu, start: Operand, limit: Operand, step: Operand)
  {
    start.Number? && limit.Number? && step.Number? && !IsZero(step.n) && !(start.n.I? && step.n.I?) ==>
      (SkipsExact(start.n, limit.n, StepPositive(step.n)) <==>
       SkipsFloat(ToDouble(fpu, start.n), ToDouble(fpu, limit.n), ToDouble(fpu, step.n)))
  }

  /** The sign of an integer survives conversion to double. */
  ghost predicate KeepsSign(fpu: Fpu)
  {
    forall i: int64 :: Lt(Fin(0.0), (fpu.fromInt)(i)) <==> i > 0
  }

  lemma {:induction false} FloatTailIsFloatFor<S>(fuel: nat, fpu: Fpu, ctrl: Double, limit: Double, step: Double, s: S, body: Body<S>)
    ensures FloatTail(fuel, fpu, ctrl, limit, step, Lt(Fin(0.0), step), s, body) == FloatFor(fuel, fpu, ctrl, limit, step, s, body)
  {
    if fuel > 0 {
      var (s', broke) := body(s, F(ctrl));
      FloatTailIsFloatFor(fuel - 1, fpu, (fpu.add)(ctrl, step), limit, step, s', body);
    }
  }

  /** The same run, or an error on both sides; with several faults, and in the float loop always, the code may name
      another one. */
  ghost predicate SameOutcome<S>(a: Outcome<S>, b: Outcome<S>) { if a.Raised? then b.Raised? else a == b }

  /** With agreeing skip decisions the dynamic loop is the reference loop, for every body, state and bound. */
  lemma DynamicForIsLuaFor<S>(fuel: nat, fpu: Fpu, start: Operand, limit: Operand, step: Operand, s: S, body: Body<S>)
    requires KeepsSign(fpu)
    requires SkipAgrees(fpu, start, limit, step)
    ensures SameOutcome(DynamicForSpec(fuel, fpu, start, limit, step, s, body), LuaFor(fuel, fpu, start, limit, step, s, body))
  {
    if start.Number? && limit.Number? && step.Number? {
      FloatTailIsFloatFor(fuel, fpu, ToDouble(fpu, start.n), ToDouble(fpu, limit.n), ToDouble(fpu, step.n), s, body);
      assert StepPositive(step.n) == Lt(Fin(0.0), ToDouble(fpu, step.n));
    }
  }

  /** The dynamic loop is the reference loop on every body exactly when the skip decisions agree. */
  lemma DynamicForIsLuaForIff(fpu: Fpu, start: Operand, limit: Operand, step: Operand)
    requires KeepsSign(fpu)
    ensures (forall fuel: nat, s: bool, body: Body<bool> ::
               SameOutcome(DynamicForSpec(fuel, fpu, start, limit, step, s, body),
                           LuaFor(fuel, fpu, start, limit, step, s, body)))
            <==> SkipAgrees(fpu, start, limit, step)
  {
    if SkipAgrees(fpu, start, limit, step) {
      forall fuel: nat, s: bool, body: Body<bool> {
        DynamicForIsLuaFor(fuel, fpu, start, limit, step, s, body);
      }
    } else {
      var body: Body<bool> := (s, n) => (true, true);
      assert !SameOutcome(DynamicForSpec(1, fpu, start, limit, step, false, body), LuaFor(1, fpu, start, limit, step, false, body));
    }
  }

  /** Conversion is exact up to 2^53 in magnitude. */
  ghost predicate ExactToTwo53(fpu: Fpu)
  {
    forall i: int64 :: -9007199254740992 <= i <= 9007199254740992 ==> (fpu.fromInt)(i) == Fin(i as real)
  }

  predicate SmallOrFloat(n: Num) { n.I? ==> -9007199254740992 <= n.i <= 9007199254740992 }

  lemma SmallOperandsAgree(fpu: Fpu, start: Num, limit: Num, step: Num)
    requires KeepsSign(fpu) && ExactToTwo53(fpu)
    requires SmallOrFloat(start) && SmallOrFloat(limit)
    ensures SkipAgrees(fpu, Number(start), Number(limit), Number(step))
  {
  }

  /** Beyond 2^53 they can disagree: 2^53 + 1 rounds to 2^53, so the reference loop from 2^53 + 1 to 2^53
      by 1.0 runs once, and the emitted dynamic loop not at all. */
  lemma LargeStartDisagrees(fpu: Fpu)
    requires (fpu.fromInt)(9007199254740993) == Fin(9007199254740992.0)
    ensures !SkipAgrees(fpu, Number(I(9007199254740993)), Number(F(Fin(9007199254740992.0))), Number(F(Fin(1.0))))
  {
  }
}
