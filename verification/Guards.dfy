/** `if`, `while` and `repeat` around their compiled guards, with arbitrary bodies. */
module Guards {
  import opened Options
  import opened Machine
  import opened LuaExp
  import opened CTarget
  import opened NumericGen
  import opened NumericCorrect
  import opened NumericTheorem
  import opened CleanCode
  import opened Conditions

  /** How a body ends; `Left` stands for `return`, `goto` out of the loop, and errors raised inside. */
  datatype BodyEnd = Next(env: Env, log: Log) | Broke(env: Env, log: Log) | Left(code: int, log: Log)

  /** A body as Lua sees it, and what its C code does to the temporaries meanwhile. */
  datatype Body = Body(run: (Env, Log) -> BodyEnd, scratch: (Env, Log, Tmps) -> Tmps)

  datatype LoopEnd = Finished(env: Env, log: Log) | Escaped(code: int, log: Log) | Raised(e: Error, log: Log) | Running | Wrong

  /** The body keeps every variable at its inferred type. */
  ghost predicate Keeps(w: World, c: Ctx, body: Body)
  {
    forall env, log :: Setting(w, c, env) && !(body.run)(env, log).Left? ==> Setting(w, c, (body.run)(env, log).env)
  }

  // ----- while -----

  function LuaWhile(w: World, e: Exp, body: Body, env: Env, log: Log, fuel: nat): LoopEnd
    decreases fuel
  {
    if fuel == 0 then Running
    else match Eval(w, e, env, log)
      case Err(x, g) => Raised(x, g)
      case Ok(v, g) =>
        if !Truthy(v) then Finished(env, g)
        else match (body.run)(env, g)
          case Next(env1, h) => LuaWhile(w, e, body, env1, h, fuel - 1)
          case Broke(env1, h) => Finished(env1, h)
          case Left(code, h) => Escaped(code, h)
  }

  /** TryCompileNativeBoolExpr with `require_pure`. */
  function PureBool(c: Ctx, e: Exp, n: nat): Gen
  {
    match e
    case Paren(e1) => PureBool(c, e1, n)
    case Not(e1) =>
      var g := PureBool(c, e1, n);
      if g.res.None? then g else WithRes(g, CUn(NotC, g.res.value))
    case Cmp(cmp, l, r) =>
      if IsNum(GetType(c, l)) && IsNum(GetType(c, r)) && IsPure(c, l) && IsPure(c, r) then
        var gl := Numeric(c, l, n);
        CompareText(cmp, GetType(c, l), GetType(c, r), gl, Numeric(c, r, gl.next))
      else Miss(n)
    case _ => Miss(n)
  }

  /** `while (1) { out; if (!g) break; ... }`; with no statements and the guard in the header, `while (g)`. */
  datatype Loop = Loop(inHeader: bool, out: seq<Stmt>, g: Guard)

  /** The statements in front of the loop, the loop, and whether no attempt failed on the way. */
  datatype WhileCode = WhileCode(front: seq<Stmt>, loop: Option<Loop>, ok: bool)

  /** CompileStmt and CompileStmtWhile: deciding whether the statement can throw compiles its guard as a
      native condition and keeps the statements that wrote. */
  function CompileWhile(c: Ctx, e: Exp, n: nat): WhileCode
  {
    var probe := NativeBool(c, e, n);
    var header := PureBool(c, e, probe.next);
    match header.res
    case Some(g) => WhileCode(probe.out + header.out, Some(Loop(true, [], Test(g))), probe.ok && header.ok)
    case None =>
      var cond := Cond(c, e, header.next);
      WhileCode(probe.out + header.out, match cond.res case None => None case Some(g) => Some(Loop(false, cond.out, g)),
                probe.ok && header.ok && cond.ok)
  }

  function RunWhile(w: World, loop: Loop, body: Body, env: Env, t: Tmps, log: Log, fuel: nat): LoopEnd
    decreases fuel
  {
    if fuel == 0 then Running
    else
      match RunGuard(w, loop.out, loop.g, env, t, log)
      case GuardStuck => Wrong
      case GuardEnd(Err(x, g), _) => Raised(x, g)
      case GuardEnd(Ok(b, g), u) =>
        if !b then Finished(env, g)
        else match (body.run)(env, g)
          case Next(env1, h) => RunWhile(w, loop, body, env1, (body.scratch)(env, g, u), h, fuel - 1)
          case Broke(env1, h) => Finished(env1, h)
          case Left(code, h) => Escaped(code, h)
  }

  function RunWhileCode(w: World, code: WhileCode, body: Body, env: Env, t: Tmps, log: Log, fuel: nat): LoopEnd
  {
    if code.loop.None? then Wrong
    else match Exec(w, code.front, env, t, log)
    case Stuck => Wrong
    case Failed(x, g) => Raised(x, g)
    case Done(u, g) => RunWhile(w, code.loop.value, body, env, u, g, fuel)
  }

  /** A guard accepted by the purity test writes no statement: it is re-evaluated whole in the loop header. */
  lemma {:induction false} PureBoolEmitsNothing(c: Ctx, e: Exp, n: nat)
    ensures var g := PureBool(c, e, n);
            && g.out == [] && g.next == n
            && (g.res.Some? ==> BoolShape(c, e) && g == NativeBool(c, e, n))
  {
    match e
    case Paren(e1) => PureBoolEmitsNothing(c, e1, n);
    case Not(e1) => PureBoolEmitsNothing(c, e1, n);
    case Cmp(_, l, r) =>
      if IsPure(c, l) && IsPure(c, r) { PureEmitsNothing(c, l, n); PureEmitsNothing(c, r, n); }
    case _ =>
  }

  /** A `while` is compiled without a failed attempt exactly when its guard is. */
  lemma WhileCleanIff(c: Ctx, e: Exp, n: nat)
    ensures var code := CompileWhile(c, e, n); code.ok && code.loop.Some? <==> GuardClean(c, e)
  {
    var n1 := NativeBool(c, e, n).next;
    var header := PureBool(c, e, n1);
    NativeBoolDecides(c, e, n);
    PureBoolEmitsNothing(c, e, n1);
    if BoolShape(c, e) {
      NativeBoolCleanIff(c, e, n);
      NativeBoolCleanIff(c, e, n1);
    }
    GuardCleanIff(c, e, header.next);
    PureBoolMisses(c, e, n1);
  }

  lemma {:induction false} PureBoolMisses(c: Ctx, e: Exp, n: nat)
    ensures PureBool(c, e, n).res.None? ==> PureBool(c, e, n) == Miss(n)
  {
    match e
    case Paren(e1) => PureBoolMisses(c, e1, n);
    case Not(e1) => PureBoolMisses(c, e1, n);
    case _ =>
  }

  /** One evaluation of the emitted guard, in either shape, is one Lua evaluation of the condition. */
  lemma LoopGuardIsCorrect(w: World, c: Ctx, e: Exp, n: nat, env: Env, t: Tmps, log: Log)
    requires Setting(w, c, env) && Regular(c, e) && GuardFine(c, e)
    requires GuardClean(c, e)
    ensures CompileWhile(c, e, n).loop.Some?
    ensures var loop := CompileWhile(c, e, n).loop.value;
            var r := RunGuard(w, loop.out, loop.g, env, t, log);
            r.GuardEnd? && r.r == Truth(Eval(w, e, env, log))
  {
    WhileCleanIff(c, e, n);
    var n1 := NativeBool(c, e, n).next;
    PureBoolEmitsNothing(c, e, n1);
    var header := PureBool(c, e, n1);
    if header.res.Some? {
      NativeBoolIsCorrect(w, c, e, n1, env, t, log);
      TestDecides(w, header, env, t, log, Eval(w, e, env, log));
    } else {
      CondIsCorrect(w, c, e, n1, env, t, log);
    }
  }

  /** When the emitted guard decides as Lua's condition, both loops end or go on together. */
  lemma WhileRound(w: World, e: Exp, loop: Loop, body: Body, env: Env, t: Tmps, log: Log, fuel: nat)
    requires fuel > 0
    requires var r := RunGuard(w, loop.out, loop.g, env, t, log); r.GuardEnd? && r.r == Truth(Eval(w, e, env, log))
    ensures var r := RunGuard(w, loop.out, loop.g, env, t, log);
            var b := (body.run)(env, r.r.log);
            if r.r.Ok? && r.r.v && b.Next? then
              && RunWhile(w, loop, body, env, t, log, fuel) ==
                 RunWhile(w, loop, body, b.env, (body.scratch)(env, r.r.log, r.t), b.log, fuel - 1)
              && LuaWhile(w, e, body, env, log, fuel) == LuaWhile(w, e, body, b.env, b.log, fuel - 1)
            else RunWhile(w, loop, body, env, t, log, fuel) == LuaWhile(w, e, body, env, log, fuel)
  {
  }

  /** Wherever the variables have their types, running this guard is evaluating the condition. */
  ghost predicate Deciding(w: World, c: Ctx, e: Exp, out: seq<Stmt>, g: Guard)
  {
    forall env: Env, t: Tmps, log: Log :: Setting(w, c, env) ==> DecidesHere(w, e, out, g, env, t, log)
  }

  predicate DecidesHere(w: World, e: Exp, out: seq<Stmt>, g: Guard, env: Env, t: Tmps, log: Log)
  {
    var r := RunGuard(w, out, g, env, t, log); r.GuardEnd? && r.r == Truth(Eval(w, e, env, log))
  }

  /** By induction on the number of rounds. */
  lemma {:induction false} RoundsAreLuaWhile(w: World, c: Ctx, e: Exp, loop: Loop, body: Body, env: Env, t: Tmps, log: Log, fuel: nat)
    requires Setting(w, c, env) && Keeps(w, c, body) && Deciding(w, c, e, loop.out, loop.g)
    ensures RunWhile(w, loop, body, env, t, log, fuel) == LuaWhile(w, e, body, env, log, fuel)
    decreases fuel
  {
    if fuel > 0 {
      assert DecidesHere(w, e, loop.out, loop.g, env, t, log);
      WhileRound(w, e, loop, body, env, t, log, fuel);
      var r := RunGuard(w, loop.out, loop.g, env, t, log);
      if r.r.Ok? && r.r.v {
        var b := (body.run)(env, r.r.log);
        if b.Next? {
          KeepsStep(w, c, body, env, r.r.log);
          RoundsAreLuaWhile(w, c, e, loop, body, b.env, (body.scratch)(env, r.r.log, r.t), b.log, fuel - 1);
        }
      }
    }
  }

  /** The emitted loop, in either shape, is Lua's loop. */
  lemma LoopIsLuaWhile(w: World, c: Ctx, e: Exp, n: nat, body: Body, env: Env, t: Tmps, log: Log, fuel: nat)
    requires Setting(w, c, env) && Regular(c, e) && GuardFine(c, e) && Keeps(w, c, body)
    requires GuardClean(c, e)
    ensures CompileWhile(c, e, n).loop.Some?
    ensures RunWhile(w, CompileWhile(c, e, n).loop.value, body, env, t, log, fuel) == LuaWhile(w, e, body, env, log, fuel)
  {
    WhileCleanIff(c, e, n);
    var loop := CompileWhile(c, e, n).loop.value;
    forall env: Env, t: Tmps, log: Log | Setting(w, c, env) ensures DecidesHere(w, e, loop.out, loop.g, env, t, log) {
      LoopGuardIsCorrect(w, c, e, n, env, t, log);
    }
    RoundsAreLuaWhile(w, c, e, loop, body, env, t, log, fuel);
  }

  lemma KeepsStep(w: World, c: Ctx, body: Body, env: Env, log: Log)
    requires Setting(w, c, env) && Keeps(w, c, body) && !(body.run)(env, log).Left?
    ensures Setting(w, c, (body.run)(env, log).env)
  {
  }

  /** The whole emitted statement: a guard in native form has been evaluated once before the loop starts. */
  lemma WhileIsLuaAfterProbe(w: World, c: Ctx, e: Exp, n: nat, body: Body, env: Env, t: Tmps, log: Log, fuel: nat)
    requires Setting(w, c, env) && Regular(c, e) && GuardFine(c, e) && Keeps(w, c, body)
    requires GuardClean(c, e)
    ensures RunWhileCode(w, CompileWhile(c, e, n), body, env, t, log, fuel) ==
            var probe := Eval(w, e, env, log);
            if !BoolShape(c, e) then LuaWhile(w, e, body, env, log, fuel)
            else if probe.Err? then Raised(probe.e, probe.log)
            else LuaWhile(w, e, body, env, probe.log, fuel)
  {
    var probe := NativeBool(c, e, n);
    var code := CompileWhile(c, e, n);
    WhileCleanIff(c, e, n);
    PureBoolEmitsNothing(c, e, probe.next);
    assert code.front == probe.out;
    NativeBoolDecides(c, e, n);
    if BoolShape(c, e) {
      NativeBoolIsCorrect(w, c, e, n, env, t, log);
      var r := Exec(w, probe.out, env, t, log);
      if r.Done? { LoopIsLuaWhile(w, c, e, n, body, env, r.t, r.log, fuel); }
    } else {
      LoopIsLuaWhile(w, c, e, n, body, env, t, log, fuel);
    }
  }

  function BreakAtOnce(): Body { Body((env, g) => Broke(env, g), (env, g, t) => t) }

  lemma OneRound(w: World, e: Exp, env: Env, log: Log)
    ensures var r := Eval(w, e, env, log);
            LuaWhile(w, e, BreakAtOnce(), env, log, 1) == if r.Err? then Raised(r.e, r.log) else Finished(env, r.log)
  {
  }

  lemma ProbeShows(w: World, c: Ctx, e: Exp, n: nat, env: Env, t: Tmps, log: Log)
    requires Setting(w, c, env) && Regular(c, e) && GuardFine(c, e)
    requires GuardClean(c, e)
    requires var r := Eval(w, e, env, log); BoolShape(c, e) && r.Ok? && r.log != log
    ensures var once := BreakAtOnce();
            && Keeps(w, c, once)
            && RunWhileCode(w, CompileWhile(c, e, n), once, env, t, log, 1) != LuaWhile(w, e, once, env, log, 1)
  {
    var r := Eval(w, e, env, log);
    assert Keeps(w, c, BreakAtOnce());
    WhileIsLuaAfterProbe(w, c, e, n, BreakAtOnce(), env, t, log, 1);
    OneRound(w, e, env, log);
    OneRound(w, e, env, r.log);
    SilentEverywhere(w, e, env, r.log, log);
  }

  /** So the emitted `while` is Lua's `while` for every body exactly when its guard is not native, or its first
      evaluation raises or makes no call. */
  lemma WhileIsLuaIff(w: World, c: Ctx, e: Exp, n: nat, env: Env, t: Tmps, log: Log)
    requires Setting(w, c, env) && Regular(c, e) && GuardFine(c, e)
    requires GuardClean(c, e)
    ensures (forall body: Body, fuel: nat | Keeps(w, c, body) && fuel > 0 ::
               RunWhileCode(w, CompileWhile(c, e, n), body, env, t, log, fuel) == LuaWhile(w, e, body, env, log, fuel))
            <==> var r := Eval(w, e, env, log); !BoolShape(c, e) || r.Err? || r.log == log
  {
    var r := Eval(w, e, env, log);
    var code := CompileWhile(c, e, n);
    if !BoolShape(c, e) || r.Err? || r.log == log {
      forall body: Body, fuel: nat | Keeps(w, c, body) && fuel > 0
        ensures RunWhileCode(w, code, body, env, t, log, fuel) == LuaWhile(w, e, body, env, log, fuel)
      {
        WhileIsLuaAfterProbe(w, c, e, n, body, env, t, log, fuel);
      }
    } else {
      ProbeShows(w, c, e, n, env, t, log);
      assert RunWhileCode(w, code, BreakAtOnce(), env, t, log, 1) != LuaWhile(w, e, BreakAtOnce(), env, log, 1);
    }
  }

  // ----- repeat -----

  function LuaRepeat(w: World, e: Exp, body: Body, env: Env, log: Log, fuel: nat): LoopEnd
    decreases fuel
  {
    if fuel == 0 then Running
    else match (body.run)(env, log)
      case Broke(env1, h) => Finished(env1, h)
      case Left(code, h) => Escaped(code, h)
      case Next(env1, h) =>
        match Eval(w, e, env1, h)
        case Err(x, g) => Raised(x, g)
        case Ok(v, g) => if Truthy(v) then Finished(env1, g) else LuaRepeat(w, e, body, env1, g, fuel - 1)
  }

  /** CompileStmtRepeat: the guard's statements follow the body inside the loop. */
  function RunRepeat(w: World, out: seq<Stmt>, guard: Guard, body: Body, env: Env, t: Tmps, log: Log, fuel: nat): LoopEnd
    decreases fuel
  {
    if fuel == 0 then Running
    else match (body.run)(env, log)
      case Broke(env1, h) => Finished(env1, h)
      case Left(code, h) => Escaped(code, h)
      case Next(env1, h) =>
        match RunGuard(w, out, guard, env1, (body.scratch)(env, log, t), h)
        case GuardStuck => Wrong
        case GuardEnd(Err(x, g), _) => Raised(x, g)
        case GuardEnd(Ok(b, g), u) => if b then Finished(env1, g) else RunRepeat(w, out, guard, body, env1, u, g, fuel - 1)
  }

  lemma RepeatRound(w: World, e: Exp, out: seq<Stmt>, guard: Guard, body: Body, env: Env, t: Tmps, log: Log, fuel: nat)
    requires fuel > 0
    requires var b := (body.run)(env, log);
             b.Next? ==>
             var r := RunGuard(w, out, guard, b.env, (body.scratch)(env, log, t), b.log);
             r.GuardEnd? && r.r == Truth(Eval(w, e, b.env, b.log))
    ensures var b := (body.run)(env, log);
            if b.Next? && var r := RunGuard(w, out, guard, b.env, (body.scratch)(env, log, t), b.log); r.r.Ok? && !r.r.v then
              var r := RunGuard(w, out, guard, b.env, (body.scratch)(env, log, t), b.log);
              && RunRepeat(w, out, guard, body, env, t, log, fuel) == RunRepeat(w, out, guard, body, b.env, r.t, r.r.log, fuel - 1)
              && LuaRepeat(w, e, body, env, log, fuel) == LuaRepeat(w, e, body, b.env, r.r.log, fuel - 1)
            else RunRepeat(w, out, guard, body, env, t, log, fuel) == LuaRepeat(w, e, body, env, log, fuel)
  {
  }

  lemma {:induction false} RoundsAreLuaRepeat(w: World, c: Ctx, e: Exp, out: seq<Stmt>, guard: Guard, body: Body,
                                              env: Env, t: Tmps, log: Log, fuel: nat)
    requires Setting(w, c, env) && Keeps(w, c, body) && Deciding(w, c, e, out, guard)
    ensures RunRepeat(w, out, guard, body, env, t, log, fuel) == LuaRepeat(w, e, body, env, log, fuel)
    decreases fuel
  {
    if fuel > 0 {
      var b := (body.run)(env, log);
      var t1 := (body.scratch)(env, log, t);
      if b.Next? {
        KeepsStep(w, c, body, env, log);
        assert DecidesHere(w, e, out, guard, b.env, t1, b.log);
      }
      RepeatRound(w, e, out, guard, body, env, t, log, fuel);
      if b.Next? {
        var r := RunGuard(w, out, guard, b.env, t1, b.log);
        if r.r.Ok? && !r.r.v { RoundsAreLuaRepeat(w, c, e, out, guard, body, b.env, r.t, r.r.log, fuel - 1); }
      }
    }
  }

  lemma RepeatIsLua(w: World, c: Ctx, e: Exp, n: nat, body: Body, env: Env, t: Tmps, log: Log, fuel: nat)
    requires Setting(w, c, env) && Regular(c, e) && GuardFine(c, e) && Keeps(w, c, body) && GuardClean(c, e)
    ensures var g := Cond(c, e, n);
            g.res.Some? && RunRepeat(w, g.out, g.res.value, body, env, t, log, fuel) == LuaRepeat(w, e, body, env, log, fuel)
  {
    GuardCleanIff(c, e, n);
    var g := Cond(c, e, n);
    forall env: Env, t: Tmps, log: Log | Setting(w, c, env) ensures DecidesHere(w, e, g.out, g.res.value, env, t, log) {
      CondIsCorrect(w, c, e, n, env, t, log);
    }
    RoundsAreLuaRepeat(w, c, e, g.out, g.res.value, body, env, t, log, fuel);
  }

  // ----- if, elseif, else -----

  /** The index of the branch taken; |es| is the else branch. */
  function LuaChoice(w: World, es: seq<Exp>, env: Env, log: Log): Res<nat>
  {
    if es == [] then Ok(0, log)
    else match Eval(w, es[0], env, log)
      case Err(x, g) => Err(x, g)
      case Ok(v, g) =>
        if Truthy(v) then Ok(0, g)
        else match LuaChoice(w, es[1..], env, g)
          case Err(x, h) => Err(x, h)
          case Ok(i, h) => Ok(i + 1, h)
  }

  /** Each `elseif` guard is compiled inside the `else` of the one before. */
  function CompileChoice(c: Ctx, es: seq<Exp>, n: nat): seq<CondGen>
  {
    if es == [] then []
    else
      var g := Cond(c, es[0], n);
      [g] + CompileChoice(c, es[1..], g.next)
  }

  datatype ChoiceEnd = Chosen(r: Res<nat>) | ChoiceStuck

  function RunChoice(w: World, gs: seq<CondGen>, env: Env, t: Tmps, log: Log): ChoiceEnd
  {
    if gs == [] then Chosen(Ok(0, log))
    else if gs[0].res.None? then ChoiceStuck
    else match RunGuard(w, gs[0].out, gs[0].res.value, env, t, log)
      case GuardStuck => ChoiceStuck
      case GuardEnd(Err(x, g), _) => Chosen(Err(x, g))
      case GuardEnd(Ok(b, g), u) =>
        if b then Chosen(Ok(0, g))
        else match RunChoice(w, gs[1..], env, u, g)
          case Chosen(Ok(i, h)) => Chosen(Ok(i + 1, h))
          case x => x
  }

  /** CompileStmt and CompileStmtIf: the first guard's probe, then the chain. */
  function RunIf(w: World, c: Ctx, es: seq<Exp>, n: nat, env: Env, t: Tmps, log: Log): ChoiceEnd
    requires es != []
  {
    var probe := NativeBool(c, es[0], n);
    match Exec(w, probe.out, env, t, log)
    case Stuck => ChoiceStuck
    case Failed(x, g) => Chosen(Err(x, g))
    case Done(u, g) => RunChoice(w, CompileChoice(c, es, probe.next), env, u, g)
  }

  predicate ChoiceFine(c: Ctx, es: seq<Exp>)
  {
    forall i :: 0 <= i < |es| ==> Regular(c, es[i]) && GuardFine(c, es[i]) && GuardClean(c, es[i])
  }

  /** When the first guard decides as Lua's condition, the rest of the chain decides the rest. */
  lemma ChoiceStep(w: World, es: seq<Exp>, gs: seq<CondGen>, env: Env, t: Tmps, log: Log)
    requires es != [] && gs != [] && gs[0].res.Some?
    requires var r := RunGuard(w, gs[0].out, gs[0].res.value, env, t, log); r.GuardEnd? && r.r == Truth(Eval(w, es[0], env, log))
    ensures var r := RunGuard(w, gs[0].out, gs[0].res.value, env, t, log);
            (r.r.Ok? && !r.r.v ==> RunChoice(w, gs[1..], env, r.t, r.r.log) == Chosen(LuaChoice(w, es[1..], env, r.r.log))) ==>
            RunChoice(w, gs, env, t, log) == Chosen(LuaChoice(w, es, env, log))
  {
  }

  lemma {:induction false} ChoiceIsLua(w: World, c: Ctx, es: seq<Exp>, n: nat, env: Env, t: Tmps, log: Log)
    requires Setting(w, c, env) && ChoiceFine(c, es)
    ensures RunChoice(w, CompileChoice(c, es, n), env, t, log) == Chosen(LuaChoice(w, es, env, log))
    decreases |es|
  {
    if es != [] {
      var gs := CompileChoice(c, es, n);
      var g := Cond(c, es[0], n);
      assert gs[0] == g && gs[1..] == CompileChoice(c, es[1..], g.next);
      GuardCleanIff(c, es[0], n);
      CondIsCorrect(w, c, es[0], n, env, t, log);
      ChoiceStep(w, es, gs, env, t, log);
      var r := RunGuard(w, g.out, g.res.value, env, t, log);
      if r.r.Ok? && !r.r.v {
        assert forall i :: 0 <= i < |es[1..]| ==> es[1..][i] == es[i + 1];
        ChoiceIsLua(w, c, es[1..], g.next, env, r.t, r.r.log);
      }
    }
  }

  /** An emitted `if` takes Lua's branch, started after one extra evaluation of a native first guard. */
  lemma IfIsLuaAfterProbe(w: World, c: Ctx, es: seq<Exp>, n: nat, env: Env, t: Tmps, log: Log)
    requires es != [] && Setting(w, c, env) && ChoiceFine(c, es)
    ensures RunIf(w, c, es, n, env, t, log) ==
            var probe := Eval(w, es[0], env, log);
            Chosen(if !BoolShape(c, es[0]) then LuaChoice(w, es, env, log)
                   else if probe.Err? then Err(probe.e, probe.log)
                   else LuaChoice(w, es, env, probe.log))
  {
    var g := NativeBool(c, es[0], n);
    NativeBoolDecides(c, es[0], n);
    if BoolShape(c, es[0]) {
      NativeBoolIsCorrect(w, c, es[0], n, env, t, log);
      var r := Exec(w, g.out, env, t, log);
      if r.Done? { ChoiceIsLua(w, c, es, g.next, env, r.t, r.log); }
    } else {
      ChoiceIsLua(w, c, es, g.next, env, t, log);
    }
  }

  function Moved<V>(r: Res<V>, log: Log): Res<V>
  {
    match r case Ok(v, _) => Ok(v, log) case Err(x, _) => Err(x, log)
  }

  /** Evaluation only appends to the call log; one that appends nothing does the same under every log. */
  lemma {:induction false} SilentEverywhere(w: World, e: Exp, env: Env, log: Log, other: Log)
    ensures log <= Eval(w, e, env, log).log
    ensures Eval(w, e, env, log).log == log ==> Eval(w, e, env, other) == Moved(Eval(w, e, env, log), other)
    decreases e, 1
  {
    match e
    case Paren(e1) => SilentEverywhere(w, e1, env, log, other);
    case Arith(_, l, r) => SilentPair(w, e, l, r, env, log, other);
    case Cmp(_, l, r) => SilentPair(w, e, l, r, env, log, other);
    case And(l, r) => SilentPair(w, e, l, r, env, log, other);
    case Or(l, r) => SilentPair(w, e, l, r, env, log, other);
    case Neg(e1) => SilentEverywhere(w, e1, env, log, other);
    case Compl(e1) => SilentEverywhere(w, e1, env, log, other);
    case Len(e1) => SilentEverywhere(w, e1, env, log, other);
    case Not(e1) => SilentEverywhere(w, e1, env, log, other);
    case Call(f, args) =>
      ArgsSilent(w, args, env, log, other);
      var a := EvalAll(w, args, env, log);
      assert a.Ok? ==> |Eval(w, e, env, log).log| == |a.log| + 1;
    case _ =>
  }

  lemma {:induction false} SilentPair(w: World, parent: Exp, l: Exp, r: Exp, env: Env, log: Log, other: Log)
    requires l < parent && r < parent
    ensures var a := Eval(w, l, env, log);
            && log <= a.log
            && (a.log == log ==> Eval(w, l, env, other) == Moved(a, other))
            && (a.Ok? ==> a.log <= Eval(w, r, env, a.log).log)
            && (a.Ok? && Eval(w, r, env, a.log).log == log ==> a.log == log && Eval(w, r, env, other) == Moved(Eval(w, r, env, a.log), other))
    decreases parent, 0
  {
    SilentEverywhere(w, l, env, log, other);
    var a := Eval(w, l, env, log);
    if a.Ok? { SilentEverywhere(w, r, env, a.log, other); }
  }

  lemma {:induction false} ArgsSilent(w: World, es: Exps, env: Env, log: Log, other: Log)
    ensures var a := EvalAll(w, es, env, log);
            && log <= a.log
            && (a.log == log ==> EvalAll(w, es, env, other) == Moved(a, other))
    decreases es, 0
  {
    if es.Exps? {
      SilentEverywhere(w, es.head, env, log, other);
      var a := Eval(w, es.head, env, log);
      if a.Ok? { ArgsSilent(w, es.tail, env, a.log, other); }
    }
  }

  lemma LuaChoiceOfOne(w: World, e: Exp, env: Env, log: Log)
    ensures LuaChoice(w, [e], env, log) ==
            match Eval(w, e, env, log)
            case Err(x, h) => Err(x, h)
            case Ok(v, h) => if Truthy(v) then Ok(0, h) else Ok(1, h)
  {
    assert [e][1..] == [];
  }

  /** The emitted `if` with one guard agrees with Lua in a state exactly when the guard is not native, or
      raises, or makes no call there. */
  lemma IfIsLuaIff(w: World, c: Ctx, e: Exp, n: nat, env: Env, t: Tmps, log: Log)
    requires Setting(w, c, env) && ChoiceFine(c, [e])
    ensures RunIf(w, c, [e], n, env, t, log) == Chosen(LuaChoice(w, [e], env, log)) <==>
            var r := Eval(w, e, env, log); !BoolShape(c, e) || r.Err? || r.log == log
  {
    IfIsLuaAfterProbe(w, c, [e], n, env, t, log);
    var r := Eval(w, e, env, log);
    LuaChoiceOfOne(w, e, env, log);
    LuaChoiceOfOne(w, e, env, r.log);
    if BoolShape(c, e) && r.Ok? && r.log != log {
      SilentEverywhere(w, e, env, r.log, log);
    }
  }

  /** `if f(1) < 2 then`: the emitted code calls `f` twice. */
  lemma NativeGuardCallsTwice(w: World, c: Ctx, env: Env)
    requires forall f, vs, g :: (w.host)(f, vs, g) == Returns(Number(I(0)))
    requires c.vars == map[] && c.funcs.Keys == {"f"} && c.funcs["f"].arity == 1
    requires forall ts :: (c.funcs["f"].ret)(ts) == TInt
    requires env == Env(map[], map[])
    ensures var e := Cmp(Less, Call("f", Exps(Lit(I(1)), NoExps)), Lit(I(2)));
            var once := Called("f", [Number(I(1))]);
            && LuaChoice(w, [e], env, []) == Ok(0, [once])
            && RunIf(w, c, [e], 0, env, map[], []) == Chosen(Ok(0, [once, once]))
  {
    var e := Cmp(Less, Call("f", Exps(Lit(I(1)), NoExps)), Lit(I(2)));
    var once := Called("f", [Number(I(1))]);
    CallReturnsZero(w, env, []);
    CallReturnsZero(w, env, [once]);
    assert [] + [once] == [once] && [once] + [once] == [once, once];
    NativeCallSettled(w, c, env);
    IfIsLuaAfterProbe(w, c, [e], 0, env, map[], []);
    LuaChoiceOfOne(w, e, env, []);
    LuaChoiceOfOne(w, e, env, [once]);
  }

  lemma CallReturnsZero(w: World, env: Env, g: Log)
    requires forall f, vs, g :: (w.host)(f, vs, g) == Returns(Number(I(0)))
    ensures var e := Cmp(Less, Call("f", Exps(Lit(I(1)), NoExps)), Lit(I(2)));
            Eval(w, e, env, g) == Ok(Bool(true), g + [Called("f", [Number(I(1))])])
  {
    var args := Exps(Lit(I(1)), NoExps);
    assert EvalAll(w, NoExps, env, g) == Ok([], g);
    assert [Number(I(1))] + [] == [Number(I(1))];
    assert Eval(w, Lit(I(1)), env, g) == Ok(Number(I(1)), g);
    assert EvalAll(w, args, env, g) == Ok([Number(I(1))], g);
    assert Eval(w, Call("f", args), env, g) == Invoke(w, "f", [Number(I(1))], g);
  }

  lemma NativeCallSettled(w: World, c: Ctx, env: Env)
    requires forall f, vs, g :: (w.host)(f, vs, g) == Returns(Number(I(0)))
    requires c.vars == map[] && c.funcs.Keys == {"f"} && c.funcs["f"].arity == 1
    requires forall ts :: (c.funcs["f"].ret)(ts) == TInt
    requires env == Env(map[], map[])
    ensures var e := Cmp(Less, Call("f", Exps(Lit(I(1)), NoExps)), Lit(I(2)));
            Setting(w, c, env) && BoolShape(c, e) && ChoiceFine(c, [e])
  {
    OneCallShape(c);
  }

  lemma OneCallTypes(c: Ctx)
    requires c.funcs.Keys == {"f"} && c.funcs["f"].arity == 1
    requires forall ts :: (c.funcs["f"].ret)(ts) == TInt
    ensures var args := Exps(Lit(I(1)), NoExps);
            GetTypes(c, args) == [TInt] && Infer(c, Call("f", args)) == TInt
  {
    var args := Exps(Lit(I(1)), NoExps);
    assert InferAll(c, NoExps) == [] && GetTypes(c, NoExps) == [];
    assert Infer(c, Lit(I(1))) == TInt;
    assert InferAll(c, args) == [TInt];
  }

  lemma OneCallShape(c: Ctx)
    requires c.funcs.Keys == {"f"} && c.funcs["f"].arity == 1
    requires forall ts :: (c.funcs["f"].ret)(ts) == TInt
    ensures var e := Cmp(Less, Call("f", Exps(Lit(I(1)), NoExps)), Lit(I(2)));
            BoolShape(c, e) && Regular(c, e) && GuardFine(c, e) && GuardClean(c, e)
  {
    var args := Exps(Lit(I(1)), NoExps);
    OneCallTypes(c);
    assert RegularAll(c, NoExps) && NumFineAll(c, NoExps);
    assert RegularAll(c, args) && NumFineAll(c, args);
    assert Regular(c, Call("f", args)) && NumFine(c, Call("f", args));
    assert NumCleanAll(c, NoExps) && NumCleanAll(c, args);
    assert NumClean(c, Call("f", args));
  }
}
