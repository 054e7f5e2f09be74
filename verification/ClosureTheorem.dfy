/** The simulation: the converted program and the lexical program run in step, cell by cell. */
module ClosureTheorem {
  import opened Scopes
  import opened Closures
  import opened ClosureProof
  import opened CBlocks

  ghost predicate SameValueOut(captured: set<Def>, top: set<string>, o: Outcome<Value, Memory>, co: COutcome<CValue>, n: nat)
  {
    match (o, co)
    case (Done(v, m), CDone(cv, cm)) => Agree(captured, top, v, cv, |m|) && SameMem(captured, top, m, cm) && n <= |m|
    case (Raised(m), CRaised(cm)) => SameMem(captured, top, m, cm) && n <= |m|
    case (Dry, CDry) => true
    case _ => false
  }

  /** Statements end the same way; the environment and the C variables after them still correspond. */
  ghost predicate SameFlow(c: Ctx, o: Outcome<Flow<Env, Value>, Memory>, co: COutcome<Flow<Frame, CValue>>, n: nat)
  {
    match (o, co)
    case (Done(Next(env), m), CDone(Next(f), cm)) =>
      Framed(c, env, f, |m|) && SameMem(c.captured, c.top, m, cm) && n <= |m|
    case (Done(Returned(v), m), CDone(Returned(cv), cm)) =>
      Agree(c.captured, c.top, v, cv, |m|) && SameMem(c.captured, c.top, m, cm) && n <= |m|
    case (Raised(m), CRaised(cm)) => SameMem(c.captured, c.top, m, cm) && n <= |m|
    case (Dry, CDry) => true
    case _ => false
  }

  ghost predicate Ready(c: Ctx, ss: seq<Stmt>, sc: Scope)
  {
    Covered(c, Uses(ss, sc, c.me)) && BlockClean(c, ss, sc)
  }

  lemma EndIsSame(c: Ctx, o: Outcome<Flow<Env, Value>, Memory>, co: COutcome<Flow<Frame, CValue>>, m: nat, n: nat)
    requires SameFlow(c, o, co, m) && n <= m
    ensures SameValueOut(c.captured, c.top, CallEnd(o), CCallEnd(co), n)
  {
  }

  lemma {:induction false} CallIsSame(w: World, captured: set<Def>, top: Top, ctop: CTable, g: Value, cg: CValue,
                                      vs: seq<Value>, cvs: seq<CValue>, mem: Memory, cmem: CMemory, fuel: nat)
    requires TopReady(captured, top, ctop)
    requires Agree(captured, top.Keys, g, cg, |mem|) && SameAll(captured, top.Keys, vs, cvs, |mem|)
    requires SameMem(captured, top.Keys, mem, cmem)
    ensures SameValueOut(captured, top.Keys, CallValue(w, top, g, vs, mem, fuel), CCallValue(w, ctop, cg, cvs, cmem, fuel), |mem|)
    decreases fuel, 0
  {
    if fuel > 0 && g.Clo? {
      var c := EnterFunction(captured, top.Keys, g.fn, g.env, g.me, cg.ups, |mem|);
      var f := Frame(map[], map[], cg.ups);
      ParamsFramed(c, g.fn.params, vs, cvs, g.env, f, mem, cmem);
      var (env1, mem1) := BindParams(g.fn.params, vs, g.env, mem, c.me);
      var (f1, cmem1) := CBind(CompileParams(captured, g.fn.params, c.me), cvs, f, cmem);
      RunIsSame(w, c, top, ctop, g.fn.body, env1, f1, mem1, cmem1, fuel - 1);
      EndIsSame(c, Run(w, top, g.fn.body, env1, mem1, c.me, fuel - 1), CRun(w, ctop, cg.fn.body, f1, cmem1, fuel - 1),
                |mem1|, |mem|);
    }
  }

  lemma {:induction false} RhsIsSame(w: World, c: Ctx, top: Top, ctop: CTable, rhs: Rhs, env: Env, f: Frame,
                                     mem: Memory, cmem: CMemory, fuel: nat)
    requires Sim(c, top, ctop, env, f, mem, cmem)
    requires Covered(c, RhsUses(rhs, Defs(env), c.me)) && RhsClean(c, rhs, Defs(env))
    ensures SameValueOut(c.captured, c.top, EvalRhs(w, top, rhs, env, mem, c.me, fuel),
                         CEval(w, ctop, CompileRhs(c, rhs, Defs(env)), f, cmem, fuel), |mem|)
    decreases fuel, 1
  {
    var sc := Defs(env);
    match rhs
    case Val(a) => ReadIsSame(c, top, ctop, env, f, mem, cmem, a);
    case Closure(fn) => ClosureIsSame(c, env, f, |mem|, fn);
    case Call(g, args) =>
      CoveredBoth(c, AtomUses(g, sc, c.me), AtomsUses(args, sc, c.me));
      ReadIsSame(c, top, ctop, env, f, mem, cmem, g);
      ReadsAreSame(c, top, ctop, env, f, mem, cmem, args);
      CallIsSame(w, c.captured, top, ctop, ReadAtom(top, g, env, mem), CRead(ctop, CompileAtom(c, g, sc), f, cmem),
                 ReadAtoms(top, args, env, mem), CReads(ctop, CompileAtoms(c, args, sc), f, cmem), mem, cmem, fuel);
    case Prim(_, l, r) =>
      CoveredBoth(c, AtomUses(l, sc, c.me), AtomUses(r, sc, c.me));
      ReadIsSame(c, top, ctop, env, f, mem, cmem, l);
      ReadIsSame(c, top, ctop, env, f, mem, cmem, r);
  }

  /** A declaration that reads no C name of its own is evaluate-then-declare, in whichever order C does it. */
  lemma DeclareInC(w: World, c: Ctx, ctop: CTable, env: Env, f: Frame, cmem: CMemory, d: Def, rhs: Rhs, early: bool, fuel: nat)
    requires Framed(c, env, f, |cmem|) && d.owner == c.me
    requires Covered(c, RhsUses(rhs, Defs(env), c.me)) && (SelfRead(c, d, rhs, Defs(env)) ==> early)
    requires !CEval(w, ctop, CompileRhs(c, rhs, Defs(env)), f, cmem, fuel).Stuck?
    ensures var boxed, crhs := d in c.captured, CompileRhs(c, rhs, Defs(env));
            var co := CEval(w, ctop, crhs, f, cmem, fuel);
            CStep(w, ctop, CDeclare(d.name, boxed, early, crhs), f, cmem, fuel) ==
            if co.CDone? then CDone(Next(Declare(f, d.name, boxed, |co.mem|)), co.mem + [co.v])
            else if co.CRaised? then CRaised(co.mem) else CDry
  {
    if (rhs.Val? || rhs.Closure?) && !early { InlineIsEarly(w, c, ctop, env, f, cmem, d, rhs, fuel); }
  }

  lemma {:induction false} LocalIsSame(w: World, c: Ctx, top: Top, ctop: CTable, key: nat, x: string, rhs: Rhs, num: bool,
                                       env: Env, f: Frame, mem: Memory, cmem: CMemory, fuel: nat)
    requires Sim(c, top, ctop, env, f, mem, cmem)
    requires var s := Local(key, x, rhs, num); Covered(c, StmtUses(s, Defs(env), c.me)) && StmtClean(c, s, Defs(env))
    ensures var s := Local(key, x, rhs, num);
            var o := Step(w, top, s, env, mem, c.me, fuel);
            && SameFlow(c, o, CStep(w, ctop, CompileStmt(c, s, Defs(env)), f, cmem, fuel), |mem|)
            && (o.Done? ==> o.v.Next? && Defs(o.v.env) == After(s, Defs(env), c.me))
    decreases fuel, 2, Local(key, x, rhs, num), 0, 0
  {
    var d := Def(key, x, c.me);
    RhsIsSame(w, c, top, ctop, rhs, env, f, mem, cmem, fuel);
    var o := EvalRhs(w, top, rhs, env, mem, c.me, fuel);
    var co := CEval(w, ctop, CompileRhs(c, rhs, Defs(env)), f, cmem, fuel);
    DeclareInC(w, c, ctop, env, f, cmem, d, rhs, Early(c, d, num, Defs(env)), fuel);
    if o.Done? {
      FramedGrows(c, env, f, |mem|, |o.mem|);
      DeclareFramed(c, env, f, |o.mem|, d, x);
      SameMemAppend(c.captured, c.top, o.mem, co.mem, o.v, co.v);
    }
  }

  lemma {:induction false} LocalFunIsSame(w: World, c: Ctx, top: Top, ctop: CTable, key: nat, x: string, fn: Fun, env: Env, f: Frame,
                                          mem: Memory, cmem: CMemory, fuel: nat)
    requires Sim(c, top, ctop, env, f, mem, cmem)
    requires var s := LocalFun(key, x, fn); Covered(c, StmtUses(s, Defs(env), c.me)) && StmtClean(c, s, Defs(env))
    ensures var s := LocalFun(key, x, fn);
            var o := Step(w, top, s, env, mem, c.me, fuel);
            && SameFlow(c, o, CStep(w, ctop, CompileStmt(c, s, Defs(env)), f, cmem, fuel), |mem|)
            && (o.Done? ==> o.v.Next? && Defs(o.v.env) == After(s, Defs(env), c.me))
  {
    var d := Def(key, x, c.me);
    var env1, f1 := env[x := Bind(|mem|, d)], Declare(f, x, d in c.captured, |mem|);
    DeclareFramed(c, env, f, |mem|, d, x);
    ClosureIsSame(c, env1, f1, |mem| + 1, fn);
    var ps := CompilePtrs(c, Captures(fn, Defs(env1), c.me));
    SameMemAppend(c.captured, c.top, mem, cmem, Clo(fn, env1, c.me), CClo(CompileFun(c, fn, Defs(env1)), Ptrs(ps, f1)));
  }

  lemma {:induction false} AssignIsSame(w: World, c: Ctx, top: Top, ctop: CTable, x: string, rhs: Rhs, env: Env, f: Frame,
                                        mem: Memory, cmem: CMemory, fuel: nat)
    requires Sim(c, top, ctop, env, f, mem, cmem)
    requires var s := Assign(x, rhs); Covered(c, StmtUses(s, Defs(env), c.me)) && StmtClean(c, s, Defs(env))
    ensures var s := Assign(x, rhs);
            var o := Step(w, top, s, env, mem, c.me, fuel);
            && SameFlow(c, o, CStep(w, ctop, CompileStmt(c, s, Defs(env)), f, cmem, fuel), |mem|)
            && (o.Done? ==> o.v == Next(env))
    decreases fuel, 2, Assign(x, rhs), 0, 0
  {
    var sc := Defs(env);
    CoveredBoth(c, AtomUses(Var(x), sc, c.me), RhsUses(rhs, sc, c.me));
    RhsIsSame(w, c, top, ctop, rhs, env, f, mem, cmem, fuel);
    var o := EvalRhs(w, top, rhs, env, mem, c.me, fuel);
    var co := CEval(w, ctop, CompileRhs(c, rhs, sc), f, cmem, fuel);
    if o.Done? {
      FramedGrows(c, env, f, |mem|, |o.mem|);
      if x in env {
        VarAddress(c, env, f, |mem|, x);
        SameMemUpdate(c.captured, c.top, o.mem, co.mem, env[x].addr, o.v, co.v);
      }
    }
  }

  /** A nested block: what it declared is forgotten on both sides. */
  lemma {:induction false} BlockIsSame(w: World, c: Ctx, top: Top, ctop: CTable, ss: seq<Stmt>, env: Env, f: Frame,
                                       mem: Memory, cmem: CMemory, fuel: nat)
    requires Sim(c, top, ctop, env, f, mem, cmem)
    requires Ready(c, ss, Defs(env))
    ensures var o := Scoped(Run(w, top, ss, env, mem, c.me, fuel), env);
            && SameFlow(c, o, CScoped(CRun(w, ctop, CompileBlock(c, ss, Defs(env)), f, cmem, fuel), f), |mem|)
            && (o.Done? && o.v.Next? ==> o.v == Next(env))
    decreases fuel, 2, ss, 2
  {
    RunIsSame(w, c, top, ctop, ss, env, f, mem, cmem, fuel);
    var o := Run(w, top, ss, env, mem, c.me, fuel);
    if o.Done? && o.v.Next? { FramedGrows(c, env, f, |mem|, |o.mem|); }
  }

  lemma {:induction false} DiscardIsSame(w: World, c: Ctx, top: Top, ctop: CTable, rhs: Rhs, env: Env, f: Frame,
                                         mem: Memory, cmem: CMemory, fuel: nat)
    requires Sim(c, top, ctop, env, f, mem, cmem)
    requires Covered(c, RhsUses(rhs, Defs(env), c.me)) && RhsClean(c, rhs, Defs(env))
    ensures var s := Discard(rhs);
            var o := Step(w, top, s, env, mem, c.me, fuel);
            && SameFlow(c, o, CStep(w, ctop, CompileStmt(c, s, Defs(env)), f, cmem, fuel), |mem|)
            && (o.Done? ==> o.v == Next(env))
    decreases fuel, 2, Discard(rhs), 0, 0
  {
    RhsIsSame(w, c, top, ctop, rhs, env, f, mem, cmem, fuel);
    var o := EvalRhs(w, top, rhs, env, mem, c.me, fuel);
    if o.Done? { FramedGrows(c, env, f, |mem|, |o.mem|); }
  }

  lemma DoUnfolds(w: World, c: Ctx, top: Top, ctop: CTable, body: seq<Stmt>, env: Env, f: Frame,
                  mem: Memory, cmem: CMemory, fuel: nat)
    ensures Step(w, top, Do(body), env, mem, c.me, fuel) == Scoped(Run(w, top, body, env, mem, c.me, fuel), env)
    ensures CStep(w, ctop, CompileStmt(c, Do(body), Defs(env)), f, cmem, fuel) ==
            CScoped(CRun(w, ctop, CompileBlock(c, body, Defs(env)), f, cmem, fuel), f)
  {
  }

  lemma {:induction false} StepIsSame(w: World, c: Ctx, top: Top, ctop: CTable, s: Stmt, env: Env, f: Frame,
                                      mem: Memory, cmem: CMemory, fuel: nat)
    requires Sim(c, top, ctop, env, f, mem, cmem)
    requires Covered(c, StmtUses(s, Defs(env), c.me)) && StmtClean(c, s, Defs(env))
    ensures var o := Step(w, top, s, env, mem, c.me, fuel);
            && SameFlow(c, o, CStep(w, ctop, CompileStmt(c, s, Defs(env)), f, cmem, fuel), |mem|)
            && (o.Done? && o.v.Next? ==> Defs(o.v.env) == After(s, Defs(env), c.me))
    decreases fuel, 2, s, 0, 1
  {
    var sc := Defs(env);
    match s
    case Local(key, x, rhs, num) => LocalIsSame(w, c, top, ctop, key, x, rhs, num, env, f, mem, cmem, fuel);
    case LocalFun(key, x, fn) => LocalFunIsSame(w, c, top, ctop, key, x, fn, env, f, mem, cmem, fuel);
    case Assign(x, rhs) => AssignIsSame(w, c, top, ctop, x, rhs, env, f, mem, cmem, fuel);
    case Discard(rhs) => DiscardIsSame(w, c, top, ctop, rhs, env, f, mem, cmem, fuel);
    case Return(a) => ReadIsSame(c, top, ctop, env, f, mem, cmem, a);
    case If(e, thn, els) => IfIsSame(w, c, top, ctop, e, thn, els, env, f, mem, cmem, fuel);
    case While(e, body) => WhileIsSame(w, c, top, ctop, e, body, env, f, mem, cmem, fuel);
    case For(key, x, lo, hi, body) => ForIsSame(w, c, top, ctop, key, x, lo, hi, body, env, f, mem, cmem, fuel);
    case Do(body) =>
      BlockIsSame(w, c, top, ctop, body, env, f, mem, cmem, fuel);
      DoUnfolds(w, c, top, ctop, body, env, f, mem, cmem, fuel);
  }

  lemma IfParts(c: Ctx, e: Atom, thn: seq<Stmt>, els: seq<Stmt>, sc: Scope)
    requires Covered(c, StmtUses(If(e, thn, els), sc, c.me)) && StmtClean(c, If(e, thn, els), sc)
    ensures Covered(c, AtomUses(e, sc, c.me)) && Ready(c, thn, sc) && Ready(c, els, sc)
  {
    CoveredBoth(c, AtomUses(e, sc, c.me) + Uses(thn, sc, c.me), Uses(els, sc, c.me));
    CoveredBoth(c, AtomUses(e, sc, c.me), Uses(thn, sc, c.me));
  }

  lemma ForParts(c: Ctx, key: nat, x: string, lo: Atom, hi: Atom, body: seq<Stmt>, sc: Scope)
    requires var s := For(key, x, lo, hi, body); Covered(c, StmtUses(s, sc, c.me)) && StmtClean(c, s, sc)
    ensures Covered(c, AtomUses(lo, sc, c.me)) && Covered(c, AtomUses(hi, sc, c.me))
    ensures Ready(c, body, sc[x := Def(key, x, c.me)])
  {
    var us := Uses(body, sc[x := Def(key, x, c.me)], c.me);
    CoveredBoth(c, AtomUses(lo, sc, c.me) + AtomUses(hi, sc, c.me), us);
    CoveredBoth(c, AtomUses(lo, sc, c.me), AtomUses(hi, sc, c.me));
  }

  /** Both conditionals run the same branch. */
  lemma ChoiceMade(w: World, c: Ctx, top: Top, ctop: CTable, e: Atom, thn: seq<Stmt>, els: seq<Stmt>, env: Env, f: Frame,
                   mem: Memory, cmem: CMemory, fuel: nat)
    requires var cv := CRead(ctop, CompileAtom(c, e, Defs(env)), f, cmem);
             !cv.Junk? && (!cv.CNil? <==> Truthy(ReadAtom(top, e, env, mem)))
    ensures var ss := if Truthy(ReadAtom(top, e, env, mem)) then thn else els;
            && Step(w, top, If(e, thn, els), env, mem, c.me, fuel) == Scoped(Run(w, top, ss, env, mem, c.me, fuel), env)
            && CStep(w, ctop, CompileStmt(c, If(e, thn, els), Defs(env)), f, cmem, fuel) ==
               CScoped(CRun(w, ctop, CompileBlock(c, ss, Defs(env)), f, cmem, fuel), f)
  {
  }

  lemma {:induction false} IfIsSame(w: World, c: Ctx, top: Top, ctop: CTable, e: Atom, thn: seq<Stmt>, els: seq<Stmt>,
                                    env: Env, f: Frame, mem: Memory, cmem: CMemory, fuel: nat)
    requires Sim(c, top, ctop, env, f, mem, cmem)
    requires var s := If(e, thn, els); Covered(c, StmtUses(s, Defs(env), c.me)) && StmtClean(c, s, Defs(env))
    ensures var s := If(e, thn, els);
            var o := Step(w, top, s, env, mem, c.me, fuel);
            && SameFlow(c, o, CStep(w, ctop, CompileStmt(c, s, Defs(env)), f, cmem, fuel), |mem|)
            && (o.Done? && o.v.Next? ==> o.v == Next(env))
    decreases fuel, 2, If(e, thn, els), 0, 0
  {
    var sc := Defs(env);
    IfParts(c, e, thn, els, sc);
    ReadIsSame(c, top, ctop, env, f, mem, cmem, e);
    ChoiceMade(w, c, top, ctop, e, thn, els, env, f, mem, cmem, fuel);
    var ss := if Truthy(ReadAtom(top, e, env, mem)) then thn else els;
    BlockIsSame(w, c, top, ctop, ss, env, f, mem, cmem, fuel);
  }

  /** What both loops do with the way one round of the body ended. */
  lemma RoundEnds(w: World, c: Ctx, top: Top, ctop: CTable, e: Atom, body: seq<Stmt>, env: Env, f: Frame,
                  mem: Memory, cmem: CMemory, fuel: nat)
    requires fuel > 0 && Truthy(ReadAtom(top, e, env, mem))
    requires var cv := CRead(ctop, CompileAtom(c, e, Defs(env)), f, cmem); !cv.Junk? && !cv.CNil?
    ensures var o := Run(w, top, body, env, mem, c.me, fuel);
            Step(w, top, While(e, body), env, mem, c.me, fuel) ==
            if o.Done? && o.v.Next? then Step(w, top, While(e, body), env, o.mem, c.me, fuel - 1) else o
    ensures var cs := CompileStmt(c, While(e, body), Defs(env));
            var co := CRun(w, ctop, CompileBlock(c, body, Defs(env)), f, cmem, fuel);
            CStep(w, ctop, cs, f, cmem, fuel) ==
            if co.CDone? && co.v.Next? then CStep(w, ctop, cs, f, co.mem, fuel - 1) else co
  {
  }

  /** Without fuel, or when the condition is false, no round is run. */
  lemma LoopIsOver(w: World, c: Ctx, top: Top, ctop: CTable, e: Atom, body: seq<Stmt>, env: Env, f: Frame,
                   mem: Memory, cmem: CMemory, fuel: nat)
    requires fuel == 0 || !Truthy(ReadAtom(top, e, env, mem))
    requires var cv := CRead(ctop, CompileAtom(c, e, Defs(env)), f, cmem); !cv.Junk? && (!cv.CNil? <==> Truthy(ReadAtom(top, e, env, mem)))
    ensures Step(w, top, While(e, body), env, mem, c.me, fuel) == if fuel == 0 then Dry else Done(Next(env), mem)
    ensures CStep(w, ctop, CompileStmt(c, While(e, body), Defs(env)), f, cmem, fuel) == if fuel == 0 then CDry else CDone(Next(f), cmem)
  {
  }

  lemma {:induction false} WhileIsSame(w: World, c: Ctx, top: Top, ctop: CTable, e: Atom, body: seq<Stmt>,
                                       env: Env, f: Frame, mem: Memory, cmem: CMemory, fuel: nat)
    requires Sim(c, top, ctop, env, f, mem, cmem)
    requires var s := While(e, body); Covered(c, StmtUses(s, Defs(env), c.me)) && StmtClean(c, s, Defs(env))
    ensures var s := While(e, body);
            var o := Step(w, top, s, env, mem, c.me, fuel);
            && SameFlow(c, o, CStep(w, ctop, CompileStmt(c, s, Defs(env)), f, cmem, fuel), |mem|)
            && (o.Done? && o.v.Next? ==> o.v == Next(env))
    decreases fuel, 2, While(e, body), 0, 0
  {
    var sc := Defs(env);
    CoveredBoth(c, AtomUses(e, sc, c.me), Uses(body, sc, c.me));
    ReadIsSame(c, top, ctop, env, f, mem, cmem, e);
    if fuel > 0 && Truthy(ReadAtom(top, e, env, mem)) {
      RunIsSame(w, c, top, ctop, body, env, f, mem, cmem, fuel);
      RoundEnds(w, c, top, ctop, e, body, env, f, mem, cmem, fuel);
      var o := Run(w, top, body, env, mem, c.me, fuel);
      if o.Done? && o.v.Next? {
        var co := CRun(w, ctop, CompileBlock(c, body, sc), f, cmem, fuel);
        FramedGrows(c, env, f, |mem|, |o.mem|);
        WhileIsSame(w, c, top, ctop, e, body, env, f, o.mem, co.mem, fuel - 1);
      }
    } else {
      LoopIsOver(w, c, top, ctop, e, body, env, f, mem, cmem, fuel);
    }
  }

  /** Both loops run over the same numbers, or fail on a bound that is none. */
  lemma ForUnfolds(w: World, c: Ctx, top: Top, ctop: CTable, key: nat, x: string, lo: Atom, hi: Atom, body: seq<Stmt>,
                   env: Env, f: Frame, mem: Memory, cmem: CMemory, fuel: nat)
    requires SameDatum(ReadAtom(top, lo, env, mem), CRead(ctop, CompileAtom(c, lo, Defs(env)), f, cmem))
    requires SameDatum(ReadAtom(top, hi, env, mem), CRead(ctop, CompileAtom(c, hi, Defs(env)), f, cmem))
    ensures var a, b := ReadAtom(top, lo, env, mem), ReadAtom(top, hi, env, mem);
            var s, d := For(key, x, lo, hi, body), Def(key, x, c.me);
            if a.Data? && b.Data? then
              && Step(w, top, s, env, mem, c.me, fuel) == Rounds(w, top, d, a.k, b.k, body, env, mem, c.me, fuel)
              && CStep(w, ctop, CompileStmt(c, s, Defs(env)), f, cmem, fuel) ==
                 CRounds(w, ctop, x, d in c.captured, a.k, b.k, CompileBlock(c, body, Defs(env)[x := d]), f, cmem, fuel)
            else
              && Step(w, top, s, env, mem, c.me, fuel) == Raised(mem)
              && CStep(w, ctop, CompileStmt(c, s, Defs(env)), f, cmem, fuel) == CRaised(cmem)
  {
  }

  lemma {:induction false} ForIsSame(w: World, c: Ctx, top: Top, ctop: CTable, key: nat, x: string, lo: Atom, hi: Atom, body: seq<Stmt>,
                                     env: Env, f: Frame, mem: Memory, cmem: CMemory, fuel: nat)
    requires Sim(c, top, ctop, env, f, mem, cmem)
    requires var s := For(key, x, lo, hi, body); Covered(c, StmtUses(s, Defs(env), c.me)) && StmtClean(c, s, Defs(env))
    ensures var s := For(key, x, lo, hi, body);
            var o := Step(w, top, s, env, mem, c.me, fuel);
            && SameFlow(c, o, CStep(w, ctop, CompileStmt(c, s, Defs(env)), f, cmem, fuel), |mem|)
            && (o.Done? && o.v.Next? ==> o.v == Next(env))
    decreases fuel, 2, For(key, x, lo, hi, body), 0, 0
  {
    var sc := Defs(env);
    var d := Def(key, x, c.me);
    ForParts(c, key, x, lo, hi, body, sc);
    ReadIsSame(c, top, ctop, env, f, mem, cmem, lo);
    ReadIsSame(c, top, ctop, env, f, mem, cmem, hi);
    ForUnfolds(w, c, top, ctop, key, x, lo, hi, body, env, f, mem, cmem, fuel);
    var a, b := ReadAtom(top, lo, env, mem), ReadAtom(top, hi, env, mem);
    if a.Data? && b.Data? {
      RoundsAreSame(w, c, top, ctop, d, a.k, b.k, body, env, f, mem, cmem, fuel);
    }
  }

  /** Each round declares the loop variable anew on both sides. */
  lemma {:induction false} RoundsAreSame(w: World, c: Ctx, top: Top, ctop: CTable, d: Def, i: int, hi: int, body: seq<Stmt>,
                                         env: Env, f: Frame, mem: Memory, cmem: CMemory, fuel: nat)
    requires Sim(c, top, ctop, env, f, mem, cmem) && d.owner == c.me
    requires Ready(c, body, Defs(env)[d.name := d])
    ensures var o := Rounds(w, top, d, i, hi, body, env, mem, c.me, fuel);
            && SameFlow(c, o, CRounds(w, ctop, d.name, d in c.captured, i, hi,
                                      CompileBlock(c, body, Defs(env)[d.name := d]), f, cmem, fuel), |mem|)
            && (o.Done? && o.v.Next? ==> o.v == Next(env))
    decreases fuel, 2, body, 2
  {
    if fuel > 0 && i <= hi {
      var env1, f1 := env[d.name := Bind(|mem|, d)], Declare(f, d.name, d in c.captured, |mem|);
      DeclareFramed(c, env, f, |mem|, d, d.name);
      SameMemAppend(c.captured, c.top, mem, cmem, Data(i), CData(i));
      RunIsSame(w, c, top, ctop, body, env1, f1, mem + [Data(i)], cmem + [CData(i)], fuel);
      var o := Run(w, top, body, env1, mem + [Data(i)], c.me, fuel);
      if o.Done? && o.v.Next? {
        var co := CRun(w, ctop, CompileBlock(c, body, Defs(env1)), f1, cmem + [CData(i)], fuel);
        FramedGrows(c, env, f, |mem|, |o.mem|);
        RoundsAreSame(w, c, top, ctop, d, i + 1, hi, body, env, f, o.mem, co.mem, fuel - 1);
      }
    }
  }

  lemma {:induction false} RunIsSame(w: World, c: Ctx, top: Top, ctop: CTable, ss: seq<Stmt>, env: Env, f: Frame,
                                     mem: Memory, cmem: CMemory, fuel: nat)
    requires Sim(c, top, ctop, env, f, mem, cmem)
    requires Ready(c, ss, Defs(env))
    ensures SameFlow(c, Run(w, top, ss, env, mem, c.me, fuel), CRun(w, ctop, CompileBlock(c, ss, Defs(env)), f, cmem, fuel), |mem|)
    decreases fuel, 2, ss, 1
  {
    if ss != [] {
      var sc := Defs(env);
      CoveredBoth(c, StmtUses(ss[0], sc, c.me), Uses(ss[1..], After(ss[0], sc, c.me), c.me));
      StepIsSame(w, c, top, ctop, ss[0], env, f, mem, cmem, fuel);
      var o := Step(w, top, ss[0], env, mem, c.me, fuel);
      if o.Done? && o.v.Next? {
        var co := CStep(w, ctop, CompileStmt(c, ss[0], sc), f, cmem, fuel);
        assert CompileBlock(c, ss, sc)[1..] == CompileBlock(c, ss[1..], After(ss[0], sc, c.me));
        RunIsSame(w, c, top, ctop, ss[1..], o.v.env, co.v.env, o.mem, co.mem, fuel);
      }
    }
  }

  // ----- whole programs -----

  /** ResolveScopes over every file-level function: the definitions some inner function mentions. */
  function CapturedIn(top: Top): set<Def>
  {
    set x, u | x in top && u in FunUses(top[x], map[], []) && Crosses(u) :: u.d
  }

  /** A definition is captured exactly when some function other than the one that owns it mentions it. */
  lemma CapturedIff(top: Top, d: Def)
    ensures d in CapturedIn(top) <==>
            exists x, u :: x in top && u in FunUses(top[x], map[], []) && u.d == d && d.owner != [] && u.from != d.owner
  {
    if x, u :| x in top && u in FunUses(top[x], map[], []) && u.d == d && d.owner != [] && u.from != d.owner {
      assert Crosses(u);
    }
  }

  function CompileProgram(top: Top): CTable
  {
    map x | x in top :: CompileFun(Home(CapturedIn(top), top.Keys, []), top[x], map[])
  }

  /** No initialiser reads the name it declares where C already sees the new variable, and no C block declares a
      variable twice. */
  predicate ProgramClean(top: Top)
  {
    ProgramOnce(top) && forall x :: x in top ==> FunClean(Home(CapturedIn(top), top.Keys, []), top[x], map[])
  }

  predicate ProgramOnce(top: Top) { forall x :: x in top ==> FunOnce(CapturedIn(top), top[x], []) }

  predicate ProgramAccepted(ctop: CTable) { forall x :: x in ctop ==> AcceptedFun(ctop[x]) }

  lemma ProgramAcceptedIff(top: Top)
    ensures ProgramAccepted(CompileProgram(top)) <==> ProgramOnce(top)
  {
    var ctop := CompileProgram(top);
    forall x | x in top ensures AcceptedFun(ctop[x]) <==> FunOnce(CapturedIn(top), top[x], []) {
      FunAcceptedIff(Home(CapturedIn(top), top.Keys, []), top[x], map[]);
    }
  }

  function Numbers(ks: seq<int>): (r: seq<Value>) { if ks == [] then [] else [Data(ks[0])] + Numbers(ks[1..]) }
  function CNumbers(ks: seq<int>): (r: seq<CValue>) { if ks == [] then [] else [CData(ks[0])] + CNumbers(ks[1..]) }

  lemma {:induction false} NumbersAgree(captured: set<Def>, top: set<string>, ks: seq<int>)
    ensures SameAll(captured, top, Numbers(ks), CNumbers(ks), 0)
  {
    if ks != [] { NumbersAgree(captured, top, ks[1..]); }
  }

  lemma ProgramIsReady(top: Top)
    requires ProgramClean(top)
    ensures TopReady(CapturedIn(top), top, CompileProgram(top))
  {
    var k := CapturedIn(top);
    forall x | x in top ensures CrossingsCaptured(k, FunUses(top[x], map[], [])) {
      forall u | u in FunUses(top[x], map[], []) && Crosses(u) ensures u.d in k {}
    }
  }

  /** Equal, or both closures. */
  predicate SameDatum(v: Value, cv: CValue)
  {
    match v case Nil => cv.CNil? case Data(k) => cv == CData(k) case Clo(_, _, _) => cv.CClo?
  }

  predicate SameData(mem: Memory, cmem: CMemory)
  {
    |mem| == |cmem| && forall a :: 0 <= a < |mem| ==> SameDatum(mem[a], cmem[a])
  }

  /** The C compiler takes the converted program, and calling any file-level function of it gives the same result, the
      same error, cell for cell the same memory, and never an uninitialised read or a NULL upvalue. */
  lemma ConversionPreservesMeaning(w: World, top: Top, main: string, args: seq<int>, fuel: nat)
    requires main in top && ProgramClean(top)
    ensures var o := CallValue(w, top, Clo(top[main], map[], []), Numbers(args), [], fuel);
            var co := CCallValue(w, CompileProgram(top), CClo(CompileProgram(top)[main], []), CNumbers(args), [], fuel);
            && ProgramAccepted(CompileProgram(top)) && !co.Stuck?
            && (o.Dry? <==> co.CDry?) && (o.Raised? <==> co.CRaised?)
            && (o.Done? ==> SameDatum(o.v, co.v))
            && (!o.Dry? ==> SameData(o.mem, co.mem))
  {
    var k, ctop := CapturedIn(top), CompileProgram(top);
    ProgramAcceptedIff(top);
    ProgramIsReady(top);
    TopIsSame(k, top, ctop, main);
    NumbersAgree(k, top.Keys, args);
    CallIsSame(w, k, top, ctop, Clo(top[main], map[], []), CClo(ctop[main], []), Numbers(args), CNumbers(args), [], [], fuel);
    var o := CallValue(w, top, Clo(top[main], map[], []), Numbers(args), [], fuel);
    var co := CCallValue(w, ctop, CClo(ctop[main], []), CNumbers(args), [], fuel);
    if !o.Dry? {
      forall a | 0 <= a < |o.mem| ensures SameDatum(o.mem[a], co.mem[a]) {
        assert Agree(k, top.Keys, o.mem[a], co.mem[a], |o.mem|);
      }
    }
  }
}
