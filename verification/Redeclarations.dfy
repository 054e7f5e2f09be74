/** Declarations whose name is visible already: exactly when the converted one is right. */
module Redeclarations {
  import opened Scopes
  import opened Closures
  import opened ClosureProof
  import opened ClosureTheorem
  import opened CBlocks

  lemma LocalClosureStep(w: World, top: Top, key: nat, x: string, fn: Fun, num: bool, env: Env, mem: Memory, me: Path, fuel: nat)
    ensures Step(w, top, Local(key, x, Closure(fn), num), env, mem, me, fuel) ==
            Done(Next(env[x := Bind(|mem|, Def(key, x, me))]), mem + [Clo(fn, env, me)])
  {
    assert EvalRhs(w, top, Closure(fn), env, mem, me, fuel) == Done(Clo(fn, env, me), mem);
  }

  lemma LocalClosureCStep(w: World, ctop: CTable, x: string, boxed: bool, code: CFun, ps: seq<CPtr>, f: Frame, cmem: CMemory, fuel: nat)
    ensures var f1 := Declare(f, x, boxed, |cmem|);
            CStep(w, ctop, CDeclare(x, boxed, false, CMake(code, ps)), f, cmem, fuel) ==
            if AllNat(Ptrs(ps, f1)) then CDone(Next(f1), cmem + [CClo(code, Ptrs(ps, f1))]) else Stuck
  {
  }

  lemma ClosureMisses(w: World, c: Ctx, top: Top, ctop: CTable, key: nat, x: string, fn: Fun, num: bool,
                      env: Env, f: Frame, mem: Memory, cmem: CMemory, fuel: nat)
    requires Sim(c, top, ctop, env, f, mem, cmem)
    requires Covered(c, FunUses(fn, Defs(env), c.me)) && Misread(c, Def(key, x, c.me), Closure(fn), num, Defs(env))
    ensures var s := Local(key, x, Closure(fn), num);
            !SameFlow(c, Step(w, top, s, env, mem, c.me, fuel), CStep(w, ctop, CompileStmt(c, s, Defs(env)), f, cmem, fuel), |mem|)
  {
    var d := Def(key, x, c.me);
    CapturesItself(c, env, f, |mem|, d, fn);
    var ps := CompilePtrs(c, Captures(fn, Defs(env), c.me));
    var code := CompileFun(c, fn, Defs(env));
    LocalClosureStep(w, top, key, x, fn, num, env, mem, c.me, fuel);
    LocalClosureCStep(w, ctop, x, d in c.captured, code, ps, f, cmem, fuel);
    var ups := Ptrs(ps, Declare(f, x, d in c.captured, |cmem|));
    if AllNat(ups) {
      var m, cm := mem + [Clo(fn, env, c.me)], cmem + [CClo(code, ups)];
      assert !Agree(c.captured, c.top, m[|mem|], cm[|mem|], |m|);
    }
  }

  lemma VariableMisses(w: World, c: Ctx, top: Top, ctop: CTable, key: nat, x: string, a: Atom, num: bool,
                       env: Env, f: Frame, mem: Memory, cmem: CMemory, fuel: nat)
    requires Sim(c, top, ctop, env, f, mem, cmem)
    requires Covered(c, AtomUses(a, Defs(env), c.me)) && Misread(c, Def(key, x, c.me), Val(a), num, Defs(env))
    ensures var s := Local(key, x, Val(a), num);
            Step(w, top, s, env, mem, c.me, fuel).Done? && CStep(w, ctop, CompileStmt(c, s, Defs(env)), f, cmem, fuel).Stuck?
  {
    AtomIsEarly(c, ctop, env, f, cmem, Def(key, x, c.me), a);
    assert EvalRhs(w, top, Val(a), env, mem, c.me, fuel).Done?;
  }

  /** For every declaration the condition is exact. In a C block that has declared `block`, the C compiler takes it and
      both sides agree after it, if and only if its C name is not among those, the closures in it declare nothing twice,
      and its initialiser does not read the C name it declares, or is computed into a temporary because the new variable
      is a native number that shadows a visible name. */
  lemma LocalIsSameIff(w: World, c: Ctx, top: Top, ctop: CTable, key: nat, x: string, rhs: Rhs, num: bool, block: set<CName>,
                       env: Env, f: Frame, mem: Memory, cmem: CMemory, fuel: nat)
    requires Sim(c, top, ctop, env, f, mem, cmem)
    requires Covered(c, RhsUses(rhs, Defs(env), c.me)) && RhsClean(c, rhs, Defs(env))
    ensures var s := Local(key, x, rhs, num);
            var d := Def(key, x, c.me);
            var cs := CompileStmt(c, s, Defs(env));
            AcceptedBlock([cs], block)
            && SameFlow(c, Step(w, top, s, env, mem, c.me, fuel), CStep(w, ctop, cs, f, cmem, fuel), |mem|)
            <==> CName(x, d in c.captured) !in block && RhsOnce(c.captured, rhs, c.me)
                 && !(SelfRead(c, d, rhs, Defs(env)) && (d in c.captured || !num))
  {
    var s := Local(key, x, rhs, num);
    StmtAcceptedIff(c, s, Defs(env));
    assert [CompileStmt(c, s, Defs(env))][1..] == [];
    if !Misread(c, Def(key, x, c.me), rhs, num, Defs(env)) {
      LocalIsSame(w, c, top, ctop, key, x, rhs, num, env, f, mem, cmem, fuel);
    } else if rhs.Val? {
      VariableMisses(w, c, top, ctop, key, x, rhs.a, num, env, f, mem, cmem, fuel);
    } else {
      ClosureMisses(w, c, top, ctop, key, x, rhs.fn, num, env, f, mem, cmem, fuel);
    }
  }

  /** `local x = x` right in the body of `function f(x)` is refused: parameter and local share a C block. */
  lemma RedeclaredParameterIsRefused(c: Ctx, num: bool)
    requires c.captured == {}
    ensures !AcceptedFun(CompileFun(c, Fun(0, [Param(0, "x")], [Local(1, "x", Val(Var("x")), num)]), map[]))
  {
    var fn := Fun(0, [Param(0, "x")], [Local(1, "x", Val(Var("x")), num)]);
    FunAcceptedIff(c, fn, map[]);
    assert Declares(fn.body[0]) && fn.body[0].x == fn.params[0].x;
  }

  /** `do local x = x end` in `function f(x)` is accepted. With the parameter 7, Lua's new variable is 7. Nothing is
      known of the parameter's type, so the new variable is dynamic and its C initialiser reads the variable it is
      initialising; a native number goes through a temporary and arrives. */
  lemma RedeclaredLocalReadsItself(w: World, top: Top, ctop: CTable, num: bool, fuel: nat)
    ensures var c := Ctx({}, top.Keys, [0], []);
            var ps := [Param(0, "x")];
            var s := Do([Local(1, "x", Val(Var("x")), num)]);
            var (env, mem) := BindParams(ps, [Data(7)], map[], [], [0]);
            var (f, cmem) := CBind(CompileParams({}, ps, [0]), [CData(7)], Frame(map[], map[], []), []);
            && AcceptedFun(CFun(CompileParams({}, ps, [0]), [CompileStmt(c, s, Defs(env))]))
            && Step(w, top, s, env, mem, [0], fuel) == Done(Next(env), [Data(7), Data(7)])
            && CStep(w, ctop, CompileStmt(c, s, Defs(env)), f, cmem, fuel) ==
               if num then CDone(Next(f), [CData(7), CData(7)]) else Stuck
  {
    var c := Ctx({}, top.Keys, [0], []);
    var l := Local(1, "x", Val(Var("x")), num);
    var env, f := map["x" := Bind(0, Def(0, "x", [0]))], Frame(map[], map["x" := 0], []);
    var cl := CDeclare("x", false, num, CVal(CSlot("x")));
    ParameterBound();
    LocalStep(w, top, ctop, num, fuel);
    InnerIsAccepted(num);
    InnerRuns(w, c, top, ctop, l, cl, env, f, [Data(7)], [CData(7)], fuel);
    DoUnfolds(w, c, top, ctop, [l], env, f, [Data(7)], [CData(7)], fuel);
    assert [l][1..] == [];
    assert CompileBlock(c, [l], Defs(env)) == [cl] + [];
    assert CompileStmt(c, Do([l]), Defs(env)) == CDo([cl]);
  }

  lemma InnerRuns(w: World, c: Ctx, top: Top, ctop: CTable, l: Stmt, cl: CStmt, env: Env, f: Frame,
                  mem: Memory, cmem: CMemory, fuel: nat)
    ensures Run(w, top, [l], env, mem, c.me, fuel) == Step(w, top, l, env, mem, c.me, fuel)
    ensures CRun(w, ctop, [cl], f, cmem, fuel) == CStep(w, ctop, cl, f, cmem, fuel)
  {
    assert [l][1..] == [] && [cl][1..] == [];
    var o, co := Step(w, top, l, env, mem, c.me, fuel), CStep(w, ctop, cl, f, cmem, fuel);
    assert o.Done? && o.v.Next? ==> Run(w, top, [], o.v.env, o.mem, c.me, fuel) == o;
    assert co.CDone? && co.v.Next? ==> CRun(w, ctop, [], co.v.env, co.mem, fuel) == co;
  }

  lemma InnerIsAccepted(num: bool)
    ensures AcceptedFun(CFun([CParam("x", false)], [CDo([CDeclare("x", false, num, CVal(CSlot("x")))])]))
  {
    var cl := CDeclare("x", false, num, CVal(CSlot("x")));
    assert [cl][1..] == [] && [CDo([cl])][1..] == [];
    assert AcceptedStmt(cl);
    assert AcceptedBlock([], {} + {CName("x", false)}) && AcceptedBlock([], ParamNames([CParam("x", false)]));
    assert AcceptedBlock([cl], {});
    assert AcceptedStmt(CDo([cl]));
  }

  lemma ParameterBound()
    ensures BindParams([Param(0, "x")], [Data(7)], map[], [], [0]) == (map["x" := Bind(0, Def(0, "x", [0]))], [Data(7)])
    ensures CompileParams({}, [Param(0, "x")], [0]) == [CParam("x", false)]
    ensures CBind([CParam("x", false)], [CData(7)], Frame(map[], map[], []), []) == (Frame(map[], map["x" := 0], []), [CData(7)])
  {
    var env, f := map["x" := Bind(0, Def(0, "x", [0]))], Frame(map[], map["x" := 0], []);
    assert [Param(0, "x")][1..] == [] && [CParam("x", false)][1..] == [] && [Data(7)][1..] == [] && [CData(7)][1..] == [];
    assert CompileParams({}, [Param(0, "x")], [0]) == [CParam("x", false)] + [];
    assert [] + [Data(7)] == [Data(7)] && map[]["x" := Bind(0, Def(0, "x", [0]))] == env;
    assert BindParams([], [], env, [Data(7)], [0]) == (env, [Data(7)]);
    assert [] + [CData(7)] == [CData(7)] && Declare(Frame(map[], map[], []), "x", false, 0) == f;
    assert CBind([], [], f, [CData(7)]) == (f, [CData(7)]);
  }

  lemma LocalStep(w: World, top: Top, ctop: CTable, num: bool, fuel: nat)
    ensures var c := Ctx({}, top.Keys, [0], []);
            var l := Local(1, "x", Val(Var("x")), num);
            var env, f := map["x" := Bind(0, Def(0, "x", [0]))], Frame(map[], map["x" := 0], []);
            && Step(w, top, l, env, [Data(7)], [0], fuel) == Done(Next(env["x" := Bind(1, Def(1, "x", [0]))]), [Data(7), Data(7)])
            && CompileStmt(c, l, Defs(env)) == CDeclare("x", false, num, CVal(CSlot("x")))
            && CStep(w, ctop, CDeclare("x", false, num, CVal(CSlot("x"))), f, [CData(7)], fuel) ==
               if num then CDone(Next(Frame(map[], map["x" := 1], [])), [CData(7), CData(7)]) else Stuck
  {
    var env, f := map["x" := Bind(0, Def(0, "x", [0]))], Frame(map[], map["x" := 0], []);
    assert [Data(7)] + [Data(7)] == [Data(7), Data(7)] && [CData(7)] + [CData(7)] == [CData(7), CData(7)];
    assert EvalRhs(w, top, Val(Var("x")), env, [Data(7)], [0], fuel) == Done(Data(7), [Data(7)]);
    assert Declare(f, "x", false, 1) == Frame(map[], map["x" := 1], []);
  }
}
