/** Closure conversion preserves meaning: every read and write reaches the cell the lexical environment names. */
module ClosureProof {
  import opened Scopes
  import opened Closures

  function Defs(env: Env): Scope { map x | x in env :: env[x].def }

  /** Every reference that crosses a function boundary names a captured definition. */
  ghost predicate CrossingsCaptured(captured: set<Def>, us: seq<Use>)
  {
    forall u <- us :: Crosses(u) ==> u.d in captured
  }

  /** Inside the function at `c.me`: outer definitions it mentions are in its capture list. */
  ghost predicate Covered(c: Ctx, us: seq<Use>)
  {
    CrossingsCaptured(c.captured, us) && forall u <- us :: Outer(u.d, c.me) ==> u.d in c.ups
  }

  function Home(captured: set<Def>, top: set<string>, me: Path): Ctx { Ctx(captured, top, me, []) }

  ghost predicate FunReady(captured: set<Def>, top: set<string>, fn: Fun, sc: Scope, me: Path)
  {
    && Enclosed(sc, me)
    && CrossingsCaptured(captured, FunUses(fn, sc, me))
    && FunClean(Home(captured, top, me), fn, sc)
  }

  /** A closure's upvalue array holds the addresses its environment gives to the captured definitions. */
  predicate Linked(ds: seq<Def>, env: Env, ups: seq<nat>)
  {
    |ups| == |ds| && forall i :: 0 <= i < |ds| ==> ds[i].name in env && env[ds[i].name] == Bind(ups[i], ds[i])
  }

  ghost predicate Same(captured: set<Def>, top: set<string>, v: Value, cv: CValue)
  {
    match (v, cv)
    case (Nil, CNil) => true
    case (Data(k), CData(j)) => k == j
    case (Clo(fn, env, me), CClo(code, ups)) =>
      && FunReady(captured, top, fn, Defs(env), me)
      && code == CompileFun(Home(captured, top, me), fn, Defs(env))
      && Linked(Captures(fn, Defs(env), me), env, ups)
    case _ => false
  }

  /** The cells of a closure's environment exist. */
  predicate Bounded(v: Value, n: nat)
  {
    v.Clo? ==> forall x :: x in v.env ==> v.env[x].addr < n
  }

  ghost predicate Agree(captured: set<Def>, top: set<string>, v: Value, cv: CValue, n: nat)
  {
    Same(captured, top, v, cv) && Bounded(v, n)
  }

  /** Cell by cell, at the same addresses. */
  ghost predicate SameMem(captured: set<Def>, top: set<string>, mem: Memory, cmem: CMemory)
  {
    |mem| == |cmem| && forall a :: 0 <= a < |mem| ==> Agree(captured, top, mem[a], cmem[a], |mem|)
  }

  ghost predicate SameAll(captured: set<Def>, top: set<string>, vs: seq<Value>, cvs: seq<CValue>, n: nat)
  {
    if vs == [] then cvs == []
    else cvs != [] && Agree(captured, top, vs[0], cvs[0], n) && SameAll(captured, top, vs[1..], cvs[1..], n)
  }

  /** Where C finds the variable `x` of the running function. */
  function Place(f: Frame, x: string, boxed: bool): int { Address(if boxed then CBox(x) else CSlot(x), f) }

  ghost predicate OwnPlaced(c: Ctx, env: Env, f: Frame)
  {
    forall x :: x in env && env[x].def.owner == c.me ==> Place(f, x, env[x].def in c.captured) == env[x].addr
  }

  ghost predicate OutsidePlaced(c: Ctx, env: Env, f: Frame)
  {
    && |f.ups| == |c.ups|
    && forall i :: 0 <= i < |c.ups| && c.ups[i].name in env && env[c.ups[i].name].def == c.ups[i] ==>
         f.ups[i] == env[c.ups[i].name].addr
  }

  /** The C variables and upvalues of the running function against its environment. */
  ghost predicate Framed(c: Ctx, env: Env, f: Frame, n: nat)
  {
    && c.me != [] && Enclosed(Defs(env), c.me)
    && (forall d <- c.ups :: d.owner != c.me)
    && (forall x :: x in env ==> env[x].addr < n)
    && OwnPlaced(c, env, f) && OutsidePlaced(c, env, f)
  }

  ghost predicate TopReady(captured: set<Def>, top: Top, ctop: CTable)
  {
    && ctop.Keys == top.Keys
    && forall x :: x in top ==>
         && FunReady(captured, top.Keys, top[x], map[], [])
         && ctop[x] == CompileFun(Home(captured, top.Keys, []), top[x], map[])
  }

  ghost predicate Sim(c: Ctx, top: Top, ctop: CTable, env: Env, f: Frame, mem: Memory, cmem: CMemory)
  {
    && c.top == top.Keys && TopReady(c.captured, top, ctop)
    && Framed(c, env, f, |mem|) && SameMem(c.captured, c.top, mem, cmem)
  }

  // ----- reading and writing variables -----

  lemma IndexOfAddress(c: Ctx, env: Env, f: Frame, n: nat, x: string)
    requires Framed(c, env, f, n) && x in env && env[x].def in c.ups
    ensures IndexOf(c.ups, env[x].def) < |f.ups| && f.ups[IndexOf(c.ups, env[x].def)] == env[x].addr
  {
    assert Defs(env)[x] == env[x].def;
  }

  /** The compiled name of a visible variable is the address its environment binds. */
  lemma VarAddress(c: Ctx, env: Env, f: Frame, n: nat, x: string)
    requires Framed(c, env, f, n) && x in env
    requires Covered(c, AtomUses(Var(x), Defs(env), c.me))
    ensures Address(CompileVar(c, x, Defs(env)), f) == env[x].addr
    ensures var a := CompileVar(c, x, Defs(env)); a.CBox? || a.CUp? || a.CSlot?
  {
    var sc := Defs(env);
    var d := env[x].def;
    assert sc[x] == d;
    UseIsCovered(c, sc, x);
    if d.owner == c.me {
      assert CompileVar(c, x, sc) == if d in c.captured then CBox(x) else CSlot(x);
    } else {
      IndexOfAddress(c, env, f, n, x);
      assert CompileVar(c, x, sc) == CUp(IndexOf(c.ups, d));
    }
  }

  /** A covered variable of another function is captured and listed. */
  lemma UseIsCovered(c: Ctx, sc: Scope, x: string)
    requires c.me != [] && Enclosed(sc, c.me) && x in sc
    requires Covered(c, AtomUses(Var(x), sc, c.me))
    ensures sc[x].owner != c.me ==> sc[x] in c.captured && sc[x] in c.ups
  {
    var u := Use(sc[x], c.me);
    assert u in AtomUses(Var(x), sc, c.me);
    if sc[x].owner != c.me {
      assert Crosses(u) && Outer(u.d, c.me);
    }
  }

  lemma TopIsSame(captured: set<Def>, top: Top, ctop: CTable, x: string)
    requires TopReady(captured, top, ctop) && x in top
    ensures Same(captured, top.Keys, Clo(top[x], map[], []), CClo(ctop[x], []))
  {
    assert Defs(map[]) == map[];
    FileLevelCapturesNothing(top[x], map[]);
  }

  lemma ReadIsSame(c: Ctx, top: Top, ctop: CTable, env: Env, f: Frame, mem: Memory, cmem: CMemory, a: Atom)
    requires Sim(c, top, ctop, env, f, mem, cmem)
    requires Covered(c, AtomUses(a, Defs(env), c.me))
    ensures Agree(c.captured, c.top, ReadAtom(top, a, env, mem), CRead(ctop, CompileAtom(c, a, Defs(env)), f, cmem), |mem|)
  {
    if a.Var? {
      if a.x in env {
        VarAddress(c, env, f, |mem|, a.x);
      } else if a.x in top {
        TopIsSame(c.captured, top, ctop, a.x);
      }
    }
  }

  lemma CoveredBoth(c: Ctx, us: seq<Use>, more: seq<Use>)
    requires Covered(c, us + more)
    ensures Covered(c, us) && Covered(c, more)
  {
    assert forall u <- us :: u in us + more;
    assert forall u <- more :: u in us + more;
  }

  lemma {:induction false} ReadsAreSame(c: Ctx, top: Top, ctop: CTable, env: Env, f: Frame, mem: Memory, cmem: CMemory, es: seq<Atom>)
    requires Sim(c, top, ctop, env, f, mem, cmem)
    requires Covered(c, AtomsUses(es, Defs(env), c.me))
    ensures SameAll(c.captured, c.top, ReadAtoms(top, es, env, mem), CReads(ctop, CompileAtoms(c, es, Defs(env)), f, cmem), |mem|)
  {
    if es != [] {
      var sc := Defs(env);
      CoveredBoth(c, AtomUses(es[0], sc, c.me), AtomsUses(es[1..], sc, c.me));
      ReadIsSame(c, top, ctop, env, f, mem, cmem, es[0]);
      ReadsAreSame(c, top, ctop, env, f, mem, cmem, es[1..]);
      assert CompileAtoms(c, es, sc)[1..] == CompileAtoms(c, es[1..], sc);
    }
  }

  // ----- closures -----

  lemma CaptureMention(fn: Fun, sc: Scope, me: Path, d: Def) returns (u: Use)
    requires Enclosed(sc, me) && d in Captures(fn, sc, me)
    ensures u in FunUses(fn, sc, me) && u.d == d && |me| < |u.from|
  {
    OuterDefsAre(FunUses(fn, sc, me), [fn.id] + me, []);
    FunFromScope(fn, sc, me);
    u :| u in FunUses(fn, sc, me) && u.d == d;
  }

  lemma CaptureIsCovered(c: Ctx, fn: Fun, sc: Scope, d: Def)
    requires Enclosed(sc, c.me) && Covered(c, FunUses(fn, sc, c.me)) && d in Captures(fn, sc, c.me)
    ensures d.name in sc && sc[d.name] == d && d in c.captured
    ensures d.owner == c.me || d in c.ups
  {
    CapturesAreVisible(fn, sc, c.me);
    var u := CaptureMention(fn, sc, c.me, d);
    assert c.me[0..] == c.me;
  }

  lemma PointerIsLive(c: Ctx, env: Env, f: Frame, n: nat, fn: Fun, d: Def)
    requires Framed(c, env, f, n)
    requires Covered(c, FunUses(fn, Defs(env), c.me)) && d in Captures(fn, Defs(env), c.me)
    ensures d.name in env && env[d.name].def == d
    ensures var p := CompilePtr(c, d); !p.NullPtr? && PtrValue(p, f) == env[d.name].addr
  {
    CaptureIsCovered(c, fn, Defs(env), d);
    assert Defs(env)[d.name] == env[d.name].def;
    if d.owner == c.me {
      assert Place(f, d.name, d in c.captured) == env[d.name].addr;
    } else {
      IndexOfAddress(c, env, f, n, d.name);
    }
  }

  /** Every upvalue pointer printed for a closure is live and is the captured cell; none is NULL. */
  lemma PointersAreLive(c: Ctx, env: Env, f: Frame, n: nat, fn: Fun)
    requires Framed(c, env, f, n)
    requires Covered(c, FunUses(fn, Defs(env), c.me))
    ensures var ds := Captures(fn, Defs(env), c.me);
            var ps := CompilePtrs(c, ds);
            NullPtr !in ps && AllNat(Ptrs(ps, f)) && Linked(ds, env, Ptrs(ps, f))
  {
    var ds := Captures(fn, Defs(env), c.me);
    var ps := CompilePtrs(c, ds);
    forall i | 0 <= i < |ds|
      ensures !ps[i].NullPtr? && ds[i].name in env && env[ds[i].name].def == ds[i]
      ensures PtrValue(ps[i], f) == env[ds[i].name].addr
    {
      PointerIsLive(c, env, f, n, fn, ds[i]);
    }
  }

  lemma ClosureIsSame(c: Ctx, env: Env, f: Frame, n: nat, fn: Fun)
    requires Framed(c, env, f, n)
    requires Covered(c, FunUses(fn, Defs(env), c.me)) && FunClean(c, fn, Defs(env))
    ensures var ps := CompilePtrs(c, Captures(fn, Defs(env), c.me));
            && AllNat(Ptrs(ps, f))
            && Agree(c.captured, c.top, Clo(fn, env, c.me), CClo(CompileFun(c, fn, Defs(env)), Ptrs(ps, f)), n)
  {
    PointersAreLive(c, env, f, n, fn);
  }

  // ----- declarations -----

  lemma DeclareEnclosed(env: Env, b: Bind, x: string, me: Path)
    requires Enclosed(Defs(env), me) && b.def.owner == me && b.def.name == x && me != []
    ensures Defs(env[x := b]) == Defs(env)[x := b.def] && Enclosed(Defs(env[x := b]), me)
  {
    assert me[0..] == me;
  }

  lemma DeclareOwn(c: Ctx, env: Env, f: Frame, n: nat, d: Def, x: string)
    requires OwnPlaced(c, env, f)
    ensures OwnPlaced(c, env[x := Bind(n, d)], Declare(f, x, d in c.captured, n))
  {
    var env1, f1 := env[x := Bind(n, d)], Declare(f, x, d in c.captured, n);
    forall y | y in env1 && env1[y].def.owner == c.me
      ensures Place(f1, y, env1[y].def in c.captured) == env1[y].addr
    {
      if y != x { assert Place(f, y, env[y].def in c.captured) == env[y].addr; }
    }
  }

  lemma DeclareOutside(c: Ctx, env: Env, f: Frame, n: nat, d: Def, x: string)
    requires OutsidePlaced(c, env, f) && d !in c.ups
    ensures OutsidePlaced(c, env[x := Bind(n, d)], Declare(f, x, d in c.captured, n))
  {
    var env1 := env[x := Bind(n, d)];
    forall i | 0 <= i < |c.ups| && c.ups[i].name in env1 && env1[c.ups[i].name].def == c.ups[i]
      ensures f.ups[i] == env1[c.ups[i].name].addr
    {
      assert c.ups[i] in c.ups;
    }
  }

  lemma DeclareFramed(c: Ctx, env: Env, f: Frame, n: nat, d: Def, x: string)
    requires Framed(c, env, f, n) && d.owner == c.me && d.name == x
    ensures var env1 := env[x := Bind(n, d)];
            Framed(c, env1, Declare(f, x, d in c.captured, n), n + 1) && Defs(env1) == Defs(env)[x := d]
  {
    DeclareEnclosed(env, Bind(n, d), x, c.me);
    DeclareOwn(c, env, f, n, d, x);
    DeclareOutside(c, env, f, n, d, x);
  }

  lemma FramedGrows(c: Ctx, env: Env, f: Frame, n: nat, m: nat)
    requires Framed(c, env, f, n) && n <= m
    ensures Framed(c, env, f, m)
  {
  }

  lemma {:induction false} SameAllGrows(captured: set<Def>, top: set<string>, vs: seq<Value>, cvs: seq<CValue>, n: nat, m: nat)
    requires SameAll(captured, top, vs, cvs, n) && n <= m
    ensures SameAll(captured, top, vs, cvs, m)
  {
    if vs != [] { SameAllGrows(captured, top, vs[1..], cvs[1..], n, m); }
  }

  lemma SameMemAppend(captured: set<Def>, top: set<string>, mem: Memory, cmem: CMemory, v: Value, cv: CValue)
    requires SameMem(captured, top, mem, cmem) && Agree(captured, top, v, cv, |mem| + 1)
    ensures SameMem(captured, top, mem + [v], cmem + [cv])
  {
    var n := |mem| + 1;
    forall a | 0 <= a < n ensures Agree(captured, top, (mem + [v])[a], (cmem + [cv])[a], n) {
      if a < |mem| { assert Agree(captured, top, mem[a], cmem[a], |mem|); }
    }
  }

  lemma SameMemUpdate(captured: set<Def>, top: set<string>, mem: Memory, cmem: CMemory, a: nat, v: Value, cv: CValue)
    requires SameMem(captured, top, mem, cmem) && Agree(captured, top, v, cv, |mem|) && a < |mem|
    ensures SameMem(captured, top, mem[a := v], cmem[a := cv])
  {
    var mem1, cmem1 := mem[a := v], cmem[a := cv];
    forall b | 0 <= b < |mem1| ensures Agree(captured, top, mem1[b], cmem1[b], |mem1|) {
      if b != a { assert Agree(captured, top, mem[b], cmem[b], |mem|); }
    }
  }

  lemma {:induction false} ParamsFramed(c: Ctx, ps: seq<Param>, vs: seq<Value>, cvs: seq<CValue>,
                                        env: Env, f: Frame, mem: Memory, cmem: CMemory)
    requires Framed(c, env, f, |mem|)
    requires SameMem(c.captured, c.top, mem, cmem) && SameAll(c.captured, c.top, vs, cvs, |mem|)
    ensures var (env1, mem1) := BindParams(ps, vs, env, mem, c.me);
            var (f1, cmem1) := CBind(CompileParams(c.captured, ps, c.me), cvs, f, cmem);
            && Framed(c, env1, f1, |mem1|) && SameMem(c.captured, c.top, mem1, cmem1)
            && Defs(env1) == ParamScope(ps, Defs(env), c.me) && |mem| <= |mem1|
  {
    if ps != [] {
      var d := Def(ps[0].key, ps[0].x, c.me);
      var v, cv := if vs == [] then Nil else vs[0], if cvs == [] then CNil else cvs[0];
      var vs1, cvs1 := if vs == [] then [] else vs[1..], if cvs == [] then [] else cvs[1..];
      DeclareFramed(c, env, f, |mem|, d, d.name);
      SameMemAppend(c.captured, c.top, mem, cmem, v, cv);
      SameAllGrows(c.captured, c.top, vs1, cvs1, |mem|, |mem| + 1);
      assert CompileParams(c.captured, ps, c.me)[1..] == CompileParams(c.captured, ps[1..], c.me);
      ParamsFramed(c, ps[1..], vs1, cvs1,
                   env[d.name := Bind(|mem|, d)], Declare(f, d.name, d in c.captured, |mem|), mem + [v], cmem + [cv]);
    }
  }

  // ----- entering a function -----

  lemma EnterFunction(captured: set<Def>, top: set<string>, fn: Fun, env: Env, me: Path, ups: seq<nat>, n: nat) returns (c: Ctx)
    requires FunReady(captured, top, fn, Defs(env), me)
    requires Linked(Captures(fn, Defs(env), me), env, ups) && Bounded(Clo(fn, env, me), n)
    ensures c == Ctx(captured, top, [fn.id] + me, Captures(fn, Defs(env), me))
    ensures Framed(c, env, Frame(map[], map[], ups), n)
    ensures Covered(c, Uses(fn.body, FunScope(fn, Defs(env), me), c.me))
    ensures BlockClean(c, fn.body, FunScope(fn, Defs(env), me))
  {
    var sc := Defs(env);
    c := Ctx(captured, top, [fn.id] + me, Captures(fn, sc, me));
    var f := Frame(map[], map[], ups);
    InnerEnclosed(sc, me, fn.id);
    CapturesAreVisible(fn, sc, me);
    OuterDefsAre(FunUses(fn, sc, me), c.me, []);
    forall x | x in env ensures env[x].def.owner != c.me {
      assert sc[x] == env[x].def;
    }
    assert OutsidePlaced(c, env, f);
  }

  lemma InnerEnclosed(sc: Scope, me: Path, id: nat)
    requires Enclosed(sc, me)
    ensures Enclosed(sc, [id] + me)
  {
    var inner := [id] + me;
    forall x | x in sc ensures inner[|inner| - |sc[x].owner|..] == sc[x].owner {
      var k := |sc[x].owner|;
      assert inner[|inner| - k..] == me[|me| - k..];
    }
  }

  // ----- declarations whose initialiser is printed inline -----

  lemma ReadAfterDeclare(ctop: CTable, a: CAtom, f: Frame, cmem: CMemory, x: string, boxed: bool)
    requires a.CBox? || a.CUp? || a.CSlot?
    requires 0 <= Address(a, f) < |cmem|
    ensures CRead(ctop, a, Declare(f, x, boxed, |cmem|), cmem + [Junk]) ==
            if a == (if boxed then CBox(x) else CSlot(x)) then Junk else CRead(ctop, a, f, cmem)
  {
  }

  lemma AtomIsEarly(c: Ctx, ctop: CTable, env: Env, f: Frame, cmem: CMemory, d: Def, a: Atom)
    requires Framed(c, env, f, |cmem|) && d.owner == c.me
    requires Covered(c, AtomUses(a, Defs(env), c.me))
    ensures var f1 := Declare(f, d.name, d in c.captured, |cmem|);
            var ca := CompileAtom(c, a, Defs(env));
            if SelfRead(c, d, Val(a), Defs(env)) then CRead(ctop, ca, f1, cmem + [Junk]) == Junk
            else CRead(ctop, ca, f1, cmem + [Junk]) == CRead(ctop, ca, f, cmem)
  {
    if a.Var? && a.x in env {
      VarAddress(c, env, f, |cmem|, a.x);
      SelfReadIsName(c, env, d, a.x);
      ReadAfterDeclare(ctop, CompileVar(c, a.x, Defs(env)), f, cmem, d.name, d in c.captured);
    }
  }

  /** A bare variable reads the declared C name exactly when it has that name. */
  lemma SelfReadIsName(c: Ctx, env: Env, d: Def, x: string)
    requires x in env && Enclosed(Defs(env), c.me) && Covered(c, AtomUses(Var(x), Defs(env), c.me)) && d.owner == c.me
    ensures SelfRead(c, d, Val(Var(x)), Defs(env)) <==>
            CompileVar(c, x, Defs(env)) == if d in c.captured then CBox(d.name) else CSlot(d.name)
  {
    assert Defs(env)[x] == env[x].def;
    OwnName(c, env, x);
  }

  lemma PointersAreEarly(c: Ctx, env: Env, f: Frame, n: nat, d: Def, fn: Fun)
    requires Framed(c, env, f, n) && d.owner == c.me
    requires !SelfRead(c, d, Closure(fn), Defs(env))
    ensures var ps := CompilePtrs(c, Captures(fn, Defs(env), c.me));
            Ptrs(ps, Declare(f, d.name, d in c.captured, n)) == Ptrs(ps, f)
  {
    var ds := Captures(fn, Defs(env), c.me);
    var ps := CompilePtrs(c, ds);
    var f1 := Declare(f, d.name, d in c.captured, n);
    forall i | 0 <= i < |ds| ensures PtrValue(ps[i], f1) == PtrValue(ps[i], f) {
      assert ds[i] in ds;
    }
  }

  /** Unless the initialiser reads the name it declares, declaring first makes no difference. */
  lemma InlineIsEarly(w: World, c: Ctx, ctop: CTable, env: Env, f: Frame, cmem: CMemory, d: Def, rhs: Rhs, fuel: nat)
    requires Framed(c, env, f, |cmem|) && d.owner == c.me
    requires rhs.Val? || rhs.Closure?
    requires Covered(c, RhsUses(rhs, Defs(env), c.me))
    requires !SelfRead(c, d, rhs, Defs(env))
    requires CEval(w, ctop, CompileRhs(c, rhs, Defs(env)), f, cmem, fuel).CDone?
    ensures var f1 := Declare(f, d.name, d in c.captured, |cmem|);
            var crhs := CompileRhs(c, rhs, Defs(env));
            CEval(w, ctop, crhs, f1, cmem + [Junk], fuel) == CDone(CEval(w, ctop, crhs, f, cmem, fuel).v, cmem + [Junk])
  {
    match rhs {
      case Val(a) => AtomIsEarly(c, ctop, env, f, cmem, d, a);
      case Closure(fn) => PointersAreEarly(c, env, f, |cmem|, d, fn);
    }
  }

  /** A closure that captures the shadowed variable of the same name gets the new box instead. */
  lemma CapturesItself(c: Ctx, env: Env, f: Frame, n: nat, d: Def, fn: Fun)
    requires Framed(c, env, f, n) && d.owner == c.me
    requires SelfRead(c, d, Closure(fn), Defs(env)) && Covered(c, FunUses(fn, Defs(env), c.me))
    ensures var ds := Captures(fn, Defs(env), c.me);
            var ups := Ptrs(CompilePtrs(c, ds), Declare(f, d.name, d in c.captured, n));
            AllNat(ups) ==> !Linked(ds, env, ups)
  {
    var ds := Captures(fn, Defs(env), c.me);
    var f1 := Declare(f, d.name, d in c.captured, n);
    var ups := Ptrs(CompilePtrs(c, ds), f1);
    var e :| e in ds && e.owner == c.me && e.name == d.name;
    var i :| 0 <= i < |ds| && ds[i] == e;
    assert ups[i] == PtrValue(BoxPtr(d.name), f1) == n;
    CaptureIsCovered(c, fn, Defs(env), e);
    assert env[e.name].addr < n;
  }

  /** Which C name a visible variable of the running function has. */
  lemma OwnName(c: Ctx, env: Env, x: string)
    requires x in env && Enclosed(Defs(env), c.me) && Covered(c, AtomUses(Var(x), Defs(env), c.me))
    ensures var a := CompileVar(c, x, Defs(env));
            if env[x].def.owner == c.me then a == (if env[x].def in c.captured then CBox(x) else CSlot(x)) else a.CUp?
  {
    var sc := Defs(env);
    assert sc[x] == env[x].def;
    assert Use(sc[x], c.me) in AtomUses(Var(x), sc, c.me);
    assert c.me[0..] == c.me;
  }
}
