/** Which converted programs the C compiler accepts: no C block may declare one variable twice. The code of a function
    has no braces of its own, so its parameters, their boxes and its outermost locals share one block. */
module CBlocks {
  import opened Scopes
  import opened Closures

  // ----- the emitted code -----

  /** The C variable of a name: the name itself, or `__box_` in front of it. */
  datatype CName = CName(x: string, boxed: bool)

  /** A parameter is declared under its own name, and its box besides when it is captured. */
  function ParamNames(ps: seq<CParam>): set<CName>
  {
    (set p <- ps :: CName(p.x, false)) + (set p <- ps | p.boxed :: CName(p.x, true))
  }

  predicate AcceptedFun(fn: CFun)
    decreases fn, 2
  {
    && (forall i, j :: 0 <= i < j < |fn.params| ==> fn.params[i].x != fn.params[j].x)
    && AcceptedBlock(fn.body, ParamNames(fn.params))
  }

  predicate AcceptedRhs(rhs: CRhs)
    decreases rhs, 3
  {
    rhs.CMake? ==> AcceptedFun(rhs.fn)
  }

  /** Branches and bodies have braces of their own; the variable of a `for` stands in front of them. */
  predicate AcceptedStmt(s: CStmt)
    decreases s, 0
  {
    match s
    case CDeclare(_, _, _, rhs) => AcceptedRhs(rhs)
    case CAssign(_, rhs) => AcceptedRhs(rhs)
    case CDiscard(rhs) => AcceptedRhs(rhs)
    case CReturn(_) => true
    case CIf(_, thn, els) => AcceptedBlock(thn, {}) && AcceptedBlock(els, {})
    case CWhile(_, body) => AcceptedBlock(body, {})
    case CFor(_, _, _, _, body) => AcceptedBlock(body, {})
    case CDo(body) => AcceptedBlock(body, {})
  }

  /** The rest of a block that has declared these variables. */
  predicate AcceptedBlock(ss: seq<CStmt>, declared: set<CName>)
    decreases ss, 1
  {
    if ss == [] then true
    else if ss[0].CDeclare? then
      var n := CName(ss[0].x, ss[0].boxed);
      n !in declared && AcceptedStmt(ss[0]) && AcceptedBlock(ss[1..], declared + {n})
    else AcceptedStmt(ss[0]) && AcceptedBlock(ss[1..], declared)
  }

  // ----- the source text -----

  predicate Declares(s: Stmt) { s.Local? || s.LocalFun? }

  predicate IsBoxed(captured: set<Def>, s: Stmt, me: Path)
    requires Declares(s)
  {
    Def(s.key, s.x, me) in captured
  }

  /** Parameters have different names; a top-level local may share a parameter's name only if it is captured and the
      parameter is not. */
  predicate FunOnce(captured: set<Def>, fn: Fun, me: Path)
    decreases fn, 2
  {
    && (forall i, j :: 0 <= i < j < |fn.params| ==> fn.params[i].x != fn.params[j].x)
    && (forall i, j :: 0 <= i < |fn.body| && Declares(fn.body[i]) && 0 <= j < |fn.params| && fn.body[i].x == fn.params[j].x ==>
          IsBoxed(captured, fn.body[i], [fn.id] + me)
          && Def(fn.params[j].key, fn.params[j].x, [fn.id] + me) !in captured)
    && BlockOnce(captured, fn.body, [fn.id] + me)
  }

  predicate RhsOnce(captured: set<Def>, rhs: Rhs, me: Path)
    decreases rhs, 3
  {
    rhs.Closure? ==> FunOnce(captured, rhs.fn, me)
  }

  predicate StmtOnce(captured: set<Def>, s: Stmt, me: Path)
    decreases s, 0
  {
    match s
    case Local(_, _, rhs, _) => RhsOnce(captured, rhs, me)
    case LocalFun(_, _, fn) => FunOnce(captured, fn, me)
    case Assign(_, rhs) => RhsOnce(captured, rhs, me)
    case Discard(rhs) => RhsOnce(captured, rhs, me)
    case Return(_) => true
    case If(_, thn, els) => BlockOnce(captured, thn, me) && BlockOnce(captured, els, me)
    case While(_, body) => BlockOnce(captured, body, me)
    case For(_, _, _, _, body) => BlockOnce(captured, body, me)
    case Do(body) => BlockOnce(captured, body, me)
  }

  /** Two locals of one block share a name only if exactly one of them is captured. */
  predicate BlockOnce(captured: set<Def>, ss: seq<Stmt>, me: Path)
    decreases ss, 1
  {
    && Pairwise(captured, ss, me)
    && forall i :: 0 <= i < |ss| ==> StmtOnce(captured, ss[i], me)
  }

  predicate Pairwise(captured: set<Def>, ss: seq<Stmt>, me: Path)
  {
    forall i, j :: 0 <= i < j < |ss| && Declares(ss[i]) && Declares(ss[j]) && ss[i].x == ss[j].x ==>
      IsBoxed(captured, ss[i], me) != IsBoxed(captured, ss[j], me)
  }

  // ----- they agree -----

  function NameOf(captured: set<Def>, s: Stmt, me: Path): CName
    requires Declares(s)
  {
    CName(s.x, IsBoxed(captured, s, me))
  }

  /** No local of the block is among the variables declared already. */
  predicate Avoids(captured: set<Def>, ss: seq<Stmt>, me: Path, declared: set<CName>)
  {
    forall i :: 0 <= i < |ss| && Declares(ss[i]) ==> NameOf(captured, ss[i], me) !in declared
  }

  lemma PairwiseStep(captured: set<Def>, ss: seq<Stmt>, me: Path)
    requires ss != []
    ensures Pairwise(captured, ss, me) <==>
            Pairwise(captured, ss[1..], me)
            && (Declares(ss[0]) ==> Avoids(captured, ss[1..], me, {NameOf(captured, ss[0], me)}))
  {
    var t := ss[1..];
    assert forall i :: 0 <= i < |t| ==> t[i] == ss[i + 1];
    if Pairwise(captured, t, me) && (Declares(ss[0]) ==> Avoids(captured, t, me, {NameOf(captured, ss[0], me)})) {
      forall i, j | 0 <= i < j < |ss| && Declares(ss[i]) && Declares(ss[j]) && ss[i].x == ss[j].x
        ensures IsBoxed(captured, ss[i], me) != IsBoxed(captured, ss[j], me)
      {
        assert ss[j] == t[j - 1];
        if i > 0 { assert ss[i] == t[i - 1]; } else { assert NameOf(captured, t[j - 1], me) != NameOf(captured, ss[0], me); }
      }
    }
  }

  lemma AvoidsStep(captured: set<Def>, ss: seq<Stmt>, me: Path, declared: set<CName>)
    requires ss != []
    ensures Avoids(captured, ss, me, declared) <==>
            (Declares(ss[0]) ==> NameOf(captured, ss[0], me) !in declared) && Avoids(captured, ss[1..], me, declared)
  {
    var t := ss[1..];
    assert forall i :: 0 <= i < |t| ==> t[i] == ss[i + 1];
    assert forall i :: 0 < i < |ss| ==> ss[i] == t[i - 1];
  }

  lemma AvoidsBoth(captured: set<Def>, ss: seq<Stmt>, me: Path, declared: set<CName>, n: CName)
    ensures Avoids(captured, ss, me, declared + {n}) <==>
            Avoids(captured, ss, me, declared) && Avoids(captured, ss, me, {n})
  {
  }

  lemma EachStep(captured: set<Def>, ss: seq<Stmt>, me: Path)
    requires ss != []
    ensures BlockOnce(captured, ss, me) <==>
            StmtOnce(captured, ss[0], me) && BlockOnce(captured, ss[1..], me)
            && (Declares(ss[0]) ==> Avoids(captured, ss[1..], me, {NameOf(captured, ss[0], me)}))
  {
    PairwiseStep(captured, ss, me);
    var t := ss[1..];
    assert forall i :: 0 <= i < |t| ==> t[i] == ss[i + 1];
    assert forall i :: 0 < i < |ss| ==> ss[i] == t[i - 1];
  }

  lemma {:induction false} BlockAcceptedIff(c: Ctx, ss: seq<Stmt>, sc: Scope, declared: set<CName>)
    ensures AcceptedBlock(CompileBlock(c, ss, sc), declared) <==>
            BlockOnce(c.captured, ss, c.me) && Avoids(c.captured, ss, c.me, declared)
    decreases ss, 1
  {
    if ss != [] {
      var cs := CompileBlock(c, ss, sc);
      var sc1 := After(ss[0], sc, c.me);
      assert cs[0] == CompileStmt(c, ss[0], sc) && cs[1..] == CompileBlock(c, ss[1..], sc1);
      StmtAcceptedIff(c, ss[0], sc);
      EachStep(c.captured, ss, c.me);
      AvoidsStep(c.captured, ss, c.me, declared);
      if Declares(ss[0]) {
        var n := NameOf(c.captured, ss[0], c.me);
        assert cs[0].CDeclare? && CName(cs[0].x, cs[0].boxed) == n;
        BlockAcceptedIff(c, ss[1..], sc1, declared + {n});
        AvoidsBoth(c.captured, ss[1..], c.me, declared, n);
      } else {
        assert !cs[0].CDeclare?;
        BlockAcceptedIff(c, ss[1..], sc1, declared);
      }
    }
  }

  lemma {:induction false} StmtAcceptedIff(c: Ctx, s: Stmt, sc: Scope)
    ensures AcceptedStmt(CompileStmt(c, s, sc)) <==> StmtOnce(c.captured, s, c.me)
    decreases s, 0
  {
    match s
    case Local(_, _, rhs, _) => RhsAcceptedIff(c, rhs, sc);
    case LocalFun(key, x, fn) => FunAcceptedIff(c, fn, sc[x := Def(key, x, c.me)]);
    case Assign(_, rhs) => RhsAcceptedIff(c, rhs, sc);
    case Discard(rhs) => RhsAcceptedIff(c, rhs, sc);
    case Return(_) =>
    case If(_, thn, els) =>
      BlockAcceptedIff(c, thn, sc, {});
      BlockAcceptedIff(c, els, sc, {});
    case While(_, body) => BlockAcceptedIff(c, body, sc, {});
    case For(key, x, _, _, body) => BlockAcceptedIff(c, body, sc[x := Def(key, x, c.me)], {});
    case Do(body) => BlockAcceptedIff(c, body, sc, {});
  }

  lemma {:induction false} RhsAcceptedIff(c: Ctx, rhs: Rhs, sc: Scope)
    ensures AcceptedRhs(CompileRhs(c, rhs, sc)) <==> RhsOnce(c.captured, rhs, c.me)
    decreases rhs, 3
  {
    if rhs.Closure? { FunAcceptedIff(c, rhs.fn, sc); }
  }

  lemma {:induction false} ParamsCompiled(captured: set<Def>, ps: seq<Param>, me: Path)
    ensures var cps := CompileParams(captured, ps, me);
            |cps| == |ps| && forall i :: 0 <= i < |ps| ==> cps[i] == CParam(ps[i].x, Def(ps[i].key, ps[i].x, me) in captured)
  {
    if ps != [] { ParamsCompiled(captured, ps[1..], me); }
  }

  /** The C compiler accepts the code of a function, and of every function inside it, exactly when each name is
      declared at most once in each block, counting boxed and unboxed variables apart. */
  lemma {:induction false} FunAcceptedIff(c: Ctx, fn: Fun, sc: Scope)
    ensures AcceptedFun(CompileFun(c, fn, sc)) <==> FunOnce(c.captured, fn, c.me)
    decreases fn, 2
  {
    var me := [fn.id] + c.me;
    var cps := CompileParams(c.captured, fn.params, me);
    ParamsCompiled(c.captured, fn.params, me);
    BlockAcceptedIff(Ctx(c.captured, c.top, me, Captures(fn, sc, c.me)), fn.body, FunScope(fn, sc, c.me), ParamNames(cps));
    AvoidsParamsIff(c.captured, fn, me, cps);
  }

  lemma AvoidsParamsIff(captured: set<Def>, fn: Fun, me: Path, cps: seq<CParam>)
    requires |cps| == |fn.params|
    requires forall i :: 0 <= i < |cps| ==> cps[i] == CParam(fn.params[i].x, Def(fn.params[i].key, fn.params[i].x, me) in captured)
    ensures Avoids(captured, fn.body, me, ParamNames(cps)) <==>
            forall i, j :: 0 <= i < |fn.body| && Declares(fn.body[i]) && 0 <= j < |fn.params| && fn.body[i].x == fn.params[j].x ==>
              IsBoxed(captured, fn.body[i], me) && Def(fn.params[j].key, fn.params[j].x, me) !in captured
  {
    var ns := ParamNames(cps);
    forall i | 0 <= i < |fn.body| && Declares(fn.body[i])
      ensures NameOf(captured, fn.body[i], me) !in ns <==>
              forall j :: 0 <= j < |fn.params| && fn.body[i].x == fn.params[j].x ==>
                IsBoxed(captured, fn.body[i], me) && Def(fn.params[j].key, fn.params[j].x, me) !in captured
    {
      NameAmongParams(NameOf(captured, fn.body[i], me), cps);
    }
  }

  lemma NameAmongParams(n: CName, cps: seq<CParam>)
    ensures n in ParamNames(cps) <==> exists j :: 0 <= j < |cps| && cps[j].x == n.x && (n.boxed ==> cps[j].boxed)
  {
    if j :| 0 <= j < |cps| && cps[j].x == n.x && (n.boxed ==> cps[j].boxed) {
      assert cps[j] in cps;
    }
  }
}
