/** Programs without shadowing: the conversion keeps the meaning of every one of them. */
module Shadowing {
  import opened Scopes
  import opened Closures
  import opened ClosureProof
  import opened ClosureTheorem
  import opened CBlocks

  /** Parameters have different names, and no local has the name of anything visible where it is declared. */
  predicate FunFresh(fn: Fun, sc: Scope, me: Path)
    decreases fn, 2
  {
    && (forall i, j :: 0 <= i < j < |fn.params| ==> fn.params[i].x != fn.params[j].x)
    && BlockFresh(fn.body, FunScope(fn, sc, me), [fn.id] + me)
  }

  predicate RhsFresh(rhs: Rhs, sc: Scope, me: Path)
    decreases rhs, 3
  {
    rhs.Closure? ==> FunFresh(rhs.fn, sc, me)
  }

  predicate StmtFresh(s: Stmt, sc: Scope, me: Path)
    decreases s, 0
  {
    match s
    case Local(_, x, rhs, _) => x !in sc && RhsFresh(rhs, sc, me)
    case LocalFun(key, x, fn) => x !in sc && FunFresh(fn, sc[x := Def(key, x, me)], me)
    case Assign(_, rhs) => RhsFresh(rhs, sc, me)
    case Discard(rhs) => RhsFresh(rhs, sc, me)
    case Return(_) => true
    case If(_, thn, els) => BlockFresh(thn, sc, me) && BlockFresh(els, sc, me)
    case While(_, body) => BlockFresh(body, sc, me)
    case For(key, x, _, _, body) => BlockFresh(body, sc[x := Def(key, x, me)], me)
    case Do(body) => BlockFresh(body, sc, me)
  }

  predicate BlockFresh(ss: seq<Stmt>, sc: Scope, me: Path)
    decreases ss, 1
  {
    ss != [] ==> StmtFresh(ss[0], sc, me) && BlockFresh(ss[1..], After(ss[0], sc, me), me)
  }

  predicate NewNames(ss: seq<Stmt>, sc: Scope) { forall i :: 0 <= i < |ss| && Declares(ss[i]) ==> ss[i].x !in sc }

  lemma EnclosedAfter(s: Stmt, sc: Scope, me: Path)
    requires Enclosed(sc, me) && me != []
    ensures Enclosed(After(s, sc, me), me)
  {
    assert me[0..] == me;
  }

  lemma EnclosedWith(key: nat, x: string, sc: Scope, me: Path)
    requires Enclosed(sc, me) && me != []
    ensures Enclosed(sc[x := Def(key, x, me)], me)
  {
    assert me[0..] == me;
  }

  /** An initialiser cannot read the name it declares when nothing visible has it. */
  lemma FreshIsNotRead(c: Ctx, d: Def, rhs: Rhs, sc: Scope)
    requires Enclosed(sc, c.me) && d.name !in sc
    ensures !SelfRead(c, d, rhs, sc)
  {
    if rhs.Closure? { CapturesAreVisible(rhs.fn, sc, c.me); }
  }

  lemma {:induction false} FreshBlock(c: Ctx, ss: seq<Stmt>, sc: Scope)
    requires c.me != [] && Enclosed(sc, c.me) && BlockFresh(ss, sc, c.me)
    ensures BlockClean(c, ss, sc) && BlockOnce(c.captured, ss, c.me) && NewNames(ss, sc)
    decreases ss, 1
  {
    if ss != [] {
      var t, after := ss[1..], After(ss[0], sc, c.me);
      FreshStmt(c, ss[0], sc);
      EnclosedAfter(ss[0], sc, c.me);
      FreshBlock(c, t, after);
      NewNamesStep(ss, sc, c.me);
      EachStep(c.captured, ss, c.me);
      if Declares(ss[0]) { AvoidsNew(c.captured, ss, sc, c.me); }
    }
  }

  lemma NewNamesStep(ss: seq<Stmt>, sc: Scope, me: Path)
    requires ss != [] && NewNames(ss[1..], After(ss[0], sc, me)) && (Declares(ss[0]) ==> ss[0].x !in sc)
    ensures NewNames(ss, sc)
  {
    forall i | 0 <= i < |ss| && Declares(ss[i]) ensures ss[i].x !in sc {
      if i > 0 { assert ss[i] == ss[1..][i - 1]; }
    }
  }

  lemma AvoidsNew(captured: set<Def>, ss: seq<Stmt>, sc: Scope, me: Path)
    requires ss != [] && Declares(ss[0]) && NewNames(ss[1..], After(ss[0], sc, me))
    ensures Avoids(captured, ss[1..], me, {NameOf(captured, ss[0], me)})
  {
  }

  lemma {:induction false} FreshStmt(c: Ctx, s: Stmt, sc: Scope)
    requires c.me != [] && Enclosed(sc, c.me) && StmtFresh(s, sc, c.me)
    ensures StmtClean(c, s, sc) && StmtOnce(c.captured, s, c.me)
    decreases s, 0
  {
    match s
    case Local(key, x, rhs, _) =>
      FreshIsNotRead(c, Def(key, x, c.me), rhs, sc);
      FreshRhs(c, rhs, sc);
    case LocalFun(key, x, fn) =>
      EnclosedWith(key, x, sc, c.me);
      FreshFun(c, fn, sc[x := Def(key, x, c.me)]);
    case Assign(_, rhs) => FreshRhs(c, rhs, sc);
    case Discard(rhs) => FreshRhs(c, rhs, sc);
    case Return(_) =>
    case If(_, thn, els) => FreshBlock(c, thn, sc); FreshBlock(c, els, sc);
    case While(_, body) => FreshBlock(c, body, sc);
    case For(key, x, _, _, body) =>
      EnclosedWith(key, x, sc, c.me);
      FreshBlock(c, body, sc[x := Def(key, x, c.me)]);
    case Do(body) => FreshBlock(c, body, sc);
  }

  lemma {:induction false} FreshRhs(c: Ctx, rhs: Rhs, sc: Scope)
    requires Enclosed(sc, c.me) && RhsFresh(rhs, sc, c.me)
    ensures RhsClean(c, rhs, sc) && RhsOnce(c.captured, rhs, c.me)
    decreases rhs, 3
  {
    if rhs.Closure? { FreshFun(c, rhs.fn, sc); }
  }

  lemma {:induction false} FreshFun(c: Ctx, fn: Fun, sc: Scope)
    requires Enclosed(sc, c.me) && FunFresh(fn, sc, c.me)
    ensures FunClean(c, fn, sc) && FunOnce(c.captured, fn, c.me)
    decreases fn, 2
  {
    var me := [fn.id] + c.me;
    FunEnclosed(fn, sc, c.me);
    FreshBlock(Ctx(c.captured, c.top, me, Captures(fn, sc, c.me)), fn.body, FunScope(fn, sc, c.me));
    forall j | 0 <= j < |fn.params| ensures fn.params[j].x in FunScope(fn, sc, c.me) {
      assert fn.params[j] in fn.params;
    }
  }

  /** A program in which no local shadows a visible name is taken by the C compiler and keeps its meaning: it meets the
      conditions of ConversionPreservesMeaning. */
  lemma WithoutShadowingAllIsWell(top: Top)
    requires forall x :: x in top ==> FunFresh(top[x], map[], [])
    ensures ProgramClean(top)
  {
    forall x | x in top ensures FunClean(Home(CapturedIn(top), top.Keys, []), top[x], map[]) && FunOnce(CapturedIn(top), top[x], []) {
      FreshFun(Home(CapturedIn(top), top.Keys, []), top[x], map[]);
    }
  }
}
