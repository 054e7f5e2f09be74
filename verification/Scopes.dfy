/** Nested functions over named locals, and what scope resolution finds in them: which definition each name
    refers to, which definitions inner functions capture, and the capture list of every function. */
module Scopes {

  // ----- the source language -----

  datatype Atom = Const(k: int) | Var(x: string)

  /** `key` tells the declaring nodes of a program apart. */
  datatype Param = Param(key: nat, x: string)

  datatype Fun = Fun(id: nat, params: seq<Param>, body: seq<Stmt>)

  datatype Rhs =
    | Val(a: Atom)
    | Closure(fn: Fun)
    | Call(f: Atom, args: seq<Atom>)
    | Prim(op: nat, l: Atom, r: Atom)

  datatype Stmt =
    | Local(key: nat, x: string, rhs: Rhs, num: bool)   // whether inference gives the initialiser a numeric type
    | LocalFun(key: nat, x: string, fn: Fun)
    | Assign(x: string, rhs: Rhs)
    | Discard(rhs: Rhs)
    | Return(a: Atom)
    | If(c: Atom, thn: seq<Stmt>, els: seq<Stmt>)
    | While(c: Atom, body: seq<Stmt>)
    | For(key: nat, x: string, lo: Atom, hi: Atom, body: seq<Stmt>)
    | Do(body: seq<Stmt>)

  // ----- definitions and uses -----

  /** A function activation's place in the program: its own identifier, then those of the functions around
      it, innermost first. The file level is the empty path. */
  type Path = seq<nat>

  datatype Def = Def(key: nat, name: string, owner: Path)

  /** The innermost visible definition of each name. */
  type Scope = map<string, Def>

  /** One resolved reference: a definition and the function that mentions it. */
  datatype Use = Use(d: Def, from: Path)

  function ParamScope(ps: seq<Param>, sc: Scope, me: Path): (r: Scope)
    ensures r.Keys == sc.Keys + (set p <- ps :: p.x)
  {
    if ps == [] then sc else
      var r := ParamScope(ps[1..], sc[ps[0].x := Def(ps[0].key, ps[0].x, me)], me);
      assert (set p <- ps :: p.x) == {ps[0].x} + (set p <- ps[1..] :: p.x);
      r
  }

  function FunScope(fn: Fun, sc: Scope, me: Path): Scope { ParamScope(fn.params, sc, [fn.id] + me) }

  /** The scope of the statements that follow `s` in its block. */
  function After(s: Stmt, sc: Scope, me: Path): Scope
  {
    if s.Local? || s.LocalFun? then sc[s.x := Def(s.key, s.x, me)] else sc
  }

  function AtomUses(a: Atom, sc: Scope, me: Path): seq<Use>
  {
    if a.Var? && a.x in sc then [Use(sc[a.x], me)] else []
  }

  function AtomsUses(es: seq<Atom>, sc: Scope, me: Path): seq<Use>
  {
    if es == [] then [] else AtomUses(es[0], sc, me) + AtomsUses(es[1..], sc, me)
  }

  /** Every resolved reference in a function, in the order the resolver walks them. */
  function FunUses(fn: Fun, sc: Scope, me: Path): seq<Use>
    decreases fn, 2
  {
    Uses(fn.body, FunScope(fn, sc, me), [fn.id] + me)
  }

  function RhsUses(rhs: Rhs, sc: Scope, me: Path): seq<Use>
    decreases rhs, 3
  {
    match rhs
    case Val(a) => AtomUses(a, sc, me)
    case Closure(fn) => FunUses(fn, sc, me)
    case Call(f, args) => AtomUses(f, sc, me) + AtomsUses(args, sc, me)
    case Prim(_, l, r) => AtomUses(l, sc, me) + AtomUses(r, sc, me)
  }

  function StmtUses(s: Stmt, sc: Scope, me: Path): seq<Use>
    decreases s, 0
  {
    match s
    case Local(_, _, rhs, _) => RhsUses(rhs, sc, me)
    case LocalFun(key, x, fn) => FunUses(fn, sc[x := Def(key, x, me)], me)
    case Assign(x, rhs) => AtomUses(Var(x), sc, me) + RhsUses(rhs, sc, me)
    case Discard(rhs) => RhsUses(rhs, sc, me)
    case Return(a) => AtomUses(a, sc, me)
    case If(c, thn, els) => AtomUses(c, sc, me) + Uses(thn, sc, me) + Uses(els, sc, me)
    case While(c, body) => AtomUses(c, sc, me) + Uses(body, sc, me)
    case For(key, x, lo, hi, body) =>
      AtomUses(lo, sc, me) + AtomUses(hi, sc, me) + Uses(body, sc[x := Def(key, x, me)], me)
    case Do(body) => Uses(body, sc, me)
  }

  function Uses(ss: seq<Stmt>, sc: Scope, me: Path): seq<Use>
    decreases ss, 1
  {
    if ss == [] then [] else StmtUses(ss[0], sc, me) + Uses(ss[1..], After(ss[0], sc, me), me)
  }

  // ----- capture -----

  /** The reference crosses a function boundary. */
  predicate Crosses(u: Use) { u.d.owner != [] && u.d.owner != u.from }

  /** Seen from inside the function at `me`: a definition of some function around it. */
  predicate Outer(d: Def, me: Path) { 0 < |d.owner| < |me| }

  function AddOnce(s: seq<Def>, d: Def): seq<Def> { if d in s then s else s + [d] }

  /** The definitions of functions around `me` among the references, each once, in order of first mention. */
  function OuterDefs(us: seq<Use>, me: Path, acc: seq<Def>): (r: seq<Def>)
  {
    if us == [] then acc
    else OuterDefs(us[1..], me, if Outer(us[0].d, me) then AddOnce(acc, us[0].d) else acc)
  }

  /** The capture list of a function: what its body and the functions inside it take from around it. */
  function Captures(fn: Fun, sc: Scope, me: Path): seq<Def> { OuterDefs(FunUses(fn, sc, me), [fn.id] + me, []) }

  /** Names resolve to definitions of enclosing functions only. */
  ghost predicate Enclosed(sc: Scope, me: Path)
  {
    forall x :: x in sc ==> sc[x].name == x && 0 < |sc[x].owner| <= |me| && me[|me| - |sc[x].owner|..] == sc[x].owner
  }

  lemma {:induction false} OuterDefsAre(us: seq<Use>, me: Path, acc: seq<Def>)
    ensures forall d :: d in OuterDefs(us, me, acc) <==> d in acc || (Outer(d, me) && exists u :: u in us && u.d == d)
  {
    if us != [] {
      var acc1 := if Outer(us[0].d, me) then AddOnce(acc, us[0].d) else acc;
      OuterDefsAre(us[1..], me, acc1);
      assert us == [us[0]] + us[1..];
      forall d ensures d in OuterDefs(us, me, acc) <==> d in acc || (Outer(d, me) && exists u :: u in us && u.d == d) {
        if Outer(d, me) && d == us[0].d { assert us[0] in us; }
        if u :| u in us[1..] && u.d == d { assert u in us; }
      }
    }
  }

  predicate Distinct(s: seq<Def>) { forall i, j :: 0 <= i < j < |s| ==> s[i] != s[j] }

  lemma {:induction false} OuterDefsDistinct(us: seq<Use>, me: Path, acc: seq<Def>)
    requires Distinct(acc)
    ensures Distinct(OuterDefs(us, me, acc))
  {
    if us != [] { OuterDefsDistinct(us[1..], me, if Outer(us[0].d, me) then AddOnce(acc, us[0].d) else acc); }
  }

  lemma {:induction false} ParamsEnclosed(ps: seq<Param>, sc: Scope, me: Path)
    requires Enclosed(sc, me) && me != []
    ensures Enclosed(ParamScope(ps, sc, me), me)
  {
    if ps != [] { ParamsEnclosed(ps[1..], sc[ps[0].x := Def(ps[0].key, ps[0].x, me)], me); }
  }

  lemma FunEnclosed(fn: Fun, sc: Scope, me: Path)
    requires Enclosed(sc, me)
    ensures Enclosed(FunScope(fn, sc, me), [fn.id] + me)
  {
    var inner := [fn.id] + me;
    forall x | x in sc ensures 0 < |sc[x].owner| <= |inner| && inner[|inner| - |sc[x].owner|..] == sc[x].owner {
      var k := |sc[x].owner|;
      assert inner[|inner| - k..] == me[|me| - k..];
    }
    ParamsEnclosed(fn.params, sc, inner);
  }

  /** A reference stays inside its node: it names something visible outside it, or something declared by a
      function at `me` or deeper. */
  ghost predicate FromScope(u: Use, sc: Scope, me: Path)
  {
    |me| <= |u.from| && (Outer(u.d, me) ==> u.d.name in sc && sc[u.d.name] == u.d)
  }

  lemma {:induction false} AtomsFromScope(es: seq<Atom>, sc: Scope, me: Path)
    requires Enclosed(sc, me)
    ensures forall u <- AtomsUses(es, sc, me) :: u.from == me && FromScope(u, sc, me)
  {
    if es != [] { AtomsFromScope(es[1..], sc, me); }
  }

  lemma {:induction false} ParamsKeepOuter(ps: seq<Param>, sc: Scope, me: Path)
    ensures var r := ParamScope(ps, sc, me);
            forall x :: x in r && r[x].owner != me ==> x in sc && r[x] == sc[x]
  {
    if ps != [] { ParamsKeepOuter(ps[1..], sc[ps[0].x := Def(ps[0].key, ps[0].x, me)], me); }
  }

  lemma {:induction false} FunFromScope(fn: Fun, sc: Scope, me: Path)
    requires Enclosed(sc, me)
    ensures forall u <- FunUses(fn, sc, me) :: |me| < |u.from| && (0 < |u.d.owner| <= |me| ==> u.d.name in sc && sc[u.d.name] == u.d)
    decreases fn, 2
  {
    var inner := [fn.id] + me;
    FunEnclosed(fn, sc, me);
    UsesFromScope(fn.body, FunScope(fn, sc, me), inner);
    ParamsKeepOuter(fn.params, sc, inner);
  }

  lemma {:induction false} RhsFromScope(rhs: Rhs, sc: Scope, me: Path)
    requires Enclosed(sc, me)
    ensures forall u <- RhsUses(rhs, sc, me) :: FromScope(u, sc, me)
    decreases rhs, 3
  {
    match rhs
    case Closure(fn) => FunFromScope(fn, sc, me);
    case Call(f, args) => AtomsFromScope(args, sc, me);
    case _ =>
  }

  lemma {:induction false} StmtFromScope(s: Stmt, sc: Scope, me: Path)
    requires Enclosed(sc, me) && me != []
    ensures forall u <- StmtUses(s, sc, me) :: FromScope(u, sc, me)
    decreases s, 0
  {
    match s
    case Local(_, _, rhs, _) => RhsFromScope(rhs, sc, me);
    case LocalFun(key, x, fn) => FunFromScope(fn, sc[x := Def(key, x, me)], me);
    case Assign(_, rhs) => RhsFromScope(rhs, sc, me);
    case Discard(rhs) => RhsFromScope(rhs, sc, me);
    case Return(_) =>
    case If(_, thn, els) => UsesFromScope(thn, sc, me); UsesFromScope(els, sc, me);
    case While(_, body) => UsesFromScope(body, sc, me);
    case For(key, x, _, _, body) => UsesFromScope(body, sc[x := Def(key, x, me)], me);
    case Do(body) => UsesFromScope(body, sc, me);
  }

  lemma {:induction false} UsesFromScope(ss: seq<Stmt>, sc: Scope, me: Path)
    requires Enclosed(sc, me) && me != []
    ensures forall u <- Uses(ss, sc, me) :: FromScope(u, sc, me)
    decreases ss, 1
  {
    if ss != [] {
      StmtFromScope(ss[0], sc, me);
      UsesFromScope(ss[1..], After(ss[0], sc, me), me);
    }
  }

  // ----- capture sets are closed -----

  /** Everything a function captures is, where the function is written, visible under its own name and owned
      by a proper ancestor. */
  lemma CapturesAreVisible(fn: Fun, sc: Scope, me: Path)
    requires Enclosed(sc, me)
    ensures forall d <- Captures(fn, sc, me) ::
              && d.name in sc && sc[d.name] == d
              && 0 < |d.owner| <= |me| && me[|me| - |d.owner|..] == d.owner
    ensures Distinct(Captures(fn, sc, me))
  {
    OuterDefsAre(FunUses(fn, sc, me), [fn.id] + me, []);
    OuterDefsDistinct(FunUses(fn, sc, me), [fn.id] + me, []);
    FunFromScope(fn, sc, me);
  }

  /** The function around it defines or captures it too. `us` are the references of the surrounding function,
      among them all those of `fn`. */
  lemma CapturesAreClosed(fn: Fun, sc: Scope, me: Path, us: seq<Use>)
    requires Enclosed(sc, me)
    requires forall u <- FunUses(fn, sc, me) :: u in us
    ensures forall d <- Captures(fn, sc, me) :: d.owner == me || d in OuterDefs(us, me, [])
  {
    CapturesAreVisible(fn, sc, me);
    OuterDefsAre(FunUses(fn, sc, me), [fn.id] + me, []);
    OuterDefsAre(us, me, []);
    forall d | d in Captures(fn, sc, me) ensures d.owner == me || d in OuterDefs(us, me, []) {
      var u :| u in FunUses(fn, sc, me) && u.d == d;
      if |d.owner| == |me| { assert me[0..] == me; }
    }
  }

  lemma FirstIsIn(s: seq<Def>)
    requires s != []
    ensures exists d :: d in s
  {
    assert s[0] in s;
  }

  /** A function at file level captures nothing. */
  lemma FileLevelCapturesNothing(fn: Fun, sc: Scope)
    requires Enclosed(sc, [])
    ensures Captures(fn, sc, []) == []
  {
    CapturesAreVisible(fn, sc, []);
    if Captures(fn, sc, []) != [] { FirstIsIn(Captures(fn, sc, [])); }
  }
}
