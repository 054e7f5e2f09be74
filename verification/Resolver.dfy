/** The resolver as the code generator runs it: function records updated in place while one walk over the
    program finds captured definitions and pushes each up the chain of parents. */
module Resolver {
  import opened Scopes

  // ----- what the walk must leave behind -----

  /** Capture lists of the functions around and including `me`, innermost first, extended by more references. */
  function Extend(us: seq<Use>, me: Path, lists: seq<seq<Def>>): seq<seq<Def>>
    requires |lists| == |me|
  {
    seq(|me|, i requires 0 <= i < |me| => OuterDefs(us, me[i..], lists[i]))
  }

  function Crossing(us: seq<Use>): set<Def> { set u | u in us && Crosses(u) :: u.d }

  /** The capture lists of all functions inside a node, in the order the walk leaves them. */
  function FunLists(fn: Fun, sc: Scope, me: Path): seq<seq<Def>>
    decreases fn, 2
  {
    Lists(fn.body, FunScope(fn, sc, me), [fn.id] + me) + [Captures(fn, sc, me)]
  }

  function RhsLists(rhs: Rhs, sc: Scope, me: Path): seq<seq<Def>>
    decreases rhs, 3
  {
    if rhs.Closure? then FunLists(rhs.fn, sc, me) else []
  }

  function StmtLists(s: Stmt, sc: Scope, me: Path): seq<seq<Def>>
    decreases s, 0
  {
    match s
    case Local(_, _, rhs, _) => RhsLists(rhs, sc, me)
    case LocalFun(key, x, fn) => FunLists(fn, sc[x := Def(key, x, me)], me)
    case Assign(_, rhs) => RhsLists(rhs, sc, me)
    case Discard(rhs) => RhsLists(rhs, sc, me)
    case Return(_) => []
    case If(_, thn, els) => Lists(thn, sc, me) + Lists(els, sc, me)
    case While(_, body) => Lists(body, sc, me)
    case For(key, x, _, _, body) => Lists(body, sc[x := Def(key, x, me)], me)
    case Do(body) => Lists(body, sc, me)
  }

  function Lists(ss: seq<Stmt>, sc: Scope, me: Path): seq<seq<Def>>
    decreases ss, 1
  {
    if ss == [] then [] else StmtLists(ss[0], sc, me) + Lists(ss[1..], After(ss[0], sc, me), me)
  }

  function AfterAll(ss: seq<Stmt>, sc: Scope, me: Path): Scope
  {
    if ss == [] then sc else AfterAll(ss[1..], After(ss[0], sc, me), me)
  }

  lemma {:induction false} OuterDefsConcat(us: seq<Use>, more: seq<Use>, me: Path, acc: seq<Def>)
    ensures OuterDefs(us + more, me, acc) == OuterDefs(more, me, OuterDefs(us, me, acc))
  {
    if us == [] {
      assert us + more == more;
    } else {
      assert (us + more)[0] == us[0] && (us + more)[1..] == us[1..] + more;
      OuterDefsConcat(us[1..], more, me, if Outer(us[0].d, me) then AddOnce(acc, us[0].d) else acc);
    }
  }

  lemma ExtendConcat(us: seq<Use>, more: seq<Use>, me: Path, lists: seq<seq<Def>>)
    requires |lists| == |me|
    ensures Extend(us + more, me, lists) == Extend(more, me, Extend(us, me, lists))
    ensures Crossing(us + more) == Crossing(us) + Crossing(more)
  {
    forall i | 0 <= i < |me| ensures Extend(us + more, me, lists)[i] == Extend(more, me, Extend(us, me, lists))[i] {
      OuterDefsConcat(us, more, me[i..], lists[i]);
    }
  }

  lemma ExtendNothing(me: Path, lists: seq<seq<Def>>)
    requires |lists| == |me|
    ensures Extend([], me, lists) == lists && Crossing([]) == {}
  {
  }

  lemma ExtendOne(d: Def, me: Path, lists: seq<seq<Def>>)
    requires |lists| == |me| && me != []
    ensures Extend([Use(d, me)], me, lists) ==
            Added(d, me, lists, if 0 < |d.owner| < |me| then |me| - |d.owner| else 0)
    ensures Crossing([Use(d, me)]) == if Crosses(Use(d, me)) then {d} else {}
  {
    var u := Use(d, me);
    forall i | 0 <= i < |me|
      ensures OuterDefs([u], me[i..], lists[i]) == if 0 < |d.owner| < |me| - i then AddOnce(lists[i], d) else lists[i]
    {
      assert [u][1..] == [];
    }
    assert u in [u];
  }

  /** `d` added once to the first `n` lists. */
  function Added(d: Def, me: Path, lists: seq<seq<Def>>, n: nat): seq<seq<Def>>
    requires |lists| == |me|
  {
    seq(|me|, i requires 0 <= i < |me| => if i < n then AddOnce(lists[i], d) else lists[i])
  }

  lemma {:induction false} SnocScope(ss: seq<Stmt>, s: Stmt, sc: Scope, me: Path)
    ensures AfterAll(ss + [s], sc, me) == After(s, AfterAll(ss, sc, me), me)
  {
    if ss == [] {
      assert ss + [s] == [s] && [s][1..] == [];
    } else {
      assert (ss + [s])[0] == ss[0] && (ss + [s])[1..] == ss[1..] + [s];
      SnocScope(ss[1..], s, After(ss[0], sc, me), me);
    }
  }

  lemma {:induction false} SnocUses(ss: seq<Stmt>, s: Stmt, sc: Scope, me: Path)
    ensures Uses(ss + [s], sc, me) == Uses(ss, sc, me) + StmtUses(s, AfterAll(ss, sc, me), me)
  {
    if ss == [] {
      assert ss + [s] == [s] && [s][1..] == [];
      assert Uses([], After(s, sc, me), me) == [];
      assert StmtUses(s, sc, me) + [] == StmtUses(s, sc, me) == [] + StmtUses(s, sc, me);
    } else {
      assert (ss + [s])[0] == ss[0] && (ss + [s])[1..] == ss[1..] + [s];
      SnocUses(ss[1..], s, After(ss[0], sc, me), me);
    }
  }

  lemma {:induction false} SnocLists(ss: seq<Stmt>, s: Stmt, sc: Scope, me: Path)
    ensures Lists(ss + [s], sc, me) == Lists(ss, sc, me) + StmtLists(s, AfterAll(ss, sc, me), me)
  {
    if ss == [] {
      assert ss + [s] == [s] && [s][1..] == [];
      assert Lists([], After(s, sc, me), me) == [];
      assert StmtLists(s, sc, me) + [] == StmtLists(s, sc, me) == [] + StmtLists(s, sc, me);
    } else {
      assert (ss + [s])[0] == ss[0] && (ss + [s])[1..] == ss[1..] + [s];
      SnocLists(ss[1..], s, After(ss[0], sc, me), me);
    }
  }

  // ----- the walk -----

  class FuncInfo {
    const path: Path
    const parent: FuncInfo?
    var captured: seq<Def>

    constructor (path: Path, parent: FuncInfo?)
      ensures this.path == path && this.parent == parent && captured == []
    {
      this.path := path;
      this.parent := parent;
      this.captured := [];
    }

    /** `captured_set.insert(d).second` guards `captured_vars.push_back(d)`. */
    method Insert(d: Def)
      modifies this
      ensures captured == AddOnce(old(captured), d)
    {
      if d !in captured { captured := captured + [d]; }
    }
  }

  /** `fs` are the records of the functions around the current node, innermost first. */
  ghost predicate Chain(fs: seq<FuncInfo>, me: Path)
  {
    && |fs| == |me|
    && (forall i :: 0 <= i < |fs| ==> fs[i].path == me[i..])
    && (forall i {:trigger fs[i].parent} :: 0 <= i < |fs| ==> fs[i].parent == if i + 1 < |fs| then fs[i + 1] else null)
  }

  lemma ChainDistinct(fs: seq<FuncInfo>, me: Path)
    requires Chain(fs, me)
    ensures forall i, j :: 0 <= i < j < |fs| ==> fs[i] != fs[j]
  {
    forall i, j | 0 <= i < j < |fs| ensures fs[i] != fs[j] {
      assert |fs[i].path| == |me| - i && |fs[j].path| == |me| - j;
    }
  }

  ghost function Captured(fs: seq<FuncInfo>): (r: seq<seq<Def>>)
    reads fs
    ensures |r| == |fs|
  {
    seq(|fs|, i requires 0 <= i < |fs| reads fs => fs[i].captured)
  }

  class Walk {
    var captured: set<Def>
    /** The capture list of every function left so far. */
    var finished: seq<seq<Def>>

    constructor ()
      ensures captured == {} && finished == []
    {
      captured, finished := {}, [];
    }

    /** One reference: mark the definition, and add it to every function from here up to its owner. */
    method Refer(d: Def, cur: FuncInfo, ghost fs: seq<FuncInfo>, ghost me: Path)
      requires me != [] && Chain(fs, me) && cur == fs[0]
      requires 0 < |d.owner| <= |me| && me[|me| - |d.owner|..] == d.owner
      modifies this`captured, fs
      ensures captured == old(captured) + Crossing([Use(d, me)])
      ensures captured == if d.owner == me then old(captured) else old(captured) + {d}
      ensures Captured(fs) == Extend([Use(d, me)], me, old(Captured(fs)))
      ensures forall i :: 0 <= i < |fs| ==> Captured(fs)[i] == if i < |me| - |d.owner| then AddOnce(old(Captured(fs))[i], d) else old(Captured(fs))[i]
    {
      ghost var was := Captured(fs);
      ExtendOne(d, me, was);
      ChainDistinct(fs, me);
      assert me[0..] == me;
      if d.owner != cur.path {
        captured := captured + {d};
        Climb(d, cur, fs, me);
      }
    }

    /** `while (p && p != f_def)`: insert into each capture set on the way. */
    method Climb(d: Def, cur: FuncInfo, ghost fs: seq<FuncInfo>, ghost me: Path)
      requires me != [] && Chain(fs, me) && cur == fs[0]
      requires forall i, j :: 0 <= i < j < |fs| ==> fs[i] != fs[j]
      requires 0 < |d.owner| <= |me| && me[|me| - |d.owner|..] == d.owner
      modifies fs
      ensures Captured(fs) == Added(d, me, old(Captured(fs)), |me| - |d.owner|)
    {
      var p: FuncInfo? := cur;
      ghost var i := 0;
      ghost var was := Captured(fs);
      while p != null && p.path != d.owner
        invariant 0 <= i <= |me| - |d.owner| && p == fs[i]
        invariant forall j :: 0 <= j < i ==> fs[j].captured == AddOnce(was[j], d)
        invariant forall j :: i <= j < |fs| ==> fs[j].captured == was[j]
        decreases |fs| - i
      {
        assert |fs[i].path| == |me| - i;
        p.Insert(d);
        p := p.parent;
        i := i + 1;
      }
      assert |fs[i].path| == |me| - i;
    }

    // Each method below: the references of its node go to the chain of enclosing functions, and the functions
    // inside it are appended with their finished capture lists.

    method ResolveAtom(a: Atom, sc: Scope, cur: FuncInfo, ghost fs: seq<FuncInfo>, me: Path)
      requires me != [] && Chain(fs, me) && cur == fs[0] && Enclosed(sc, me)
      modifies this`captured, fs
      ensures captured == old(captured) + Crossing(AtomUses(a, sc, me))
      ensures Captured(fs) == Extend(AtomUses(a, sc, me), me, old(Captured(fs)))
    {
      ExtendNothing(me, Captured(fs));
      if a.Var? && a.x in sc { Refer(sc[a.x], cur, fs, me); }
    }

    method ResolveAtoms(es: seq<Atom>, sc: Scope, cur: FuncInfo, ghost fs: seq<FuncInfo>, me: Path)
      requires me != [] && Chain(fs, me) && cur == fs[0] && Enclosed(sc, me)
      modifies this`captured, fs
      ensures captured == old(captured) + Crossing(AtomsUses(es, sc, me))
      ensures Captured(fs) == Extend(AtomsUses(es, sc, me), me, old(Captured(fs)))
    {
      ExtendNothing(me, Captured(fs));
      if es != [] {
        ExtendConcat(AtomUses(es[0], sc, me), AtomsUses(es[1..], sc, me), me, Captured(fs));
        ResolveAtom(es[0], sc, cur, fs, me);
        ResolveAtoms(es[1..], sc, cur, fs, me);
      }
    }

    method ResolveFun(fn: Fun, sc: Scope, cur: FuncInfo?, ghost fs: seq<FuncInfo>, me: Path)
      requires Chain(fs, me) && cur == (if fs == [] then null else fs[0]) && Enclosed(sc, me)
      modifies this, fs
      ensures captured == old(captured) + Crossing(FunUses(fn, sc, me))
      ensures Captured(fs) == Extend(FunUses(fn, sc, me), me, old(Captured(fs)))
      ensures finished == old(finished) + FunLists(fn, sc, me)
      decreases fn, 2
    {
      var record := new FuncInfo([fn.id] + me, cur);
      InnerChain(record, fs, fn.id, me);
      ResolveBody(record, fn, sc, fs, me);
      finished := finished + [record.captured];
    }

    method ResolveBody(record: FuncInfo, fn: Fun, sc: Scope, ghost fs: seq<FuncInfo>, me: Path)
      requires Chain([record] + fs, [fn.id] + me) && record.captured == [] && Enclosed(sc, me)
      modifies this, record, fs
      ensures captured == old(captured) + Crossing(FunUses(fn, sc, me))
      ensures record.captured == Captures(fn, sc, me)
      ensures Captured(fs) == Extend(FunUses(fn, sc, me), me, old(Captured(fs)))
      ensures finished == old(finished) + Lists(fn.body, FunScope(fn, sc, me), [fn.id] + me)
      decreases fn, 1
    {
      ghost var chain := [record] + fs;
      ghost var was := Captured(fs);
      assert Captured(chain) == [[]] + was;
      FunEnclosed(fn, sc, me);
      InnerExtend(FunUses(fn, sc, me), fn.id, me, was);
      ResolveBlock(fn.body, FunScope(fn, sc, me), record, chain, [fn.id] + me);
      assert Captured(fs) == Captured(chain)[1..] && record.captured == Captured(chain)[0];
    }

    method ResolveRhs(rhs: Rhs, sc: Scope, cur: FuncInfo, ghost fs: seq<FuncInfo>, me: Path)
      requires me != [] && Chain(fs, me) && cur == fs[0] && Enclosed(sc, me)
      modifies this, fs
      ensures captured == old(captured) + Crossing(RhsUses(rhs, sc, me))
      ensures Captured(fs) == Extend(RhsUses(rhs, sc, me), me, old(Captured(fs)))
      ensures finished == old(finished) + RhsLists(rhs, sc, me)
      decreases rhs, 3
    {
      match rhs
      case Val(a) => ResolveAtom(a, sc, cur, fs, me);
      case Closure(fn) => ResolveFun(fn, sc, cur, fs, me);
      case Call(f, args) =>
        ExtendConcat(AtomUses(f, sc, me), AtomsUses(args, sc, me), me, Captured(fs));
        ResolveAtom(f, sc, cur, fs, me);
        ResolveAtoms(args, sc, cur, fs, me);
      case Prim(_, l, r) => ResolveTwo(l, r, sc, cur, fs, me);
    }

    method ResolveTwo(l: Atom, r: Atom, sc: Scope, cur: FuncInfo, ghost fs: seq<FuncInfo>, me: Path)
      requires me != [] && Chain(fs, me) && cur == fs[0] && Enclosed(sc, me)
      modifies this`captured, fs
      ensures captured == old(captured) + Crossing(AtomUses(l, sc, me) + AtomUses(r, sc, me))
      ensures Captured(fs) == Extend(AtomUses(l, sc, me) + AtomUses(r, sc, me), me, old(Captured(fs)))
    {
      ExtendConcat(AtomUses(l, sc, me), AtomUses(r, sc, me), me, Captured(fs));
      ResolveAtom(l, sc, cur, fs, me);
      ResolveAtom(r, sc, cur, fs, me);
    }

    method ResolveStmt(s: Stmt, sc: Scope, cur: FuncInfo, ghost fs: seq<FuncInfo>, me: Path)
      requires me != [] && Chain(fs, me) && cur == fs[0] && Enclosed(sc, me)
      modifies this, fs
      ensures captured == old(captured) + Crossing(StmtUses(s, sc, me))
      ensures Captured(fs) == Extend(StmtUses(s, sc, me), me, old(Captured(fs)))
      ensures finished == old(finished) + StmtLists(s, sc, me)
      decreases s, 0
    {
      match s
      case Local(_, _, rhs, _) => ResolveRhs(rhs, sc, cur, fs, me);
      case LocalFun(key, x, fn) =>
        AfterEnclosed(s, sc, me);
        ResolveFun(fn, sc[x := Def(key, x, me)], cur, fs, me);
      case Assign(x, rhs) => ResolveAssign(x, rhs, sc, cur, fs, me);
      case Discard(rhs) => ResolveRhs(rhs, sc, cur, fs, me);
      case Return(a) => ResolveAtom(a, sc, cur, fs, me);
      case If(c, thn, els) => ResolveIf(c, thn, els, sc, cur, fs, me);
      case While(c, body) => ResolveWhile(c, body, sc, cur, fs, me);
      case For(key, x, lo, hi, body) =>
        AfterEnclosed(Local(key, x, Val(lo), false), sc, me);
        ResolveFor(lo, hi, body, sc, sc[x := Def(key, x, me)], cur, fs, me);
      case Do(body) => ResolveBlock(body, sc, cur, fs, me);
    }

    method ResolveAssign(x: string, rhs: Rhs, sc: Scope, cur: FuncInfo, ghost fs: seq<FuncInfo>, me: Path)
      requires me != [] && Chain(fs, me) && cur == fs[0] && Enclosed(sc, me)
      modifies this, fs
      ensures captured == old(captured) + Crossing(AtomUses(Var(x), sc, me) + RhsUses(rhs, sc, me))
      ensures Captured(fs) == Extend(AtomUses(Var(x), sc, me) + RhsUses(rhs, sc, me), me, old(Captured(fs)))
      ensures finished == old(finished) + RhsLists(rhs, sc, me)
      decreases Assign(x, rhs), 0, 0
    {
      ExtendConcat(AtomUses(Var(x), sc, me), RhsUses(rhs, sc, me), me, Captured(fs));
      ResolveAtom(Var(x), sc, cur, fs, me);
      ResolveRhs(rhs, sc, cur, fs, me);
    }

    method ResolveIf(c: Atom, thn: seq<Stmt>, els: seq<Stmt>, sc: Scope, cur: FuncInfo, ghost fs: seq<FuncInfo>, me: Path)
      requires me != [] && Chain(fs, me) && cur == fs[0] && Enclosed(sc, me)
      modifies this, fs
      ensures captured == old(captured) + Crossing(AtomUses(c, sc, me) + Uses(thn, sc, me) + Uses(els, sc, me))
      ensures Captured(fs) == Extend(AtomUses(c, sc, me) + Uses(thn, sc, me) + Uses(els, sc, me), me, old(Captured(fs)))
      ensures finished == old(finished) + (Lists(thn, sc, me) + Lists(els, sc, me))
      decreases If(c, thn, els), 0, 1
    {
      Regroup(AtomUses(c, sc, me), Uses(thn, sc, me), Uses(els, sc, me));
      ExtendConcat(AtomUses(c, sc, me), Uses(thn, sc, me) + Uses(els, sc, me), me, Captured(fs));
      ResolveAtom(c, sc, cur, fs, me);
      ResolveBoth(c, thn, els, sc, cur, fs, me);
    }

    method ResolveBoth(ghost c: Atom, thn: seq<Stmt>, els: seq<Stmt>, sc: Scope, cur: FuncInfo, ghost fs: seq<FuncInfo>, me: Path)
      requires me != [] && Chain(fs, me) && cur == fs[0] && Enclosed(sc, me)
      modifies this, fs
      ensures captured == old(captured) + Crossing(Uses(thn, sc, me) + Uses(els, sc, me))
      ensures Captured(fs) == Extend(Uses(thn, sc, me) + Uses(els, sc, me), me, old(Captured(fs)))
      ensures finished == old(finished) + (Lists(thn, sc, me) + Lists(els, sc, me))
      decreases If(c, thn, els), 0, 0
    {
      ExtendConcat(Uses(thn, sc, me), Uses(els, sc, me), me, Captured(fs));
      Regroup(finished, Lists(thn, sc, me), Lists(els, sc, me));
      ResolveBlock(thn, sc, cur, fs, me);
      ResolveBlock(els, sc, cur, fs, me);
    }

    method ResolveWhile(c: Atom, body: seq<Stmt>, sc: Scope, cur: FuncInfo, ghost fs: seq<FuncInfo>, me: Path)
      requires me != [] && Chain(fs, me) && cur == fs[0] && Enclosed(sc, me)
      modifies this, fs
      ensures captured == old(captured) + Crossing(AtomUses(c, sc, me) + Uses(body, sc, me))
      ensures Captured(fs) == Extend(AtomUses(c, sc, me) + Uses(body, sc, me), me, old(Captured(fs)))
      ensures finished == old(finished) + Lists(body, sc, me)
      decreases body, 2
    {
      ExtendConcat(AtomUses(c, sc, me), Uses(body, sc, me), me, Captured(fs));
      ResolveAtom(c, sc, cur, fs, me);
      ResolveBlock(body, sc, cur, fs, me);
    }

    method ResolveFor(lo: Atom, hi: Atom, body: seq<Stmt>, sc: Scope, inner: Scope, cur: FuncInfo, ghost fs: seq<FuncInfo>, me: Path)
      requires me != [] && Chain(fs, me) && cur == fs[0] && Enclosed(sc, me) && Enclosed(inner, me)
      modifies this, fs
      ensures captured == old(captured) + Crossing(AtomUses(lo, sc, me) + AtomUses(hi, sc, me) + Uses(body, inner, me))
      ensures Captured(fs) == Extend(AtomUses(lo, sc, me) + AtomUses(hi, sc, me) + Uses(body, inner, me), me, old(Captured(fs)))
      ensures finished == old(finished) + Lists(body, inner, me)
      decreases body, 3
    {
      ExtendConcat(AtomUses(lo, sc, me) + AtomUses(hi, sc, me), Uses(body, inner, me), me, Captured(fs));
      ResolveTwo(lo, hi, sc, cur, fs, me);
      ResolveBlock(body, inner, cur, fs, me);
    }

    method ResolveBlock(ss: seq<Stmt>, sc: Scope, cur: FuncInfo, ghost fs: seq<FuncInfo>, me: Path)
      requires me != [] && Chain(fs, me) && cur == fs[0] && Enclosed(sc, me)
      modifies this, fs
      ensures captured == old(captured) + Crossing(Uses(ss, sc, me))
      ensures Captured(fs) == Extend(Uses(ss, sc, me), me, old(Captured(fs)))
      ensures finished == old(finished) + Lists(ss, sc, me)
      decreases ss, 1
    {
      ghost var was, first, lists := Captured(fs), captured, finished;
      ExtendNothing(me, was);
      var scope, i := sc, 0;
      while i < |ss|
        invariant 0 <= i <= |ss| && scope == AfterAll(ss[..i], sc, me) && Enclosed(scope, me)
        invariant captured == first + Crossing(Uses(ss[..i], sc, me))
        invariant Captured(fs) == Extend(Uses(ss[..i], sc, me), me, was)
        invariant finished == lists + Lists(ss[..i], sc, me)
      {
        ResolveNext(ss, i, sc, scope, cur, fs, me, was, first, lists);
        scope := After(ss[i], scope, me);
        i := i + 1;
      }
      assert ss[..|ss|] == ss;
    }

    /** One round of the loop above, in terms of the statements up to and including the next. */
    method ResolveNext(ss: seq<Stmt>, i: nat, ghost sc: Scope, scope: Scope, cur: FuncInfo, ghost fs: seq<FuncInfo>, me: Path,
                       ghost was: seq<seq<Def>>, ghost first: set<Def>, ghost lists: seq<seq<Def>>)
      requires me != [] && Chain(fs, me) && cur == fs[0]
      requires i < |ss| && scope == AfterAll(ss[..i], sc, me) && Enclosed(scope, me)
      requires |was| == |me| && Captured(fs) == Extend(Uses(ss[..i], sc, me), me, was)
      requires captured == first + Crossing(Uses(ss[..i], sc, me))
      requires finished == lists + Lists(ss[..i], sc, me)
      modifies this, fs
      ensures captured == first + Crossing(Uses(ss[..i + 1], sc, me))
      ensures Captured(fs) == Extend(Uses(ss[..i + 1], sc, me), me, was)
      ensures finished == lists + Lists(ss[..i + 1], sc, me)
      ensures var after := After(ss[i], scope, me); after == AfterAll(ss[..i + 1], sc, me) && Enclosed(after, me)
      decreases ss, 0
    {
      ExtendConcat(Uses(ss[..i], sc, me), StmtUses(ss[i], scope, me), me, was);
      NextUses(ss, i, sc, me);
      NextLists(ss, i, sc, me);
      AfterEnclosed(ss[i], scope, me);
      ResolveStmt(ss[i], scope, cur, fs, me);
    }
  }

  lemma NextUses(ss: seq<Stmt>, i: nat, sc: Scope, me: Path)
    requires i < |ss|
    ensures Uses(ss[..i + 1], sc, me) == Uses(ss[..i], sc, me) + StmtUses(ss[i], AfterAll(ss[..i], sc, me), me)
  {
    assert ss[..i + 1] == ss[..i] + [ss[i]];
    SnocUses(ss[..i], ss[i], sc, me);
  }

  lemma NextLists(ss: seq<Stmt>, i: nat, sc: Scope, me: Path)
    requires i < |ss|
    ensures var scope := AfterAll(ss[..i], sc, me);
            && Lists(ss[..i + 1], sc, me) == Lists(ss[..i], sc, me) + StmtLists(ss[i], scope, me)
            && AfterAll(ss[..i + 1], sc, me) == After(ss[i], scope, me)
  {
    assert ss[..i + 1] == ss[..i] + [ss[i]];
    SnocScope(ss[..i], ss[i], sc, me);
    SnocLists(ss[..i], ss[i], sc, me);
  }

  lemma AfterEnclosed(s: Stmt, sc: Scope, me: Path)
    requires Enclosed(sc, me) && me != []
    ensures Enclosed(After(s, sc, me), me)
  {
    assert me[0..] == me;
  }

  lemma Regroup<T>(a: seq<T>, b: seq<T>, c: seq<T>)
    ensures a + b + c == a + (b + c)
  {
  }

  lemma InnerChain(record: FuncInfo, fs: seq<FuncInfo>, id: nat, me: Path)
    requires Chain(fs, me) && record.path == [id] + me && record.parent == if fs == [] then null else fs[0]
    ensures Chain([record] + fs, [id] + me)
  {
    var chain, inner := [record] + fs, [id] + me;
    assert inner[0..] == inner;
    assert |chain| == |inner| && chain[0] == record;
    assert fs != [] ==> chain[1] == fs[0];
    forall i | 0 < i < |chain|
      ensures chain[i].path == inner[i..] && chain[i].parent == if i + 1 < |chain| then chain[i + 1] else null
    {
      assert chain[i] == fs[i - 1] && inner[i..] == me[i - 1..];
      if i + 1 < |chain| { assert chain[i + 1] == fs[i]; }
    }
    assert record.parent == if 1 < |chain| then chain[1] else null;
  }

  lemma InnerExtend(us: seq<Use>, id: nat, me: Path, lists: seq<seq<Def>>)
    requires |lists| == |me|
    ensures Extend(us, [id] + me, [[]] + lists) == [OuterDefs(us, [id] + me, [])] + Extend(us, me, lists)
  {
    var inner := [id] + me;
    forall i | 0 < i < |inner| ensures inner[i..] == me[i - 1..] {}
    assert inner[0..] == inner;
  }
}
