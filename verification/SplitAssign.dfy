/** The two assignment passes of the rewriter: several targets become single assignments through temporaries,
    then stores into tables become calls. */
module SplitAssign {
  import opened Options
  import opened Assignments

  // ----- one assignment -----

  function Held(t: Target, c: nat, i: nat): Target
  {
    match t
    case Simple(_) => t
    case Square(_, _) => Square(Var(LhsBase(c, i)), Var(LhsKey(c, i)))
    case Dot(_, x) => Dot(Var(LhsBase(c, i)), x)
  }

  function Capture(t: Target, c: nat, i: nat): seq<Stmt>
  {
    match t
    case Simple(_) => []
    case Square(b, k) => [Local([LhsBase(c, i)], [b]), Local([LhsKey(c, i)], [k])]
    case Dot(b, _) => [Local([LhsBase(c, i)], [b])]
  }

  function Captures(ts: seq<Target>, c: nat, i: nat): seq<Stmt>
  {
    if ts == [] then [] else Capture(ts[0], c, i) + Captures(ts[1..], c, i + 1)
  }

  function TmpNames(n: nat, c: nat, i: nat): (r: seq<Name>)
    ensures |r| == n
  {
    if n == 0 then [] else [Tmp(c, i)] + TmpNames(n - 1, c, i + 1)
  }

  function Singles(ts: seq<Target>, c: nat, i: nat): seq<Stmt>
  {
    if ts == [] then [] else [Assign([Held(ts[0], c, i)], [Var(Tmp(c, i))])] + Singles(ts[1..], c, i + 1)
  }

  function Split(ts: seq<Target>, es: seq<Exp>, c: nat): seq<Stmt>
  {
    Captures(ts, c, 0) + [Local(TmpNames(|ts|, c, 0), es)] + Singles(ts, c, 0)
  }

  /** The counts the pass accepts: equal, or fewer expressions with a call or `...` last. */
  predicate CountsOk(ts: seq<Target>, es: seq<Exp>)
  {
    |ts| == |es| || (es != [] && (es[|es| - 1].Call? || es[|es| - 1].Varargs?) && |ts| > |es|)
  }

  // ----- its meaning -----

  /** The temporaries hold the places the targets denoted when they were captured. */
  predicate Holds(ts: seq<Target>, ps: seq<Place>, c: nat, i: nat, st: State)
  {
    |ts| == |ps| &&
    forall j :: 0 <= j < |ts| ==> HoldsOne(ts[j], ps[j], c, i + j, st)
  }

  predicate HoldsOne(t: Target, p: Place, c: nat, i: nat, st: State)
  {
    match t
    case Simple(n) => p == Cell(n)
    case Square(_, _) => p == Slot(Read(LhsBase(c, i), st), Read(LhsKey(c, i), st))
    case Dot(_, x) => p == Slot(Read(LhsBase(c, i), st), Str(x))
  }

  /** Only the captures of this group from position `i` on have changed. */
  ghost predicate KeptBelow(st: State, now: State, c: nat, i: nat)
  {
    forall j :: 0 <= j < i ==>
      Read(LhsBase(c, j), now) == Read(LhsBase(c, j), st) && Read(LhsKey(c, j), now) == Read(LhsKey(c, j), st)
  }

  /** Both finish or both raise, in states the program cannot tell apart. */
  predicate Follows<T>(a: Out<T>, b: End)
  {
    (if a.Ok? then b.Done? else b.Failed?) && a.st.user == b.st.user
  }

  predicate SameEnd(a: End, b: End)
  {
    (a.Done? <==> b.Done?) && (a.Failed? <==> b.Failed?) && (!a.Running? ==> a.st.user == b.st.user)
  }

  lemma CaptureOne(w: World, t: Target, c: nat, i: nat, st: State, ref: State, fuel: nat)
    requires PlainTarget(t) && st.user == ref.user
    ensures var o := Run(w, Capture(t, c, i), st, fuel);
            var r := EvalPlace(w, t, ref);
            && Follows(r, o)
            && (r.Ok? ==> HoldsOne(t, r.v, c, i, o.st) && KeptBelow(st, o.st, c, i))
  {
    match t
    case Simple(_) =>
    case Square(b, k) =>
      LocalOne(w, LhsBase(c, i), b, [Local([LhsKey(c, i)], [k])], st, ref, fuel);
      var r := EvalOne(w, b, ref);
      if r.Ok? {
        var s1 := Bind(LhsBase(c, i), r.v, State(r.st.user, st.temps));
        LocalOne(w, LhsKey(c, i), k, [], s1, r.st, fuel);
        EvalOneBlind(w, k, r.st, s1);
      }
    case Dot(b, _) => LocalOne(w, LhsBase(c, i), b, [], st, ref, fuel);
  }

  /** `local n = e` followed by more statements. */
  lemma LocalOne(w: World, n: Name, e: Exp, more: seq<Stmt>, st: State, ref: State, fuel: nat)
    requires Plain(e) && !n.User? && st.user == ref.user
    ensures var o := Run(w, [Local([n], [e])] + more, st, fuel);
            var r := EvalOne(w, e, ref);
            o == if r.Ok? then Run(w, more, Bind(n, r.v, State(r.st.user, st.temps)), fuel)
                 else Failed(State(r.st.user, st.temps))
  {
    EvalBlind(w, e, ref, st);
    var ss := [Local([n], [e])] + more;
    assert ss[1..] == more;
    var r := Eval(w, e, st);
    assert EvalList(w, [e], st) == r;
    if r.Ok? {
      assert r.st == State(r.st.user, st.temps);
      assert Adjust(r.v, 1) == [First(r.v)];
      assert BindAll([n], [First(r.v)], r.st) == Bind(n, First(r.v), r.st);
    }
  }

  lemma {:induction false} CaptureAll(w: World, ts: seq<Target>, c: nat, i: nat, st: State, ref: State, fuel: nat)
    requires PlainTargets(ts) && st.user == ref.user
    ensures var o := Run(w, Captures(ts, c, i), st, fuel);
            var r := EvalPlaces(w, ts, ref);
            && Follows(r, o)
            && (r.Ok? ==> Holds(ts, r.v, c, i, o.st) && KeptBelow(st, o.st, c, i))
    decreases |ts|
  {
    if ts != [] {
      assert PlainTarget(ts[0]);
      CaptureOne(w, ts[0], c, i, st, ref, fuel);
      RunConcat(w, Capture(ts[0], c, i), Captures(ts[1..], c, i + 1), st, fuel);
      var r := EvalPlace(w, ts[0], ref);
      if r.Ok? {
        var s1 := Run(w, Capture(ts[0], c, i), st, fuel).st;
        CaptureAll(w, ts[1..], c, i + 1, s1, r.st, fuel);
        var rest := EvalPlaces(w, ts[1..], r.st);
        if rest.Ok? { HoldsCons(ts, r.v, rest.v, c, i, s1, Run(w, Captures(ts[1..], c, i + 1), s1, fuel).st); }
      }
    }
  }

  lemma HoldsCons(ts: seq<Target>, p: Place, ps: seq<Place>, c: nat, i: nat, mid: State, st: State)
    requires ts != [] && HoldsOne(ts[0], p, c, i, mid) && KeptBelow(mid, st, c, i + 1)
    requires Holds(ts[1..], ps, c, i + 1, st)
    ensures Holds(ts, [p] + ps, c, i, st)
  {
    forall j | 0 <= j < |ts| ensures HoldsOne(ts[j], ([p] + ps)[j], c, i + j, st) {
      if j > 0 { assert HoldsOne(ts[1..][j - 1], ps[j - 1], c, i + 1 + (j - 1), st); }
    }
  }

  lemma {:induction false} BindTmps(n: nat, c: nat, i: nat, vs: seq<Value>, st: State)
    requires |vs| == n
    ensures var s := BindAll(TmpNames(n, c, i), vs, st);
            && s.user == st.user
            && (forall j :: 0 <= j < n ==> Read(Tmp(c, i + j), s) == vs[j])
            && (forall m: Name :: (m.Tmp? && m.i < i) || m.LhsBase? || m.LhsKey? ==> Read(m, s) == Read(m, st))
  {
    if n > 0 {
      var s1 := Bind(Tmp(c, i), vs[0], st);
      BindTmps(n - 1, c, i + 1, vs[1..], s1);
      var s := BindAll(TmpNames(n - 1, c, i + 1), vs[1..], s1);
      assert TmpNames(n, c, i)[1..] == TmpNames(n - 1, c, i + 1);
      assert BindAll(TmpNames(n, c, i), vs, st) == s;
      assert Read(Tmp(c, i), s) == Read(Tmp(c, i), s1) == vs[0];
      forall j | 0 < j < n ensures Read(Tmp(c, i + j), s) == vs[j] {
        assert vs[1..][j - 1] == vs[j] && i + j == i + 1 + (j - 1);
      }
    }
  }

  lemma SingleStores(w: World, t: Target, p: Place, c: nat, i: nat, st: State, ref: State, fuel: nat)
    requires PlainTarget(t) && HoldsOne(t, p, c, i, st) && st.user == ref.user
    ensures var o := Step(w, Assign([Held(t, c, i)], [Var(Tmp(c, i))]), st, fuel);
            SameEnd(Store(p, Read(Tmp(c, i), st), ref), o) && !o.Running? && o.st.temps == st.temps
  {
    var v := Read(Tmp(c, i), st);
    var h := [Held(t, c, i)];
    var e := [Var(Tmp(c, i))];
    assert h[1..] == [];
    assert EvalList(w, e, st) == Eval(w, e[0], st) == Ok([v], st);
    assert forall n :: EvalOne(w, Var(n), st) == Ok(Read(n, st), st);
    assert EvalPlace(w, h[0], st) == Ok(p, st);
    assert EvalPlaces(w, [], st) == Ok([], st);
    assert EvalPlaces(w, h, st) == Ok([p] + [], st);
    assert [p] + [] == [p] && Adjust([v], 1) == [v];
    assert StoreAll([p], [v], st) == Store(p, v, st) by {
      assert [p][1..] == [] && [v][1..] == [];
    }
  }

  lemma {:induction false} SinglesStoreAll(w: World, ts: seq<Target>, ps: seq<Place>, vs: seq<Value>, c: nat, i: nat,
                                           st: State, ref: State, fuel: nat)
    requires PlainTargets(ts) && Holds(ts, ps, c, i, st) && st.user == ref.user && |vs| == |ts|
    requires forall j :: 0 <= j < |vs| ==> Read(Tmp(c, i + j), st) == vs[j]
    ensures SameEnd(StoreAll(ps, vs, ref), Run(w, Singles(ts, c, i), st, fuel))
    decreases |ts|
  {
    if ts != [] {
      assert PlainTarget(ts[0]) && HoldsOne(ts[0], ps[0], c, i + 0, st) && Read(Tmp(c, i + 0), st) == vs[0];
      SingleStores(w, ts[0], ps[0], c, i, st, ref, fuel);
      var ss := Singles(ts, c, i);
      assert ss[0] == Assign([Held(ts[0], c, i)], [Var(Tmp(c, i))]) && ss[1..] == Singles(ts[1..], c, i + 1);
      var o := Step(w, ss[0], st, fuel);
      var r := Store(ps[0], vs[0], ref);
      if r.Done? {
        StillHolds(ts, ps, vs, c, i, st, o.st);
        SinglesStoreAll(w, ts[1..], ps[1..], vs[1..], c, i + 1, o.st, r.st, fuel);
      }
    }
  }

  lemma StillHolds(ts: seq<Target>, ps: seq<Place>, vs: seq<Value>, c: nat, i: nat, st: State, now: State)
    requires ts != [] && Holds(ts, ps, c, i, st) && |vs| == |ts| && now.temps == st.temps
    requires forall j :: 0 <= j < |vs| ==> Read(Tmp(c, i + j), st) == vs[j]
    ensures Holds(ts[1..], ps[1..], c, i + 1, now)
    ensures forall j :: 0 <= j < |vs[1..]| ==> Read(Tmp(c, i + 1 + j), now) == vs[1..][j]
  {
    forall j | 0 <= j < |ts| - 1
      ensures HoldsOne(ts[1..][j], ps[1..][j], c, i + 1 + j, now)
      ensures Read(Tmp(c, i + 1 + j), now) == vs[1..][j]
    {
      assert HoldsOne(ts[j + 1], ps[j + 1], c, i + (j + 1), st);
      assert Read(Tmp(c, i + (j + 1)), st) == vs[j + 1];
    }
  }

  /** The split statements do exactly what the reference rule does: same visible state, same order of effects,
      same error, for any aliasing between targets and any trailing multi-result. */
  lemma SplitIsAssign(w: World, ts: seq<Target>, es: seq<Exp>, c: nat, st: State, ref: State, fuel: nat)
    requires PlainTargets(ts) && AllPlain(es) && st.user == ref.user
    ensures SameEnd(RunAssign(w, ts, es, ref), Run(w, Split(ts, es, c), st, fuel))
  {
    var head := Captures(ts, c, 0);
    var middle := Local(TmpNames(|ts|, c, 0), es);
    var tail := Singles(ts, c, 0);
    assert Split(ts, es, c) == head + ([middle] + tail);
    RunConcat(w, head, [middle] + tail, st, fuel);
    CaptureAll(w, ts, c, 0, st, ref, fuel);
    PlacesInStep(w, ts, ref);
    var places := EvalPlaces(w, ts, ref);
    if places.Ok? {
      var s1 := Run(w, head, st, fuel).st;
      EvalListBlind(w, es, places.st, s1);
      assert ([middle] + tail)[0] == middle && ([middle] + tail)[1..] == tail;
      var vals := EvalList(w, es, places.st);
      if vals.Ok? {
        AfterValues(w, ts, places.v, Adjust(vals.v, |ts|), c, EvalList(w, es, s1).st, vals.st, fuel);
      }
    }
  }

  lemma AfterValues(w: World, ts: seq<Target>, ps: seq<Place>, vs: seq<Value>, c: nat, st: State, ref: State, fuel: nat)
    requires PlainTargets(ts) && Holds(ts, ps, c, 0, st) && st.user == ref.user && |vs| == |ts|
    ensures var s := BindAll(TmpNames(|ts|, c, 0), vs, st);
            SameEnd(StoreAll(ps, vs, ref), Run(w, Singles(ts, c, 0), s, fuel))
  {
    BindTmps(|ts|, c, 0, vs, st);
    var s := BindAll(TmpNames(|ts|, c, 0), vs, st);
    forall j | 0 <= j < |ts| ensures HoldsOne(ts[j], ps[j], c, 0 + j, s) {
      assert HoldsOne(ts[j], ps[j], c, 0 + j, st);
    }
    SinglesStoreAll(w, ts, ps, vs, c, 0, s, ref, fuel);
  }

  // ----- the two passes over a program -----

  /** What the first pass makes of one statement of a block; None is its error. Blocks inside the statement are
      handled in turn, after the block that contains them. */
  function SplitStmt(s: Stmt, c: nat): Option<seq<Stmt>>
  {
    match s
    case Assign(ts, es) =>
      if !CountsOk(ts, es) then None
      else if |ts| == 1 then Some([s])
      else Some(Split(ts, es, c))
    case _ => Some([s])
  }

  function NextCounter(s: Stmt, c: nat): nat
  {
    if s.Assign? && |s.vars| != 1 then c + 1 else c
  }

  function SplitStmts(ss: seq<Stmt>, c: nat): Option<seq<Stmt>>
  {
    if ss == [] then Some([])
    else match (SplitStmt(ss[0], c), SplitStmts(ss[1..], NextCounter(ss[0], c)))
      case (Some(a), Some(b)) => Some(a + b)
      case _ => None
  }

  function CounterAfter(ss: seq<Stmt>, c: nat): nat
  {
    if ss == [] then c else CounterAfter(ss[1..], NextCounter(ss[0], c))
  }

  /** PreprocessSplitAssign on a block whose statements are simple ones or blocks already handled. */
  method SplitBlock(ss: seq<Stmt>, counter: nat) returns (r: Option<seq<Stmt>>, next: nat)
    ensures r == SplitStmts(ss, counter)
    ensures r.Some? ==> next == CounterAfter(ss, counter)
  {
    var out, i := [], 0;
    next := counter;
    assert ss[0..] == ss;
    assert SplitStmts(ss, counter).Some? ==> [] + SplitStmts(ss, counter).value == SplitStmts(ss, counter).value;
    while i < |ss|
      invariant 0 <= i <= |ss|
      invariant CounterAfter(ss[i..], next) == CounterAfter(ss, counter)
      invariant SplitStmts(ss, counter) == Prepend(out, SplitStmts(ss[i..], next))
    {
      var s := ss[i];
      ghost var was, left := out, next;
      if s.Assign? {
        if !CountsOk(s.vars, s.exps) {
          assert SplitStmts(ss[i..], next) == None;
          return None, next;
        }
        if |s.vars| == 1 {
          out := out + [s];
        } else {
          var group := SplitGroup(s.vars, s.exps, next);
          out := out + group;
          next := next + 1;
        }
      } else {
        out := out + [s];
      }
      PrependStep(was, SplitStmt(s, left).value, SplitStmts(ss[i + 1..], next));
      assert ss[i..][1..] == ss[i + 1..];
      i := i + 1;
    }
    assert ss[|ss|..] == [] && out + [] == out;
    r := Some(out);
  }

  function Prepend(a: seq<Stmt>, b: Option<seq<Stmt>>): Option<seq<Stmt>>
  {
    if b.None? then None else Some(a + b.value)
  }

  lemma PrependStep(a: seq<Stmt>, b: seq<Stmt>, rest: Option<seq<Stmt>>)
    ensures Prepend(a, if rest.None? then None else Some(b + rest.value)) == Prepend(a + b, rest)
  {
    if rest.Some? { assert a + (b + rest.value) == (a + b) + rest.value; }
  }

  /** The statements that replace one assignment, built list by list. */
  method SplitGroup(vars: seq<Target>, exps: seq<Exp>, c: nat) returns (group: seq<Stmt>)
    ensures group == Split(vars, exps, c)
  {
    var names, i := [], 0;
    while i < |vars|
      invariant 0 <= i <= |vars|
      invariant names + TmpNames(|vars| - i, c, i) == TmpNames(|vars|, c, 0)
    {
      names := names + [Tmp(c, i)];
      i := i + 1;
    }
    var captures, targets := CaptureTargets(vars, c);
    var stores := StoreTargets(vars, targets, names, c);
    group := captures + [Local(names, exps)] + stores;
  }

  /** Evaluates table bases and keys into temporaries, and rewrites the targets to use them. */
  method CaptureTargets(vars: seq<Target>, c: nat) returns (captures: seq<Stmt>, targets: seq<Target>)
    ensures captures == Captures(vars, c, 0)
    ensures |targets| == |vars| && forall j :: 0 <= j < |vars| ==> targets[j] == Held(vars[j], c, j)
  {
    captures, targets := [], vars;
    var i := 0;
    while i < |vars|
      invariant 0 <= i <= |vars| && |targets| == |vars|
      invariant forall j :: 0 <= j < |vars| ==> targets[j] == if j < i then Held(vars[j], c, j) else vars[j]
      invariant captures + Captures(vars[i..], c, i) == Captures(vars, c, 0)
    {
      var now, target := CaptureTarget(targets[i], c, i);
      CapturesNext(vars, c, i, captures);
      captures := captures + now;
      targets := targets[i := target];
      i := i + 1;
    }
  }

  lemma CapturesNext(vars: seq<Target>, c: nat, i: nat, done: seq<Stmt>)
    requires i < |vars|
    ensures done + Captures(vars[i..], c, i) == done + Capture(vars[i], c, i) + Captures(vars[i + 1..], c, i + 1)
  {
    assert vars[i..][0] == vars[i] && vars[i..][1..] == vars[i + 1..];
  }

  method CaptureTarget(t: Target, c: nat, i: nat) returns (captures: seq<Stmt>, target: Target)
    ensures captures == Capture(t, c, i) && target == Held(t, c, i)
  {
    captures, target := [], t;
    if t.Square? || t.Dot? {
      captures := captures + [Local([LhsBase(c, i)], [t.base])];
      target := target.(base := Var(LhsBase(c, i)));
      if t.Square? {
        captures := captures + [Local([LhsKey(c, i)], [t.key])];
        target := target.(key := Var(LhsKey(c, i)));
      }
    }
  }

  method StoreTargets(ghost vars: seq<Target>, targets: seq<Target>, names: seq<Name>, c: nat) returns (stores: seq<Stmt>)
    requires |targets| == |vars| && forall j :: 0 <= j < |vars| ==> targets[j] == Held(vars[j], c, j)
    requires names == TmpNames(|vars|, c, 0)
    ensures stores == Singles(vars, c, 0)
  {
    stores := [];
    var i := 0;
    while i < |targets|
      invariant 0 <= i <= |targets|
      invariant stores + Singles(vars[i..], c, i) == Singles(vars, c, 0)
    {
      TmpNameAt(|vars|, c, 0, i);
      assert vars[i..][1..] == vars[i + 1..];
      stores := stores + [Assign([targets[i]], [Var(names[i])])];
      i := i + 1;
    }
  }

  lemma {:induction false} TmpNameAt(n: nat, c: nat, i: nat, j: nat)
    requires j < n
    ensures TmpNames(n, c, i)[j] == Tmp(c, i + j)
  {
    if j > 0 { TmpNameAt(n - 1, c, i + 1, j - 1); }
  }

  // ----- whole programs -----

  datatype Pass = Passed(out: seq<Stmt>, next: nat) | CountMismatch

  /** A block: its own assignments number their temporaries from `c`, the blocks inside it from `d`. */
  function Tree(ss: seq<Stmt>, c: nat, d: nat): Pass
    decreases ss, 1
  {
    if ss == [] then Passed([], d)
    else if ss[0].Assign? then
      match (SplitStmt(ss[0], c), Tree(ss[1..], NextCounter(ss[0], c), d))
      case (Some(a), Passed(b, e)) => Passed(a + b, e)
      case _ => CountMismatch
    else
      match Inner(ss[0], d)
      case CountMismatch => CountMismatch
      case Passed(a, e) => match Tree(ss[1..], c, e) case Passed(b, f) => Passed(a + b, f) case CountMismatch => CountMismatch
  }

  function Whole(ss: seq<Stmt>, c: nat): Pass
    decreases ss, 2
  {
    Tree(ss, c, CounterAfter(ss, c))
  }

  /** The blocks inside a statement, after the block it stands in. */
  function Inner(s: Stmt, d: nat): Pass
    decreases s, 0
  {
    match s
    case Block(b) => (match Whole(b, d) case Passed(x, e) => Passed([Block(x)], e) case CountMismatch => CountMismatch)
    case While(g, b) => (match Whole(b, d) case Passed(x, e) => Passed([While(g, x)], e) case CountMismatch => CountMismatch)
    case If(g, thn, els) =>
      (match Whole(thn, d)
       case CountMismatch => CountMismatch
       case Passed(x, e) => match Whole(els, e) case Passed(y, f) => Passed([If(g, x, y)], f) case CountMismatch => CountMismatch)
    case _ => Passed([s], d)
  }

  predicate PlainStmt(s: Stmt)
    decreases s, 0
  {
    match s
    case Assign(ts, es) => PlainTargets(ts) && AllPlain(es)
    case Local(ns, es) => (forall n <- ns :: n.User?) && AllPlain(es)
    case SetTable(b, k, e) => Plain(b) && Plain(k) && Plain(e)
    case Other(_) => true
    case Block(body) => PlainBlock(body)
    case If(g, thn, els) => Plain(g) && PlainBlock(thn) && PlainBlock(els)
    case While(g, body) => Plain(g) && PlainBlock(body)
  }

  predicate PlainBlock(ss: seq<Stmt>)
    decreases ss, 1
  {
    ss == [] || (PlainStmt(ss[0]) && PlainBlock(ss[1..]))
  }

  lemma {:induction false} BindUsers(ns: seq<Name>, vs: seq<Value>, st: State, ref: State)
    requires (forall n <- ns :: n.User?) && |vs| == |ns| && st.user == ref.user
    ensures BindAll(ns, vs, st).user == BindAll(ns, vs, ref).user
  {
    if ns != [] {
      assert ns[0].User?;
      BindUsers(ns[1..], vs[1..], Bind(ns[0], vs[0], st), Bind(ns[0], vs[0], ref));
    }
  }

  /** A statement the pass leaves alone cannot tell the two states apart. */
  lemma LeafIsBlind(w: World, s: Stmt, st: State, ref: State, fuel: nat)
    requires PlainStmt(s) && st.user == ref.user
    requires s.Assign? || s.Local? || s.SetTable? || s.Other?
    ensures SameEnd(Step(w, s, ref, fuel), Step(w, s, st, fuel))
  {
    match s
    case Assign(ts, es) => AssignIsBlind(w, ts, es, st, ref);
    case Local(ns, es) =>
      EvalListBlind(w, es, ref, st);
      var r, o := EvalList(w, es, ref), EvalList(w, es, st);
      if r.Ok? { BindUsers(ns, Adjust(r.v, |ns|), o.st, r.st); }
    case SetTable(b, k, e) =>
      EvalOneBlind(w, b, ref, st);
      var r1, o1 := EvalOne(w, b, ref), EvalOne(w, b, st);
      if r1.Ok? {
        EvalOneBlind(w, k, r1.st, o1.st);
        var r2, o2 := EvalOne(w, k, r1.st), EvalOne(w, k, o1.st);
        if r2.Ok? { EvalOneBlind(w, e, r2.st, o2.st); }
      }
    case Other(_) =>
  }

  lemma {:induction false} PlacesBlind(w: World, ts: seq<Target>, st: State, ref: State)
    requires PlainTargets(ts) && st.user == ref.user
    ensures Alike(EvalPlaces(w, ts, ref), EvalPlaces(w, ts, st), st.temps)
    ensures var r := EvalPlaces(w, ts, ref); r.Ok? ==> forall p <- r.v :: p.Cell? ==> p.n.User?
  {
    if ts != [] {
      assert PlainTarget(ts[0]);
      PlaceBlind(w, ts[0], st, ref);
      var r, o := EvalPlace(w, ts[0], ref), EvalPlace(w, ts[0], st);
      if r.Ok? { PlacesBlind(w, ts[1..], o.st, r.st); }
    }
  }

  lemma PlaceBlind(w: World, t: Target, st: State, ref: State)
    requires PlainTarget(t) && st.user == ref.user
    ensures Alike(EvalPlace(w, t, ref), EvalPlace(w, t, st), st.temps)
  {
    if t.Square? || t.Dot? {
      EvalOneBlind(w, t.base, ref, st);
      var r, o := EvalOne(w, t.base, ref), EvalOne(w, t.base, st);
      if t.Square? && r.Ok? { EvalOneBlind(w, t.key, r.st, o.st); }
    }
  }

  lemma {:induction false} StoresBlind(ps: seq<Place>, vs: seq<Value>, st: State, ref: State)
    requires |ps| == |vs| && (forall p <- ps :: p.Cell? ==> p.n.User?) && st.user == ref.user
    ensures SameEnd(StoreAll(ps, vs, ref), StoreAll(ps, vs, st))
  {
    if ps != [] {
      assert ps[0] in ps;
      var r, o := Store(ps[0], vs[0], ref), Store(ps[0], vs[0], st);
      if r.Done? { StoresBlind(ps[1..], vs[1..], o.st, r.st); }
    }
  }

  lemma AssignIsBlind(w: World, ts: seq<Target>, es: seq<Exp>, st: State, ref: State)
    requires PlainTargets(ts) && AllPlain(es) && st.user == ref.user
    ensures SameEnd(RunAssign(w, ts, es, ref), RunAssign(w, ts, es, st))
  {
    PlacesBlind(w, ts, st, ref);
    PlacesInStep(w, ts, ref);
    var r, o := EvalPlaces(w, ts, ref), EvalPlaces(w, ts, st);
    if r.Ok? {
      EvalListBlind(w, es, r.st, o.st);
      var x, y := EvalList(w, es, r.st), EvalList(w, es, o.st);
      if x.Ok? { StoresBlind(r.v, Adjust(x.v, |ts|), y.st, x.st); }
    }
  }

  lemma {:induction false} TreePreserves(w: World, ss: seq<Stmt>, c: nat, d: nat, st: State, ref: State, fuel: nat)
    requires PlainBlock(ss) && Tree(ss, c, d).Passed? && st.user == ref.user
    ensures SameEnd(Run(w, ss, ref, fuel), Run(w, Tree(ss, c, d).out, st, fuel))
    decreases fuel, ss, 1
  {
    if ss != [] {
      var s := ss[0];
      var head := if s.Assign? then SplitStmt(s, c).value else Inner(s, d).out;
      var c1 := if s.Assign? then NextCounter(s, c) else c;
      var d1 := if s.Assign? then d else Inner(s, d).next;
      var rest := Tree(ss[1..], c1, d1);
      assert Tree(ss, c, d).out == head + rest.out;
      RunConcat(w, head, rest.out, st, fuel);
      if s.Assign? {
        if |s.vars| == 1 { LeafIsBlind(w, s, st, ref, fuel); RunOne(w, s, st, fuel); }
        else { SplitIsAssign(w, s.vars, s.exps, c, st, ref, fuel); }
      } else {
        InnerPreserves(w, s, d, st, ref, fuel);
      }
      var r, o := Step(w, s, ref, fuel), Run(w, head, st, fuel);
      if r.Done? { TreePreserves(w, ss[1..], c1, d1, o.st, r.st, fuel); }
    }
  }

  lemma RunOne(w: World, s: Stmt, st: State, fuel: nat)
    ensures Run(w, [s], st, fuel) == Step(w, s, st, fuel)
  {
    assert [s][1..] == [];
    var r := Step(w, s, st, fuel);
    if r.Done? { assert Run(w, [], r.st, fuel) == Done(r.st); }
  }

  lemma {:induction false} InnerPreserves(w: World, s: Stmt, d: nat, st: State, ref: State, fuel: nat)
    requires PlainStmt(s) && !s.Assign? && Inner(s, d).Passed? && st.user == ref.user
    ensures SameEnd(Step(w, s, ref, fuel), Run(w, Inner(s, d).out, st, fuel))
    decreases fuel, s, 0
  {
    RunOne(w, Inner(s, d).out[0], st, fuel);
    match s {
      case Block(b) => TreePreserves(w, b, d, CounterAfter(b, d), st, ref, fuel);
      case If(g, thn, els) =>
        EvalOneBlind(w, g, ref, st);
        var r, o := EvalOne(w, g, ref), EvalOne(w, g, st);
        if r.Ok? {
          var e := Whole(thn, d).next;
          TreePreserves(w, thn, d, CounterAfter(thn, d), o.st, r.st, fuel);
          TreePreserves(w, els, e, CounterAfter(els, e), o.st, r.st, fuel);
        }
      case While(g, b) => WhilePreserves(w, g, b, d, st, ref, fuel);
      case _ => LeafIsBlind(w, s, st, ref, fuel);
    }
  }

  lemma {:induction false} WhilePreserves(w: World, g: Exp, b: seq<Stmt>, d: nat, st: State, ref: State, fuel: nat)
    requires Plain(g) && PlainBlock(b) && Whole(b, d).Passed? && st.user == ref.user
    ensures SameEnd(Step(w, While(g, b), ref, fuel), Step(w, While(g, Whole(b, d).out), st, fuel))
    decreases fuel, b, 2
  {
    if fuel > 0 {
      EvalOneBlind(w, g, ref, st);
      var r, o := EvalOne(w, g, ref), EvalOne(w, g, st);
      if r.Ok? && Truthy(r.v) {
        TreePreserves(w, b, d, CounterAfter(b, d), o.st, r.st, fuel);
        var x, y := Run(w, b, r.st, fuel), Run(w, Whole(b, d).out, o.st, fuel);
        if x.Done? { WhilePreserves(w, g, b, d, y.st, x.st, fuel - 1); }
      }
    }
  }
}
