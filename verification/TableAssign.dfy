/** The second assignment pass: stores into tables become calls; what both passes together leave behind. */
module TableAssign {
  import opened Options
  import opened Assignments
  import opened SplitAssign
  import opened MultiResults

  /** PreprocessTableAssign on one statement. */
  function Rewrite(s: Stmt): Stmt
    decreases s, 0
  {
    match s
    case Assign(ts, es) =>
      if |ts| != 1 || |es| != 1 then s
      else (match ts[0]
            case Simple(_) => s
            case Square(b, k) => SetTable(b, k, es[0])
            case Dot(b, x) => SetTable(b, Const(Str(x)), es[0]))
    case Block(b) => Block(RewriteAll(b))
    case If(g, thn, els) => If(g, RewriteAll(thn), RewriteAll(els))
    case While(g, b) => While(g, RewriteAll(b))
    case _ => s
  }

  function RewriteAll(ss: seq<Stmt>): (r: seq<Stmt>)
    decreases ss, 1
  {
    if ss == [] then [] else [Rewrite(ss[0])] + RewriteAll(ss[1..])
  }

  /** Every assignment has one target and one expression. */
  predicate Single(s: Stmt)
    decreases s, 0
  {
    match s
    case Assign(ts, es) => |ts| == 1 && |es| == 1
    case Block(b) => AllSingle(b)
    case If(_, thn, els) => AllSingle(thn) && AllSingle(els)
    case While(_, b) => AllSingle(b)
    case _ => true
  }

  predicate AllSingle(ss: seq<Stmt>)
    decreases ss, 1
  {
    ss == [] || (Single(ss[0]) && AllSingle(ss[1..]))
  }

  /** Every assignment left is to one simple variable, from one expression. */
  predicate Bare(s: Stmt)
    decreases s, 0
  {
    match s
    case Assign(ts, es) => |ts| == 1 && ts[0].Simple? && |es| == 1
    case Block(b) => AllBare(b)
    case If(_, thn, els) => AllBare(thn) && AllBare(els)
    case While(_, b) => AllBare(b)
    case _ => true
  }

  predicate AllBare(ss: seq<Stmt>)
    decreases ss, 1
  {
    ss == [] || (Bare(ss[0]) && AllBare(ss[1..]))
  }

  /** What the first pass rejects, anywhere in the program: more expressions than targets, or fewer without a last one
      that can give other than one value. */
  predicate Mismatched(s: Stmt)
    decreases s, 0
  {
    match s
    case Assign(ts, es) => |es| > |ts| || (|es| < |ts| && (es == [] || !Open(es[|es| - 1])))
    case Block(b) => AnyMismatched(b)
    case If(_, thn, els) => AnyMismatched(thn) || AnyMismatched(els)
    case While(_, b) => AnyMismatched(b)
    case _ => false
  }

  predicate AnyMismatched(ss: seq<Stmt>)
    decreases ss, 1
  {
    ss != [] && (Mismatched(ss[0]) || AnyMismatched(ss[1..]))
  }

  /** The first pass fails exactly on an assignment whose counts differ without a trailing call or `...` to
      make up for missing values. */
  lemma {:induction false} SplitFailsIff(ss: seq<Stmt>, c: nat, d: nat)
    ensures Tree(ss, c, d).CountMismatch? <==> AnyMismatched(ss)
    decreases ss, 1
  {
    if ss != [] {
      if ss[0].Assign? {
        SplitFailsIff(ss[1..], NextCounter(ss[0], c), d);
      } else {
        InnerFailsIff(ss[0], d);
        if Inner(ss[0], d).Passed? { SplitFailsIff(ss[1..], c, Inner(ss[0], d).next); }
      }
    }
  }

  /** `a, b = f()` is taken. */
  lemma CallFillsTargets(a: Target, b: Target, f: Exp, c: nat, d: nat)
    ensures var s := Assign([a, b], [Call(f, [])]);
            SplitStmt(s, c) == Some(Split([a, b], [Call(f, [])], c)) && Tree([s], c, d).Passed?
  {
    var s := Assign([a, b], [Call(f, [])]);
    assert [s][1..] == [] && !AnyMismatched([]) && !Mismatched(s);
    assert !AnyMismatched([s]);
    SplitFailsIff([s], c, d);
  }

  lemma {:induction false} InnerFailsIff(s: Stmt, d: nat)
    requires !s.Assign?
    ensures Inner(s, d).CountMismatch? <==> Mismatched(s)
    decreases s, 0
  {
    match s
    case Block(b) => SplitFailsIff(b, d, CounterAfter(b, d));
    case While(_, b) => SplitFailsIff(b, d, CounterAfter(b, d));
    case If(_, thn, els) =>
      SplitFailsIff(thn, d, CounterAfter(thn, d));
      if Whole(thn, d).Passed? {
        var e := Whole(thn, d).next;
        SplitFailsIff(els, e, CounterAfter(els, e));
      }
    case _ =>
  }

  lemma {:induction false} SingleConcat(a: seq<Stmt>, b: seq<Stmt>)
    ensures AllSingle(a + b) <==> AllSingle(a) && AllSingle(b)
  {
    if a == [] {
      assert a + b == b;
    } else {
      assert (a + b)[0] == a[0] && (a + b)[1..] == a[1..] + b;
      SingleConcat(a[1..], b);
    }
  }

  lemma {:induction false} GroupSingle(ts: seq<Target>, c: nat, i: nat)
    ensures AllSingle(Captures(ts, c, i)) && AllSingle(Singles(ts, c, i))
  {
    if ts != [] {
      GroupSingle(ts[1..], c, i + 1);
      CaptureSingle(ts[0], c, i);
      SingleConcat(Capture(ts[0], c, i), Captures(ts[1..], c, i + 1));
      assert Singles(ts, c, i)[1..] == Singles(ts[1..], c, i + 1);
    }
  }

  lemma CaptureSingle(t: Target, c: nat, i: nat)
    ensures AllSingle(Capture(t, c, i))
  {
    match t
    case Simple(_) =>
    case Square(b, k) =>
      var first, second := Local([LhsBase(c, i)], [b]), Local([LhsKey(c, i)], [k]);
      LocalSingle(first);
      LocalSingle(second);
      SingleConcat([first], [second]);
      assert Capture(t, c, i) == [first] + [second];
    case Dot(b, _) => LocalSingle(Local([LhsBase(c, i)], [b]));
  }

  lemma LocalSingle(s: Stmt)
    requires s.Local?
    ensures AllSingle([s])
  {
    assert Single(s);
    assert [s][0] == s && [s][1..] == [];
    assert AllSingle([]);
  }

  lemma SplitSingle(s: Stmt, c: nat)
    requires s.Assign? && SplitStmt(s, c).Some?
    ensures AllSingle(SplitStmt(s, c).value)
  {
    var ts, es := s.vars, s.exps;
    if |ts| == 1 {
      assert [s][1..] == [] && Single(s);
    } else {
      var middle := [Local(TmpNames(|ts|, c, 0), es)];
      GroupSingle(ts, c, 0);
      assert middle[1..] == [];
      SingleConcat(Captures(ts, c, 0), middle);
      SingleConcat(Captures(ts, c, 0) + middle, Singles(ts, c, 0));
    }
  }

  lemma {:induction false} TreeSingle(ss: seq<Stmt>, c: nat, d: nat)
    requires Tree(ss, c, d).Passed?
    ensures AllSingle(Tree(ss, c, d).out)
    decreases ss, 1
  {
    if ss != [] {
      if ss[0].Assign? {
        SplitSingle(ss[0], c);
        TreeSingle(ss[1..], NextCounter(ss[0], c), d);
        SingleConcat(SplitStmt(ss[0], c).value, Tree(ss[1..], NextCounter(ss[0], c), d).out);
      } else {
        InnerSingle(ss[0], d);
        var e := Inner(ss[0], d).next;
        TreeSingle(ss[1..], c, e);
        SingleConcat(Inner(ss[0], d).out, Tree(ss[1..], c, e).out);
      }
    }
  }

  lemma {:induction false} InnerSingle(s: Stmt, d: nat)
    requires !s.Assign? && Inner(s, d).Passed?
    ensures AllSingle(Inner(s, d).out)
    decreases s, 0
  {
    var out := Inner(s, d).out;
    assert |out| == 1 && AllSingle(out[1..]);
    match s
    case Block(b) => TreeSingle(b, d, CounterAfter(b, d));
    case While(_, b) => TreeSingle(b, d, CounterAfter(b, d));
    case If(_, thn, els) =>
      TreeSingle(thn, d, CounterAfter(thn, d));
      var e := Whole(thn, d).next;
      TreeSingle(els, e, CounterAfter(els, e));
    case _ =>
  }

  lemma {:induction false} RewriteBares(ss: seq<Stmt>)
    requires AllSingle(ss)
    ensures AllBare(RewriteAll(ss)) && |RewriteAll(ss)| == |ss|
    decreases ss, 1
  {
    if ss != [] {
      RewriteBare(ss[0]);
      RewriteBares(ss[1..]);
      assert RewriteAll(ss)[1..] == RewriteAll(ss[1..]);
    }
  }

  lemma {:induction false} RewriteBare(s: Stmt)
    requires Single(s)
    ensures Bare(Rewrite(s))
    decreases s, 0
  {
    match s
    case Block(b) => RewriteBares(b);
    case If(_, thn, els) => RewriteBares(thn); RewriteBares(els);
    case While(_, b) => RewriteBares(b);
    case _ =>
  }

  /** A store into a table and the call it becomes evaluate base, key and value in the same order. */
  lemma SetTableIsAssign(w: World, t: Target, e: Exp, st: State)
    requires !t.Simple?
    ensures RunAssign(w, [t], [e], st) == Step(w, Rewrite(Assign([t], [e])), st, 0)
  {
    assert [t][1..] == [];
    var p := EvalPlace(w, t, st);
    if p.Ok? {
      assert EvalPlaces(w, [], p.st) == Ok([], p.st);
      assert [p.v] + [] == [p.v];
      assert EvalPlaces(w, [t], st) == Ok([p.v], p.st);
      assert EvalList(w, [e], p.st) == Eval(w, e, p.st);
      var r := Eval(w, e, p.st);
      if r.Ok? {
        assert Adjust(r.v, 1) == [First(r.v)];
        assert StoreAll([p.v], [First(r.v)], r.st) == Store(p.v, First(r.v), r.st) by {
          assert [p.v][1..] == [] && [First(r.v)][1..] == [];
        }
      }
    }
    if t.Dot? { assert forall s :: EvalOne(w, Const(Str(t.field)), s) == Ok(Str(t.field), s); }
  }

  lemma SetTableNoFuel(w: World, s: Stmt, st: State, fuel: nat)
    requires s.SetTable?
    ensures Step(w, s, st, fuel) == Step(w, s, st, 0)
  {
  }

  lemma {:induction false} RewriteRuns(w: World, ss: seq<Stmt>, st: State, fuel: nat)
    requires AllSingle(ss)
    ensures Run(w, RewriteAll(ss), st, fuel) == Run(w, ss, st, fuel)
    decreases fuel, ss, 1
  {
    if ss != [] {
      RewriteSteps(w, ss[0], st, fuel);
      assert RewriteAll(ss)[1..] == RewriteAll(ss[1..]);
      var r := Step(w, ss[0], st, fuel);
      if r.Done? { RewriteRuns(w, ss[1..], r.st, fuel); }
    }
  }

  lemma {:induction false} RewriteSteps(w: World, s: Stmt, st: State, fuel: nat)
    requires Single(s)
    ensures Step(w, Rewrite(s), st, fuel) == Step(w, s, st, fuel)
    decreases fuel, s, 0
  {
    match s
    case Assign(ts, es) =>
      if !ts[0].Simple? {
        assert ts == [ts[0]] && es == [es[0]];
        SetTableIsAssign(w, ts[0], es[0], st);
        SetTableNoFuel(w, Rewrite(s), st, fuel);
      }
    case Block(b) => RewriteRuns(w, b, st, fuel);
    case If(g, thn, els) =>
      var r := EvalOne(w, g, st);
      if r.Ok? { RewriteRuns(w, thn, r.st, fuel); RewriteRuns(w, els, r.st, fuel); }
    case While(g, b) =>
      if fuel > 0 {
        var r := EvalOne(w, g, st);
        if r.Ok? {
          RewriteRuns(w, b, r.st, fuel);
          var x := Run(w, b, r.st, fuel);
          if x.Done? { RewriteSteps(w, s, x.st, fuel - 1); }
        }
      }
    case _ =>
  }

  /** Both passes over a program: the program runs as before, as far as it can tell, and every assignment left
      is one simple variable from one expression. */
  lemma PassesPreserveMeaning(w: World, ss: seq<Stmt>, c: nat, st: State, fuel: nat)
    requires PlainBlock(ss) && !AnyMismatched(ss)
    ensures Whole(ss, c).Passed?
    ensures var out := RewriteAll(Whole(ss, c).out);
            AllBare(out) && SameEnd(Run(w, ss, st, fuel), Run(w, out, st, fuel))
  {
    SplitFailsIff(ss, c, CounterAfter(ss, c));
    TreePreserves(w, ss, c, CounterAfter(ss, c), st, st, fuel);
    TreeSingle(ss, c, CounterAfter(ss, c));
    RewriteBares(Whole(ss, c).out);
    RewriteRuns(w, Whole(ss, c).out, st, fuel);
  }

  /** PreprocessTableAssign on the statements of a block without blocks inside. */
  method RewriteBlock(ss: seq<Stmt>) returns (out: seq<Stmt>)
    requires AllSingle(ss) && forall s <- ss :: s.Assign? || s.Local? || s.SetTable? || s.Other?
    ensures out == RewriteAll(ss)
  {
    out := [];
    var i := 0;
    while i < |ss|
      invariant 0 <= i <= |ss| && AllSingle(ss[i..])
      invariant out + RewriteAll(ss[i..]) == RewriteAll(ss)
    {
      assert ss[i] in ss && ss[i..][0] == ss[i] && ss[i..][1..] == ss[i + 1..];
      var s := RewriteOne(ss[i]);
      out := out + [s];
      i := i + 1;
    }
  }

  method RewriteOne(s: Stmt) returns (r: Stmt)
    requires Single(s) && (s.Assign? || s.Local? || s.SetTable? || s.Other?)
    ensures r == Rewrite(s)
  {
    r := s;
    if s.Assign? {
      var target, exp := s.vars[0], s.exps[0];
      if target.Square? {
        r := SetTable(target.base, target.key, exp);
      } else if target.Dot? {
        r := SetTable(target.base, Const(Str(target.field)), exp);
      }
    }
  }
}
