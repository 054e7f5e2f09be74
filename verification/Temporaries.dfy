/** No two declarations of the rewriter's temporaries in a program have the same name. */
module Temporaries {
  import opened Options
  import opened Assignments
  import opened SplitAssign

  function OnlyTemps(ns: seq<Name>): seq<Name>
  {
    if ns == [] then [] else (if ns[0].User? then [] else [ns[0]]) + OnlyTemps(ns[1..])
  }

  /** The temporaries a statement declares, those in the blocks inside it included, in order. */
  function Temps(s: Stmt): seq<Name>
    decreases s, 0
  {
    match s
    case Local(ns, _) => OnlyTemps(ns)
    case Block(b) => AllTemps(b)
    case If(_, thn, els) => AllTemps(thn) + AllTemps(els)
    case While(_, b) => AllTemps(b)
    case _ => []
  }

  function AllTemps(ss: seq<Stmt>): seq<Name>
    decreases ss, 1
  {
    if ss == [] then [] else Temps(ss[0]) + AllTemps(ss[1..])
  }

  lemma {:induction false} AllTempsConcat(a: seq<Stmt>, b: seq<Stmt>)
    ensures AllTemps(a + b) == AllTemps(a) + AllTemps(b)
  {
    if a == [] {
      assert a + b == b;
    } else {
      assert (a + b)[0] == a[0] && (a + b)[1..] == a[1..] + b;
      AllTempsConcat(a[1..], b);
    }
  }

  lemma TempsOfOne(s: Stmt)
    ensures AllTemps([s]) == Temps(s)
  {
    assert [s][1..] == [] && AllTemps([]) == [];
  }

  predicate Distinct(xs: seq<Name>) { forall i, j :: 0 <= i < j < |xs| ==> xs[i] != xs[j] }

  lemma DistinctConcat(a: seq<Name>, b: seq<Name>)
    requires Distinct(a) && Distinct(b) && forall x :: x in a ==> x !in b
    ensures Distinct(a + b)
  {
    var c := a + b;
    forall i, j | 0 <= i < j < |c| ensures c[i] != c[j] {
      if i < |a| <= j { assert a[i] in a && b[j - |a|] in b; }
    }
  }

  predicate CountedIn(xs: seq<Name>, lo: nat, hi: nat) { forall x <- xs :: !x.User? && lo <= x.c < hi }

  // ----- one group -----

  predicate FromIndex(xs: seq<Name>, c: nat, i: nat) { forall x <- xs :: !x.User? && x.c == c && i <= x.i }

  lemma {:induction false} TmpNamesDistinct(n: nat, c: nat, i: nat)
    ensures var ns := TmpNames(n, c, i);
            && OnlyTemps(ns) == ns && Distinct(ns) && FromIndex(ns, c, i) && (forall x <- ns :: x.Tmp?)
  {
    if n > 0 {
      TmpNamesDistinct(n - 1, c, i + 1);
      var rest := TmpNames(n - 1, c, i + 1);
      assert TmpNames(n, c, i)[1..] == rest;
      assert Distinct([Tmp(c, i)]);
      DistinctConcat([Tmp(c, i)], rest);
    }
  }

  lemma CaptureTemps(t: Target, c: nat, i: nat)
    ensures AllTemps(Capture(t, c, i)) == if t.Simple? then [] else if t.Dot? then [LhsBase(c, i)] else [LhsBase(c, i), LhsKey(c, i)]
  {
    if t.Dot? {
      TempsOfOne(Local([LhsBase(c, i)], [t.base]));
      OneTemp(LhsBase(c, i));
    } else if t.Square? {
      var x, y := Local([LhsBase(c, i)], [t.base]), Local([LhsKey(c, i)], [t.key]);
      assert Capture(t, c, i) == [x] + [y];
      AllTempsConcat([x], [y]);
      TempsOfOne(x);
      TempsOfOne(y);
      OneTemp(LhsBase(c, i));
      OneTemp(LhsKey(c, i));
    }
  }

  lemma OneTemp(n: Name)
    requires !n.User?
    ensures OnlyTemps([n]) == [n]
  {
    assert [n][1..] == [] && OnlyTemps([]) == [];
  }

  lemma {:induction false} CapturesDistinct(ts: seq<Target>, c: nat, i: nat)
    ensures var ns := AllTemps(Captures(ts, c, i));
            Distinct(ns) && FromIndex(ns, c, i) && forall x <- ns :: !x.Tmp?
  {
    if ts != [] {
      CaptureTemps(ts[0], c, i);
      CapturesDistinct(ts[1..], c, i + 1);
      AllTempsConcat(Capture(ts[0], c, i), Captures(ts[1..], c, i + 1));
      DistinctConcat(AllTemps(Capture(ts[0], c, i)), AllTemps(Captures(ts[1..], c, i + 1)));
    }
  }

  lemma {:induction false} SinglesDeclareNothing(ts: seq<Target>, c: nat, i: nat)
    ensures AllTemps(Singles(ts, c, i)) == []
  {
    if ts != [] {
      SinglesDeclareNothing(ts[1..], c, i + 1);
      assert Singles(ts, c, i)[1..] == Singles(ts[1..], c, i + 1);
    }
  }

  lemma GroupDistinct(ts: seq<Target>, es: seq<Exp>, c: nat)
    ensures var ns := AllTemps(Split(ts, es, c)); Distinct(ns) && CountedIn(ns, c, c + 1)
  {
    var captures, middle, singles := Captures(ts, c, 0), [Local(TmpNames(|ts|, c, 0), es)], Singles(ts, c, 0);
    CapturesDistinct(ts, c, 0);
    TmpNamesDistinct(|ts|, c, 0);
    SinglesDeclareNothing(ts, c, 0);
    TempsOfOne(middle[0]);
    AllTempsConcat(captures + middle, singles);
    AllTempsConcat(captures, middle);
    DistinctConcat(AllTemps(captures), AllTemps(middle));
  }

  // ----- a program -----

  lemma {:induction false} CounterGrows(ss: seq<Stmt>, c: nat)
    ensures c <= CounterAfter(ss, c)
  {
    if ss != [] { CounterGrows(ss[1..], NextCounter(ss[0], c)); }
  }

  lemma {:induction false} UsersAreNoTemps(ns: seq<Name>)
    requires forall n <- ns :: n.User?
    ensures OnlyTemps(ns) == []
  {
    if ns != [] { assert ns[0] in ns; UsersAreNoTemps(ns[1..]); }
  }

  /** A block's own groups count from `c` on, those of the blocks inside it from `d` on. */
  predicate CountedInTwo(xs: seq<Name>, c: nat, d: nat, e: nat, f: nat)
  {
    forall x <- xs :: !x.User? && (c <= x.c < d || e <= x.c < f)
  }

  /** All groups of a program, in one block or in different ones, declare different temporaries. */
  lemma {:induction false} TemporariesAreDistinct(ss: seq<Stmt>, c: nat, d: nat)
    requires PlainBlock(ss) && Tree(ss, c, d).Passed? && CounterAfter(ss, c) <= d
    ensures var p := Tree(ss, c, d);
            && Distinct(AllTemps(p.out)) && d <= p.next
            && CountedInTwo(AllTemps(p.out), c, CounterAfter(ss, c), d, p.next)
    decreases ss, 1
  {
    if ss != [] {
      var s := ss[0];
      CounterGrows(ss, c);
      if s.Assign? {
        var head, c1 := SplitStmt(s, c).value, NextCounter(s, c);
        CounterGrows(ss[1..], c1);
        TemporariesAreDistinct(ss[1..], c1, d);
        if |s.vars| == 1 { TempsOfOne(s); } else { GroupDistinct(s.vars, s.exps, c); }
        var rest := Tree(ss[1..], c1, d).out;
        AllTempsConcat(head, rest);
        DistinctConcat(AllTemps(head), AllTemps(rest));
      } else {
        var p := Inner(s, d);
        InnerDistinct(s, d);
        TemporariesAreDistinct(ss[1..], c, p.next);
        var rest := Tree(ss[1..], c, p.next).out;
        AllTempsConcat(p.out, rest);
        DistinctConcat(AllTemps(p.out), AllTemps(rest));
      }
    }
  }

  lemma {:induction false} BlockDistinct(b: seq<Stmt>, d: nat)
    requires PlainBlock(b) && Whole(b, d).Passed?
    ensures var p := Whole(b, d); Distinct(AllTemps(p.out)) && d <= p.next && CountedIn(AllTemps(p.out), d, p.next)
    decreases b, 2
  {
    CounterGrows(b, d);
    TemporariesAreDistinct(b, d, CounterAfter(b, d));
  }

  lemma {:induction false} InnerDistinct(s: Stmt, d: nat)
    requires PlainStmt(s) && !s.Assign? && Inner(s, d).Passed?
    ensures var p := Inner(s, d); Distinct(AllTemps(p.out)) && d <= p.next && CountedIn(AllTemps(p.out), d, p.next)
    decreases s, 0
  {
    TempsOfOne(Inner(s, d).out[0]);
    match s
    case Block(b) => BlockDistinct(b, d);
    case While(_, b) => BlockDistinct(b, d);
    case If(_, thn, els) =>
      var e := Whole(thn, d).next;
      BlockDistinct(thn, d);
      BlockDistinct(els, e);
      DistinctConcat(AllTemps(Whole(thn, d).out), AllTemps(Whole(els, e).out));
    case Local(ns, _) => UsersAreNoTemps(ns);
    case _ =>
  }
}
