/** `...` becomes an ordinary parameter: the rewriting pass, and what each `...` is bound to. */
module Varargs {
  import opened Options

  datatype Name = Plain(x: string) | Implicit(n: nat)

  /** A syntax tree as far as the pass looks at it: functions, `...`, names, and everything else. */
  datatype Tree =
    | Dots
    | Ref(x: Name)
    | Node(kids: Trees)
    | Fun(params: seq<Name>, vararg: bool, body: Tree)

  datatype Trees = NoTrees | Trees(head: Tree, tail: Trees)

  /** The inner walk: every `...` up to, and not into, nested vararg functions. */
  function Replace(t: Tree, x: Name): Tree
  {
    match t
    case Dots => Ref(x)
    case Ref(_) => t
    case Node(kids) => Node(ReplaceAll(kids, x))
    case Fun(ps, va, b) => if va then t else Fun(ps, va, Replace(b, x))
  }

  function ReplaceAll(ts: Trees, x: Name): Trees
  {
    match ts case NoTrees => NoTrees case Trees(h, r) => Trees(Replace(h, x), ReplaceAll(r, x))
  }

  function Size(t: Tree): (n: nat)
    ensures n > 0
  {
    match t case Node(kids) => 1 + SizeAll(kids) case Fun(_, _, b) => 1 + Size(b) case _ => 1
  }

  function SizeAll(ts: Trees): nat { match ts case NoTrees => 0 case Trees(h, r) => Size(h) + SizeAll(r) }

  lemma {:induction false} ReplaceSize(t: Tree, x: Name)
    ensures Size(Replace(t, x)) == Size(t)
  {
    match t
    case Node(kids) => ReplaceSizeAll(kids, x);
    case Fun(_, va, b) => if !va { ReplaceSize(b, x); }
    case _ =>
  }

  lemma {:induction false} ReplaceSizeAll(ts: Trees, x: Name)
    ensures SizeAll(ReplaceAll(ts, x)) == SizeAll(ts)
  {
    if ts.Trees? { ReplaceSize(ts.head, x); ReplaceSizeAll(ts.tail, x); }
  }

  // ----- the pass: parents before children -----

  function Pass(t: Tree, c: nat): (Tree, nat)
    decreases Size(t), 0
  {
    match t
    case Node(kids) => var (ks, d) := PassAll(kids, c); (Node(ks), d)
    case Fun(ps, va, b) =>
      if va then
        ReplaceSize(b, Implicit(c));
        var (b1, d) := Pass(Replace(b, Implicit(c)), c + 1);
        (Fun(ps + [Implicit(c)], false, b1), d)
      else
        var (b1, d) := Pass(b, c);
        (Fun(ps, false, b1), d)
    case _ => (t, c)
  }

  function PassAll(ts: Trees, c: nat): (Trees, nat)
    decreases SizeAll(ts), 1
  {
    match ts
    case NoTrees => (NoTrees, c)
    case Trees(h, r) => var (h1, d) := Pass(h, c); var (r1, e) := PassAll(r, d); (Trees(h1, r1), e)
  }

  // ----- the same walk, children before parents -----

  function PassUp(t: Tree, c: nat): (Tree, nat)
  {
    match t
    case Node(kids) => var (ks, d) := PassUpAll(kids, c); (Node(ks), d)
    case Fun(ps, va, b) =>
      var (b1, d) := PassUp(b, c);
      if va then (Fun(ps + [Implicit(d)], false, Replace(b1, Implicit(d))), d + 1) else (Fun(ps, false, b1), d)
    case _ => (t, c)
  }

  function PassUpAll(ts: Trees, c: nat): (Trees, nat)
  {
    match ts
    case NoTrees => (NoTrees, c)
    case Trees(h, r) => var (h1, d) := PassUp(h, c); var (r1, e) := PassUpAll(r, d); (Trees(h1, r1), e)
  }

  // ----- what either must produce -----

  /** `out` is `t` with every `...` naming the implicit parameter of its innermost vararg function; `env` is
      that parameter where `t` stands. */
  predicate Binds(t: Tree, out: Tree, env: Option<Name>)
  {
    match (t, out)
    case (Dots, Ref(x)) => env == Some(x)
    case (Dots, Dots) => env == None
    case (Ref(x), Ref(y)) => x == y
    case (Node(ks), Node(os)) => BindsAll(ks, os, env)
    case (Fun(ps, va, b), Fun(qs, vb, o)) =>
      && !vb
      && if va then |qs| == |ps| + 1 && qs[..|ps|] == ps && qs[|ps|].Implicit? && Binds(b, o, Some(qs[|ps|]))
         else qs == ps && Binds(b, o, env)
    case _ => false
  }

  predicate BindsAll(ts: Trees, os: Trees, env: Option<Name>)
  {
    match (ts, os)
    case (NoTrees, NoTrees) => true
    case (Trees(h, r), Trees(g, q)) => Binds(h, g, env) && BindsAll(r, q, env)
    case _ => false
  }

  predicate HasDots(t: Tree)
  {
    match t case Dots => true case Ref(_) => false case Node(kids) => AnyDots(kids) case Fun(_, _, b) => HasDots(b)
  }

  predicate AnyDots(ts: Trees) { ts.Trees? && (HasDots(ts.head) || AnyDots(ts.tail)) }

  /** Replacing first and binding what is left is binding. */
  lemma {:induction false} BindsReplaced(t: Tree, out: Tree, x: Name)
    requires Binds(Replace(t, x), out, None)
    ensures Binds(t, out, Some(x))
    decreases t
  {
    match t
    case Node(kids) => BindsReplacedAll(kids, out.kids, x);
    case Fun(_, va, b) => if !va { BindsReplaced(b, out.body, x); }
    case _ =>
  }

  lemma {:induction false} BindsReplacedAll(ts: Trees, os: Trees, x: Name)
    requires BindsAll(ReplaceAll(ts, x), os, None)
    ensures BindsAll(ts, os, Some(x))
    decreases ts
  {
    if ts.Trees? { BindsReplaced(ts.head, os.head, x); BindsReplacedAll(ts.tail, os.tail, x); }
  }

  /** The pass binds every `...` to the implicit parameter of its innermost vararg function. */
  lemma {:induction false} PassBinds(t: Tree, c: nat)
    ensures Binds(t, Pass(t, c).0, None)
    decreases Size(t), 0
  {
    match t
    case Node(kids) => PassBindsAll(kids, c);
    case Fun(_, va, b) =>
      if va {
        var x := Implicit(c);
        ReplaceSize(b, x);
        PassBinds(Replace(b, x), c + 1);
        BindsReplaced(b, Pass(Replace(b, x), c + 1).0, x);
      } else {
        PassBinds(b, c);
      }
    case _ =>
  }

  lemma {:induction false} PassBindsAll(ts: Trees, c: nat)
    ensures BindsAll(ts, PassAll(ts, c).0, None)
    decreases SizeAll(ts), 1
  {
    if ts.Trees? { PassBinds(ts.head, c); PassBindsAll(ts.tail, Pass(ts.head, c).1); }
  }

  /** Where every `...` is bound none is left, and a later replacement finds nothing. */
  lemma {:induction false} BoundIsDone(t: Tree, out: Tree, y: Name, x: Name)
    requires Binds(t, out, Some(y))
    ensures !HasDots(out) && Replace(out, x) == out
    decreases t
  {
    match t
    case Node(kids) => BoundIsDoneAll(kids, out.kids, y, x);
    case Fun(ps, va, b) => BoundIsDone(b, out.body, if va then out.params[|ps|] else y, x);
    case _ =>
  }

  lemma {:induction false} BoundIsDoneAll(ts: Trees, os: Trees, y: Name, x: Name)
    requires BindsAll(ts, os, Some(y))
    ensures !AnyDots(os) && ReplaceAll(os, x) == os
    decreases ts
  {
    if ts.Trees? { BoundIsDone(ts.head, os.head, y, x); BoundIsDoneAll(ts.tail, os.tail, y, x); }
  }

  /** Inside a vararg function no `...` survives the pass. */
  lemma VarargBodiesHaveNone(ps: seq<Name>, b: Tree, c: nat)
    ensures var out := Pass(Fun(ps, true, b), c).0; out.Fun? && !out.vararg && !HasDots(out.body)
  {
    PassBinds(Fun(ps, true, b), c);
    var out := Pass(Fun(ps, true, b), c).0;
    BoundIsDone(b, out.body, out.params[|ps|], Implicit(c));
  }

  lemma {:induction false} BindsThenReplaced(t: Tree, out: Tree, x: Name)
    requires Binds(t, out, None)
    ensures Binds(t, Replace(out, x), Some(x))
    decreases t
  {
    match t
    case Node(kids) => BindsThenReplacedAll(kids, out.kids, x);
    case Fun(ps, va, b) => if va { BoundIsDone(b, out.body, out.params[|ps|], x); } else { BindsThenReplaced(b, out.body, x); }
    case _ =>
  }

  lemma {:induction false} BindsThenReplacedAll(ts: Trees, os: Trees, x: Name)
    requires BindsAll(ts, os, None)
    ensures BindsAll(ts, ReplaceAll(os, x), Some(x))
    decreases ts
  {
    if ts.Trees? { BindsThenReplaced(ts.head, os.head, x); BindsThenReplacedAll(ts.tail, os.tail, x); }
  }

  /** Visiting children first binds the same way. */
  lemma {:induction false} PassUpBinds(t: Tree, c: nat)
    ensures Binds(t, PassUp(t, c).0, None)
    decreases t
  {
    match t
    case Node(kids) => PassUpBindsAll(kids, c);
    case Fun(_, va, b) =>
      PassUpBinds(b, c);
      if va { BindsThenReplaced(b, PassUp(b, c).0, Implicit(PassUp(b, c).1)); }
    case _ =>
  }

  lemma {:induction false} PassUpBindsAll(ts: Trees, c: nat)
    ensures BindsAll(ts, PassUpAll(ts, c).0, None)
    decreases ts
  {
    if ts.Trees? { PassUpBinds(ts.head, c); PassUpBindsAll(ts.tail, PassUp(ts.head, c).1); }
  }

  // ----- the names are fresh, so no inner function captures a reference -----

  /** The numbers of the implicit parameters in a tree. */
  function Introduced(t: Tree): seq<nat>
  {
    match t
    case Node(kids) => IntroducedAll(kids)
    case Fun(ps, _, b) => (if ps != [] && ps[|ps| - 1].Implicit? then [ps[|ps| - 1].n] else []) + Introduced(b)
    case _ => []
  }

  function IntroducedAll(ts: Trees): seq<nat>
  {
    match ts case NoTrees => [] case Trees(h, r) => Introduced(h) + IntroducedAll(r)
  }

  predicate PlainParams(t: Tree)
  {
    match t
    case Node(kids) => AllPlainParams(kids)
    case Fun(ps, _, b) => (forall p <- ps :: p.Plain?) && PlainParams(b)
    case _ => true
  }

  predicate AllPlainParams(ts: Trees) { ts.Trees? ==> PlainParams(ts.head) && AllPlainParams(ts.tail) }

  predicate Fresh(s: seq<nat>, lo: nat, hi: nat)
  {
    lo <= hi && (forall n <- s :: lo <= n < hi) && forall i, j :: 0 <= i < j < |s| ==> s[i] != s[j]
  }

  lemma FreshConcat(a: seq<nat>, b: seq<nat>, lo: nat, mid: nat, hi: nat)
    requires Fresh(a, lo, mid) && Fresh(b, mid, hi)
    ensures Fresh(a + b, lo, hi)
  {
    forall i, j | 0 <= i < j < |a + b| ensures (a + b)[i] != (a + b)[j] {
      if i < |a| <= j { assert a[i] in a && b[j - |a|] in b; }
    }
  }

  lemma {:induction false} ReplaceKeepsParams(t: Tree, x: Name)
    requires PlainParams(t)
    ensures PlainParams(Replace(t, x))
    decreases t
  {
    match t
    case Node(kids) => ReplaceKeepsParamsAll(kids, x);
    case Fun(_, va, b) => if !va { ReplaceKeepsParams(b, x); }
    case _ =>
  }

  lemma {:induction false} ReplaceKeepsParamsAll(ts: Trees, x: Name)
    requires AllPlainParams(ts)
    ensures AllPlainParams(ReplaceAll(ts, x))
    decreases ts
  {
    if ts.Trees? { ReplaceKeepsParams(ts.head, x); ReplaceKeepsParamsAll(ts.tail, x); }
  }

  /** Every implicit parameter of the program gets its own name. */
  lemma {:induction false} PassIsFresh(t: Tree, c: nat)
    requires PlainParams(t)
    ensures Fresh(Introduced(Pass(t, c).0), c, Pass(t, c).1)
    decreases Size(t), 0
  {
    match t
    case Node(kids) => PassIsFreshAll(kids, c);
    case Fun(ps, va, b) =>
      if va {
        ReplaceSize(b, Implicit(c));
        ReplaceKeepsParams(b, Implicit(c));
        PassIsFresh(Replace(b, Implicit(c)), c + 1);
        FreshConcat([c], Introduced(Pass(Replace(b, Implicit(c)), c + 1).0), c, c + 1, Pass(t, c).1);
      } else {
        PassIsFresh(b, c);
        assert ps != [] ==> ps[|ps| - 1] in ps;
      }
    case _ =>
  }

  lemma {:induction false} PassIsFreshAll(ts: Trees, c: nat)
    requires AllPlainParams(ts)
    ensures Fresh(IntroducedAll(PassAll(ts, c).0), c, PassAll(ts, c).1)
    decreases SizeAll(ts), 1
  {
    if ts.Trees? {
      var d := Pass(ts.head, c).1;
      PassIsFresh(ts.head, c);
      PassIsFreshAll(ts.tail, d);
      FreshConcat(Introduced(Pass(ts.head, c).0), IntroducedAll(PassAll(ts.tail, d).0), c, d, PassAll(ts, c).1);
    }
  }

  // ----- the pass with its counter -----

  class Rewriter {
    var counter: nat

    method Visit(t: Tree) returns (out: Tree)
      modifies this
      ensures (out, counter) == Pass(t, old(counter))
      decreases Size(t), 0
    {
      match t
      case Node(kids) =>
        var ks := VisitAll(kids);
        out := Node(ks);
      case Fun(ps, va, b) =>
        var params, body := ps, b;
        if va {
          var x := Implicit(counter);
          counter := counter + 1;
          params := params + [x];
          body := Replace(body, x);
          ReplaceSize(b, x);
        }
        var o := Visit(body);
        out := Fun(params, false, o);
      case _ => out := t;
    }

    method VisitAll(ts: Trees) returns (out: Trees)
      modifies this
      ensures (out, counter) == PassAll(ts, old(counter))
      decreases SizeAll(ts), 1
    {
      match ts
      case NoTrees => out := NoTrees;
      case Trees(h, r) =>
        var a := Visit(h);
        var b := VisitAll(r);
        out := Trees(a, b);
    }
  }
}
