/** Which expressions can give other than one value: exactly those that let an assignment have fewer expressions than
    targets. */
module MultiResults {
  import opened Options
  import opened Assignments
  import opened SplitAssign

  /** A call or `...`. */
  predicate Open(e: Exp) { e.Call? || e.Varargs? }

  /** Some program state lets the expression finish. */
  ghost predicate Evaluates(e: Exp) { exists w: World, st: State :: Eval(w, e, st).Ok? }

  ghost predicate OneValued(e: Exp) { forall w: World, st: State :: Eval(w, e, st).Ok? ==> |Eval(w, e, st).v| == 1 }

  // ----- a world in which whatever can finish does -----

  /** Calls give two tables, operators one, and nothing changes. */
  function Generous(): World
  {
    World((f, vs, u) => Gives([Table(0), Table(0)], u), (op, a, b, u) => Gives(Table(0), u), (id, u) => Gives((), u))
  }

  /** What the expression gives there: a constant itself, anything else the table. */
  function Given(e: Exp): Value
  {
    match e case Const(v) => v case Paren(e1) => Given(e1) case _ => Table(0)
  }

  /** Every index finds the table. */
  predicate Covers(u: Visible, e: Exp)
    decreases e, 0
  {
    match e
    case Var(User(x)) => x in u.vars && u.vars[x] == Table(0)
    case Get(b, k) =>
      && Covers(u, b) && Covers(u, k) && Given(b).Table? && Given(b).id in u.heap
      && Given(k) in u.heap[Given(b).id] && u.heap[Given(b).id][Given(k)] == Table(0)
    case Binop(_, l, r) => Covers(u, l) && Covers(u, r)
    case Paren(e1) => Covers(u, e1)
    case Call(f, args) => Covers(u, f) && CoversAll(u, args)
    case Varargs => u.varargs == [Table(0), Table(0)]
    case _ => true
  }

  predicate CoversAll(u: Visible, es: seq<Exp>)
    decreases es, 1
  {
    es == [] || (Covers(u, es[0]) && CoversAll(u, es[1..]))
  }

  lemma {:induction false} GenerousGives(e: Exp, st: State)
    requires Plain(e) && Covers(st.user, e)
    ensures Eval(Generous(), e, st) == Ok(if Open(e) then [Table(0), Table(0)] else [Given(e)], st)
    decreases e, 0
  {
    match e
    case Get(b, k) => GenerousGives(b, st); GenerousGives(k, st);
    case Binop(_, l, r) => GenerousGives(l, st); GenerousGives(r, st);
    case Paren(e1) => GenerousGives(e1, st);
    case Call(f, args) => GenerousGives(f, st); GenerousGivesAll(args, st);
    case _ =>
  }

  lemma {:induction false} GenerousGivesAll(es: seq<Exp>, st: State)
    requires AllPlain(es) && CoversAll(st.user, es)
    ensures var r := EvalList(Generous(), es, st); r.Ok? && r.st == st
    decreases es, 1
  {
    if es != [] {
      GenerousGives(es[0], st);
      GenerousGivesAll(es[1..], st);
    }
  }

  // ----- what can finish -----

  /** No constant other than a table is indexed. */
  predicate Runnable(e: Exp)
    decreases e, 0
  {
    match e
    case Get(b, k) => Runnable(b) && Runnable(k) && Given(b).Table?
    case Binop(_, l, r) => Runnable(l) && Runnable(r)
    case Paren(e1) => Runnable(e1)
    case Call(f, args) => Runnable(f) && AllRunnable(args)
    case _ => true
  }

  predicate AllRunnable(es: seq<Exp>)
    decreases es, 1
  {
    es == [] || (Runnable(es[0]) && AllRunnable(es[1..]))
  }

  lemma {:induction false} ConstantsGiveThemselves(w: World, e: Exp, st: State)
    ensures !Given(e).Table? ==> EvalOne(w, e, st) == Ok(Given(e), st)
  {
    if e.Paren? { ConstantsGiveThemselves(w, e.e, st); }
  }

  lemma {:induction false} WhatFinishesIsRunnable(w: World, e: Exp, st: State)
    requires Eval(w, e, st).Ok?
    ensures Runnable(e)
    decreases e, 0
  {
    match e
    case Get(b, k) =>
      WhatFinishesIsRunnable(w, b, st);
      WhatFinishesIsRunnable(w, k, EvalOne(w, b, st).st);
      ConstantsGiveThemselves(w, b, st);
    case Binop(_, l, r) =>
      WhatFinishesIsRunnable(w, l, st);
      WhatFinishesIsRunnable(w, r, EvalOne(w, l, st).st);
    case Paren(e1) => WhatFinishesIsRunnable(w, e1, st);
    case Call(f, args) =>
      WhatFinishesIsRunnable(w, f, st);
      AllThatFinishAreRunnable(w, args, EvalOne(w, f, st).st);
    case _ =>
  }

  lemma {:induction false} AllThatFinishAreRunnable(w: World, es: seq<Exp>, st: State)
    requires EvalList(w, es, st).Ok?
    ensures AllRunnable(es)
    decreases es, 1
  {
    if es != [] {
      WhatFinishesIsRunnable(w, es[0], st);
      if |es| > 1 {
        AllThatFinishAreRunnable(w, es[1..], EvalOne(w, es[0], st).st);
      } else {
        assert es[1..] == [];
      }
    }
  }

  // ----- a state for it -----

  type Heap = map<nat, map<Value, Value>>

  /** Nothing but the table is stored anywhere. */
  predicate Uniform(u: Visible)
  {
    && (forall x :: x in u.vars ==> u.vars[x] == Table(0))
    && (forall id, k :: id in u.heap && k in u.heap[id] ==> u.heap[id][k] == Table(0))
    && u.varargs == [Table(0), Table(0)]
  }

  function Empty(): Visible { Visible(map[], map[], [Table(0), Table(0)], []) }

  function Join(u: Visible, v: Visible): Visible
  {
    Visible(u.vars + v.vars,
            map id | id in u.heap.Keys + v.heap.Keys ::
              (if id in u.heap then u.heap[id] else map[]) + (if id in v.heap then v.heap[id] else map[]),
            [Table(0), Table(0)], [])
  }

  lemma {:induction false} JoinCovers(u: Visible, v: Visible, e: Exp)
    requires Uniform(u) && Uniform(v) && (Covers(u, e) || Covers(v, e))
    ensures Uniform(Join(u, v)) && Covers(Join(u, v), e)
    decreases e, 0
  {
    match e
    case Get(b, k) => JoinCovers(u, v, b); JoinCovers(u, v, k);
    case Binop(_, l, r) => JoinCovers(u, v, l); JoinCovers(u, v, r);
    case Paren(e1) => JoinCovers(u, v, e1);
    case Call(f, args) => JoinCovers(u, v, f); JoinCoversAll(u, v, args);
    case _ =>
  }

  lemma {:induction false} JoinCoversAll(u: Visible, v: Visible, es: seq<Exp>)
    requires Uniform(u) && Uniform(v) && (CoversAll(u, es) || CoversAll(v, es))
    ensures Uniform(Join(u, v)) && CoversAll(Join(u, v), es)
    decreases es, 1
  {
    if es != [] {
      JoinCovers(u, v, es[0]);
      JoinCoversAll(u, v, es[1..]);
    }
  }

  lemma {:induction false} StateFor(e: Exp) returns (u: Visible)
    requires Plain(e) && Runnable(e)
    ensures Uniform(u) && Covers(u, e)
    decreases e, 1
  {
    match e
    case Const(_) => u := Empty();
    case Varargs => u := Empty();
    case Var(n) => u := Empty().(vars := map[n.x := Table(0)]);
    case Get(b, k) =>
      var both := StateForTwo(e, b, k);
      var entry := Empty().(heap := map[Given(b).id := map[Given(k) := Table(0)]]);
      u := Join(both, entry);
      JoinCovers(both, entry, b);
      JoinCovers(both, entry, k);
    case Binop(_, l, r) => u := StateForTwo(e, l, r);
    case Paren(e1) => u := StateFor(e1);
    case Call(f, args) =>
      var v := StateFor(f);
      var vs := StateForAll(args);
      u := Join(v, vs);
      JoinCovers(v, vs, f);
      JoinCoversAll(v, vs, args);
  }

  lemma {:induction false} StateForTwo(parent: Exp, l: Exp, r: Exp) returns (u: Visible)
    requires l < parent && r < parent
    requires Plain(l) && Plain(r) && Runnable(l) && Runnable(r)
    ensures Uniform(u) && Covers(u, l) && Covers(u, r)
    decreases parent, 0
  {
    var a := StateFor(l);
    var b := StateFor(r);
    u := Join(a, b);
    JoinCovers(a, b, l);
    JoinCovers(a, b, r);
  }

  lemma {:induction false} StateForAll(es: seq<Exp>) returns (u: Visible)
    requires AllPlain(es) && AllRunnable(es)
    ensures Uniform(u) && CoversAll(u, es)
    decreases es, 2
  {
    if es == [] {
      u := Empty();
    } else {
      var a := StateFor(es[0]);
      var b := StateForAll(es[1..]);
      u := Join(a, b);
      JoinCovers(a, b, es[0]);
      JoinCoversAll(a, b, es[1..]);
    }
  }

  // ----- the counts an assignment may have -----

  lemma OthersGiveOne(w: World, e: Exp, st: State)
    requires !Open(e)
    ensures var r := Eval(w, e, st); r.Ok? ==> |r.v| == 1
  {
  }

  /** Of the expressions that can finish at all, those that always give one value are exactly those that are neither a
      call nor `...`; parentheses around a call make it one of them. */
  lemma OneValuedIff(e: Exp)
    requires Plain(e) && Evaluates(e)
    ensures OneValued(e) <==> !Open(e)
  {
    if Open(e) {
      var w: World, st: State :| Eval(w, e, st).Ok?;
      WhatFinishesIsRunnable(w, e, st);
      var u := StateFor(e);
      var s := State(u, map[]);
      GenerousGives(e, s);
      assert Eval(Generous(), e, s).Ok? && |Eval(Generous(), e, s).v| == 2;
    } else {
      forall w: World, st: State | Eval(w, e, st).Ok? ensures |Eval(w, e, st).v| == 1 { OthersGiveOne(w, e, st); }
    }
  }

  /** The pass takes an assignment exactly when it has as many expressions as targets, or fewer with a last one that can
      give other than one value. */
  lemma CountsOkIff(ts: seq<Target>, es: seq<Exp>)
    requires es != [] ==> Plain(es[|es| - 1]) && Evaluates(es[|es| - 1])
    ensures CountsOk(ts, es) <==> |es| == |ts| || (|es| < |ts| && es != [] && !OneValued(es[|es| - 1]))
  {
    if es != [] { OneValuedIff(es[|es| - 1]); }
  }

  /** A call that can never finish, such as `(nil).x()`, is taken for one with several results all the same. */
  lemma NeverFinishedCallIsTaken(ts: seq<Target>)
    requires |ts| == 2
    ensures var e := Call(Get(Const(Nil), Const(Str("x"))), []);
            !Evaluates(e) && OneValued(e) && CountsOk(ts, [e])
  {
    var b := Get(Const(Nil), Const(Str("x")));
    var e := Call(b, []);
    forall w: World, st: State ensures Eval(w, e, st).Raised? {
      assert EvalOne(w, Const(Nil), st) == Ok(Nil, st);
      assert Eval(w, b, st).Raised?;
    }
  }
}
