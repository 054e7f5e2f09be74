/** Assignments with several targets, and the rule they must follow (section 3.3.3 of the Lua 5.4 Reference
    Manual, with the order the rewriter documents: table bases and keys, then right-hand sides, then stores from
    left to right). */
module Assignments {

  /** Temporaries are named after the rewriter's counter and the target's position. */
  datatype Name = User(x: string) | Tmp(c: nat, i: nat) | LhsBase(c: nat, i: nat) | LhsKey(c: nat, i: nat)

  /** `Data` are the values without structure, numbered; number 0 is false. */
  datatype Value = Nil | Data(k: int) | Str(s: string) | Table(id: nat)

  datatype Exp =
    | Const(v: Value)
    | Var(n: Name)
    | Get(b: Exp, k: Exp)
    | Binop(op: nat, l: Exp, r: Exp)
    | Paren(e: Exp)
    | Call(f: Exp, args: seq<Exp>)
    | Varargs

  datatype Target = Simple(n: Name) | Square(base: Exp, key: Exp) | Dot(base: Exp, field: string)

  datatype Stmt =
    | Assign(vars: seq<Target>, exps: seq<Exp>)
    | Local(names: seq<Name>, exps: seq<Exp>)
    | SetTable(base: Exp, key: Exp, exp: Exp)       // FAKELUA_SET_TABLE(base, key, exp)
    | Other(id: nat)                                // any other simple statement
    | Block(body: seq<Stmt>)
    | If(c: Exp, thn: seq<Stmt>, els: seq<Stmt>)
    | While(c: Exp, body: seq<Stmt>)

  // ----- states -----

  /** What the program can see: its variables, its tables, and what callees recorded. */
  datatype Visible = Visible(vars: map<string, Value>, heap: map<nat, map<Value, Value>>, varargs: seq<Value>, log: seq<int>)

  datatype State = State(user: Visible, temps: map<Name, Value>)

  datatype Reply<+T> = Gives(v: T, user: Visible) | Throws(user: Visible)

  /** Calls and other statements do anything to what is visible; they cannot see the temporaries. */
  datatype World = World(
    call: (Value, seq<Value>, Visible) -> Reply<seq<Value>>,
    binop: (nat, Value, Value, Visible) -> Reply<Value>,
    other: (nat, Visible) -> Reply<()>)

  datatype Out<+T> = Ok(v: T, st: State) | Raised(st: State)

  datatype End = Done(st: State) | Failed(st: State) | Running

  function First(vs: seq<Value>): Value { if vs == [] then Nil else vs[0] }

  /** Exactly `n` values: padded with nil behind, or cut. */
  function Adjust(vs: seq<Value>, n: nat): (r: seq<Value>)
    ensures |r| == n
    ensures forall i :: 0 <= i < n ==> r[i] == if i < |vs| then vs[i] else Nil
  {
    if n <= |vs| then vs[..n] else vs + seq(n - |vs|, i => Nil)
  }

  function Lift<T>(r: Reply<T>, st: State): Out<T>
  {
    match r case Gives(v, u) => Ok(v, st.(user := u)) case Throws(u) => Raised(st.(user := u))
  }

  function Read(n: Name, st: State): Value
  {
    match n
    case User(x) => if x in st.user.vars then st.user.vars[x] else Nil
    case _ => if n in st.temps then st.temps[n] else Nil
  }

  function Bind(n: Name, v: Value, st: State): State
  {
    match n
    case User(x) => st.(user := st.user.(vars := st.user.vars[x := v]))
    case _ => st.(temps := st.temps[n := v])
  }

  function BindAll(ns: seq<Name>, vs: seq<Value>, st: State): State
    requires |ns| == |vs|
  {
    if ns == [] then st else BindAll(ns[1..], vs[1..], Bind(ns[0], vs[0], st))
  }

  function Index(b: Value, k: Value, st: State): Out<Value>
  {
    if !b.Table? || b.id !in st.user.heap then Raised(st)
    else Ok(if k in st.user.heap[b.id] then st.user.heap[b.id][k] else Nil, st)
  }

  function SetIndex(b: Value, k: Value, v: Value, st: State): End
  {
    if !b.Table? || b.id !in st.user.heap || k.Nil? then Failed(st)
    else Done(st.(user := st.user.(heap := st.user.heap[b.id := st.user.heap[b.id][k := v]])))
  }

  /** Only tables have entries, absent ones read as nil, and only a nil key cannot be stored under. */
  lemma TablesOnly(b: Value, k: Value, v: Value, st: State)
    ensures var isTable := exists id :: b == Table(id) && id in st.user.heap;
            && (Index(b, k, st).Ok? <==> isTable)
            && (Index(b, k, st).Ok? && k !in st.user.heap[b.id] ==> Index(b, k, st) == Ok(Nil, st))
            && (SetIndex(b, k, v, st).Done? <==> isTable && k != Nil) && !SetIndex(b, k, v, st).Running?
  {
    if b.Table? { assert b == Table(b.id); }
  }

  /** A store is read back, and nothing else in the tables changes. */
  lemma StoreIsRead(b: Value, k: Value, v: Value, st: State, b1: Value, k1: Value)
    requires SetIndex(b, k, v, st).Done? && Index(b1, k1, st).Ok?
    ensures var s := SetIndex(b, k, v, st).st;
            Index(b1, k1, s) == Ok(if b1 == b && k1 == k then v else Index(b1, k1, st).v, s)
  {
  }

  // ----- expressions: every expression yields a list of values -----

  function Eval(w: World, e: Exp, st: State): Out<seq<Value>>
    decreases e, 0
  {
    match e
    case Const(v) => Ok([v], st)
    case Var(n) => Ok([Read(n, st)], st)
    case Get(b, k) =>
      (match EvalOne(w, b, st)
       case Ok(vb, s1) =>
         (match EvalOne(w, k, s1)
          case Ok(vk, s2) => (match Index(vb, vk, s2) case Ok(v, s3) => Ok([v], s3) case Raised(s) => Raised(s))
          case Raised(s) => Raised(s))
       case Raised(s) => Raised(s))
    case Binop(op, l, r) =>
      (match EvalOne(w, l, st)
       case Ok(a, s1) =>
         (match EvalOne(w, r, s1)
          case Ok(b, s2) => (match Lift((w.binop)(op, a, b, s2.user), s2) case Ok(v, s3) => Ok([v], s3) case Raised(s) => Raised(s))
          case Raised(s) => Raised(s))
       case Raised(s) => Raised(s))
    case Paren(e1) =>
      (match EvalOne(w, e1, st) case Ok(v, s) => Ok([v], s) case Raised(s) => Raised(s))
    case Call(f, args) =>
      (match EvalOne(w, f, st)
       case Ok(g, s1) =>
         (match EvalList(w, args, s1)
          case Ok(vs, s2) => Lift((w.call)(g, vs, s2.user), s2)
          case Raised(s) => Raised(s))
       case Raised(s) => Raised(s))
    case Varargs => Ok(st.user.varargs, st)
  }

  function EvalOne(w: World, e: Exp, st: State): Out<Value>
    decreases e, 1
  {
    match Eval(w, e, st) case Ok(vs, s) => Ok(First(vs), s) case Raised(s) => Raised(s)
  }

  /** Each expression gives one value, the last one all of its values. */
  function EvalList(w: World, es: seq<Exp>, st: State): Out<seq<Value>>
    decreases es, 2
  {
    if es == [] then Ok([], st)
    else if |es| == 1 then Eval(w, es[0], st)
    else match EvalOne(w, es[0], st)
      case Ok(v, s1) =>
        (match EvalList(w, es[1..], s1)
         case Ok(vs, s2) => Ok([v] + vs, s2)
         case Raised(s) => Raised(s))
      case Raised(s) => Raised(s)
  }

  predicate Yielded(w: World, e: Exp, s: State, vs: seq<Value>) { var r := Eval(w, e, s); r.Ok? && r.v == vs }

  ghost predicate CanYield(w: World, e: Exp, vs: seq<Value>) { exists s: State :: Yielded(w, e, s, vs) }

  /** A list has one value from every expression but the last, in order, and then all of the last one's. */
  lemma {:induction false} ListEndsWithAll(w: World, es: seq<Exp>, st: State)
    requires es != [] && EvalList(w, es, st).Ok?
    ensures var vs := EvalList(w, es, st).v;
            |es| - 1 <= |vs| && CanYield(w, es[|es| - 1], vs[|es| - 1..])
    ensures |es| > 1 ==> Eval(w, es[0], st).Ok? && EvalList(w, es, st).v[0] == First(Eval(w, es[0], st).v)
    decreases |es|
  {
    if |es| == 1 {
      var r := Eval(w, es[0], st);
      assert r.v[|es| - 1..] == r.v && Yielded(w, es[|es| - 1], st, r.v);
    } else {
      var s1 := EvalOne(w, es[0], st).st;
      ListEndsWithAll(w, es[1..], s1);
      var rest := EvalList(w, es[1..], s1).v;
      assert es[1..][|es| - 2] == es[|es| - 1];
      var vs := EvalList(w, es, st).v;
      assert vs == [vs[0]] + rest && vs[|es| - 1..] == rest[|es| - 2..];
    }
  }

  // ----- the reference rule -----

  datatype Place = Cell(n: Name) | Slot(b: Value, k: Value)

  function EvalPlace(w: World, t: Target, st: State): Out<Place>
  {
    match t
    case Simple(n) => Ok(Cell(n), st)
    case Square(b, k) =>
      (match EvalOne(w, b, st)
       case Ok(vb, s1) =>
         (match EvalOne(w, k, s1) case Ok(vk, s2) => Ok(Slot(vb, vk), s2) case Raised(s) => Raised(s))
       case Raised(s) => Raised(s))
    case Dot(b, x) =>
      (match EvalOne(w, b, st) case Ok(vb, s1) => Ok(Slot(vb, Str(x)), s1) case Raised(s) => Raised(s))
  }

  function EvalPlaces(w: World, ts: seq<Target>, st: State): Out<seq<Place>>
  {
    if ts == [] then Ok([], st)
    else match EvalPlace(w, ts[0], st)
      case Ok(p, s1) =>
        (match EvalPlaces(w, ts[1..], s1) case Ok(ps, s2) => Ok([p] + ps, s2) case Raised(s) => Raised(s))
      case Raised(s) => Raised(s)
  }

  function Store(p: Place, v: Value, st: State): End
  {
    match p case Cell(n) => Done(Bind(n, v, st)) case Slot(b, k) => SetIndex(b, k, v, st)
  }

  function StoreAll(ps: seq<Place>, vs: seq<Value>, st: State): End
    requires |ps| == |vs|
  {
    if ps == [] then Done(st)
    else match Store(ps[0], vs[0], st)
      case Done(s) => StoreAll(ps[1..], vs[1..], s)
      case x => x
  }

  function RunAssign(w: World, ts: seq<Target>, es: seq<Exp>, st: State): End
  {
    match EvalPlaces(w, ts, st)
    case Raised(s) => Failed(s)
    case Ok(ps, s1) =>
      match EvalList(w, es, s1)
      case Raised(s) => Failed(s)
      case Ok(vs, s2) => if |ps| == |ts| then StoreAll(ps, Adjust(vs, |ts|), s2) else Failed(s2)
  }

  // ----- statements -----

  predicate Truthy(v: Value) { !v.Nil? && v != Data(0) }

  function Step(w: World, s: Stmt, st: State, fuel: nat): End
    decreases fuel, s, 0
  {
    match s
    case Assign(ts, es) => RunAssign(w, ts, es, st)
    case Local(ns, es) =>
      (match EvalList(w, es, st)
       case Ok(vs, s1) => Done(BindAll(ns, Adjust(vs, |ns|), s1))
       case Raised(s1) => Failed(s1))
    case SetTable(b, k, e) =>
      (match EvalOne(w, b, st)
       case Raised(x) => Failed(x)
       case Ok(vb, s1) =>
         match EvalOne(w, k, s1)
         case Raised(x) => Failed(x)
         case Ok(vk, s2) =>
           match EvalOne(w, e, s2) case Ok(v, s3) => SetIndex(vb, vk, v, s3) case Raised(x) => Failed(x))
    case Other(id) => (match Lift((w.other)(id, st.user), st) case Ok(_, s1) => Done(s1) case Raised(x) => Failed(x))
    case Block(body) => Run(w, body, st, fuel)
    case If(c, thn, els) =>
      (match EvalOne(w, c, st)
       case Ok(v, s1) => if Truthy(v) then Run(w, thn, s1, fuel) else Run(w, els, s1, fuel)
       case Raised(x) => Failed(x))
    case While(c, body) =>
      if fuel == 0 then Running
      else
        (match EvalOne(w, c, st)
         case Ok(v, s1) =>
           if !Truthy(v) then Done(s1)
           else (match Run(w, body, s1, fuel) case Done(s2) => Step(w, s, s2, fuel - 1) case x => x)
         case Raised(x) => Failed(x))
  }

  function Run(w: World, ss: seq<Stmt>, st: State, fuel: nat): End
    decreases fuel, ss, 1
  {
    if ss == [] then Done(st)
    else match Step(w, ss[0], st, fuel)
      case Done(s) => Run(w, ss[1..], s, fuel)
      case x => x
  }

  /** Of the constants, nil and false choose `else`, and nothing else does. */
  lemma OnlyNilAndFalseChooseElse(w: World, v: Value, thn: seq<Stmt>, els: seq<Stmt>, st: State, fuel: nat)
    ensures Step(w, If(Const(v), thn, els), st, fuel) == Run(w, if v in {Nil, Data(0)} then els else thn, st, fuel)
  {
    assert EvalOne(w, Const(v), st) == Ok(v, st);
  }

  lemma {:induction false} RunConcat(w: World, a: seq<Stmt>, b: seq<Stmt>, st: State, fuel: nat)
    ensures var r := Run(w, a, st, fuel);
            Run(w, a + b, st, fuel) == if r.Done? then Run(w, b, r.st, fuel) else r
    decreases |a|
  {
    if a == [] {
      assert a + b == b;
    } else {
      assert (a + b)[0] == a[0] && (a + b)[1..] == a[1..] + b;
      var r := Step(w, a[0], st, fuel);
      if r.Done? { RunConcat(w, a[1..], b, r.st, fuel); }
    }
  }

  lemma {:induction false} PlacesInStep(w: World, ts: seq<Target>, st: State)
    ensures var r := EvalPlaces(w, ts, st); r.Ok? ==> |r.v| == |ts|
  {
    if ts != [] {
      var r := EvalPlace(w, ts[0], st);
      if r.Ok? { PlacesInStep(w, ts[1..], r.st); }
    }
  }

  // ----- program text without temporaries -----

  predicate Plain(e: Exp)
    decreases e, 0
  {
    match e
    case Var(n) => n.User?
    case Get(b, k) => Plain(b) && Plain(k)
    case Binop(_, l, r) => Plain(l) && Plain(r)
    case Paren(e1) => Plain(e1)
    case Call(f, args) => Plain(f) && AllPlain(args)
    case _ => true
  }

  predicate AllPlain(es: seq<Exp>)
    decreases es, 1
  {
    es == [] || (Plain(es[0]) && AllPlain(es[1..]))
  }

  predicate PlainTarget(t: Target)
  {
    match t
    case Simple(n) => n.User?
    case Square(b, k) => Plain(b) && Plain(k)
    case Dot(b, _) => Plain(b)
  }

  predicate PlainTargets(ts: seq<Target>) { forall t <- ts :: PlainTarget(t) }

  /** Equal outcomes as far as the program can see; `temps` is what the temporaries are afterwards. */
  predicate Alike<T(==)>(a: Out<T>, b: Out<T>, temps: map<Name, Value>)
  {
    match (a, b)
    case (Ok(v, s), Ok(u, r)) => v == u && s.user == r.user && r.temps == temps
    case (Raised(s), Raised(r)) => s.user == r.user && r.temps == temps
    case _ => false
  }

  /** Evaluation neither looks at temporaries nor changes them. */
  lemma {:induction false} EvalBlind(w: World, e: Exp, st: State, other: State)
    requires Plain(e) && st.user == other.user
    ensures Alike(Eval(w, e, st), Eval(w, e, other), other.temps)
    decreases e, 0
  {
    match e
    case Get(b, k) =>
      EvalOneBlind(w, b, st, other);
      var x, y := EvalOne(w, b, st), EvalOne(w, b, other);
      if x.Ok? { EvalOneBlind(w, k, x.st, y.st); }
    case Binop(_, l, r) =>
      EvalOneBlind(w, l, st, other);
      var x, y := EvalOne(w, l, st), EvalOne(w, l, other);
      if x.Ok? { EvalOneBlind(w, r, x.st, y.st); }
    case Paren(e1) => EvalOneBlind(w, e1, st, other);
    case Call(f, args) =>
      EvalOneBlind(w, f, st, other);
      var x, y := EvalOne(w, f, st), EvalOne(w, f, other);
      if x.Ok? { EvalListBlind(w, args, x.st, y.st); }
    case _ =>
  }

  lemma {:induction false} EvalOneBlind(w: World, e: Exp, st: State, other: State)
    requires Plain(e) && st.user == other.user
    ensures Alike(EvalOne(w, e, st), EvalOne(w, e, other), other.temps)
    decreases e, 1
  {
    EvalBlind(w, e, st, other);
  }

  lemma {:induction false} EvalListBlind(w: World, es: seq<Exp>, st: State, other: State)
    requires AllPlain(es) && st.user == other.user
    ensures Alike(EvalList(w, es, st), EvalList(w, es, other), other.temps)
    decreases es, 2
  {
    if |es| == 1 {
      EvalBlind(w, es[0], st, other);
    } else if es != [] {
      EvalOneBlind(w, es[0], st, other);
      var x, y := EvalOne(w, es[0], st), EvalOne(w, es[0], other);
      if x.Ok? { EvalListBlind(w, es[1..], x.st, y.st); }
    }
  }
}
