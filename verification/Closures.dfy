/** Closure conversion: lexical environments become C variables, heap boxes and flat upvalue arrays. */
module Closures {
  import opened Options
  import opened Scopes

  // ----- what both sides share -----

  datatype Outcome<+V, +M> = Done(v: V, mem: M) | Raised(mem: M) | Dry

  /** The primitives on numbers; None is the answer of a comparison that does not hold. */
  datatype World = World(arith: (nat, int, int) -> Option<int>)

  // ----- the lexical-environment semantics -----

  datatype Bind = Bind(addr: nat, def: Def)
  type Env = map<string, Bind>

  /** `Nil` stands for nil and false. A closure keeps its whole environment; `me` is the function it was created in. */
  datatype Value = Nil | Data(k: int) | Clo(fn: Fun, env: Env, me: Path)
  type Memory = seq<Value>

  type Top = map<string, Fun>

  function ReadAtom(top: Top, a: Atom, env: Env, mem: Memory): Value
  {
    match a
    case Const(k) => Data(k)
    case Var(x) =>
      if x in env && env[x].addr < |mem| then mem[env[x].addr]
      else if x in top then Clo(top[x], map[], [])
      else Nil
  }

  function ReadAtoms(top: Top, es: seq<Atom>, env: Env, mem: Memory): (vs: seq<Value>)
    ensures |vs| == |es|
  {
    if es == [] then [] else [ReadAtom(top, es[0], env, mem)] + ReadAtoms(top, es[1..], env, mem)
  }

  /** Missing arguments are nil, extra ones are dropped; every parameter gets a fresh cell. */
  function BindParams(ps: seq<Param>, vs: seq<Value>, env: Env, mem: Memory, me: Path): (Env, Memory)
  {
    if ps == [] then (env, mem)
    else
      var v := if vs == [] then Nil else vs[0];
      BindParams(ps[1..], if vs == [] then [] else vs[1..],
                 env[ps[0].x := Bind(|mem|, Def(ps[0].key, ps[0].x, me))], mem + [v], me)
  }

  /** How a statement ends: with an environment for the next one, or with the function's value. */
  datatype Flow<+E, +V> = Next(env: E) | Returned(v: V)

  function CallValue(w: World, top: Top, f: Value, vs: seq<Value>, mem: Memory, fuel: nat): Outcome<Value, Memory>
    decreases fuel, 0
  {
    if fuel == 0 then Dry
    else if !f.Clo? then Raised(mem)
    else
      var (env, mem1) := BindParams(f.fn.params, vs, f.env, mem, [f.fn.id] + f.me);
      CallEnd(Run(w, top, f.fn.body, env, mem1, [f.fn.id] + f.me, fuel - 1))
  }

  function CallEnd(o: Outcome<Flow<Env, Value>, Memory>): Outcome<Value, Memory>
  {
    match o
    case Done(Returned(v), m) => Done(v, m)
    case Done(Next(_), m) => Done(Nil, m)
    case Raised(m) => Raised(m)
    case Dry => Dry
  }

  function EvalRhs(w: World, top: Top, rhs: Rhs, env: Env, mem: Memory, me: Path, fuel: nat): Outcome<Value, Memory>
    decreases fuel, 1
  {
    match rhs
    case Val(a) => Done(ReadAtom(top, a, env, mem), mem)
    case Closure(fn) => Done(Clo(fn, env, me), mem)
    case Call(f, args) => CallValue(w, top, ReadAtom(top, f, env, mem), ReadAtoms(top, args, env, mem), mem, fuel)
    case Prim(op, l, r) =>
      var a, b := ReadAtom(top, l, env, mem), ReadAtom(top, r, env, mem);
      if a.Data? && b.Data? then Done(FromArith((w.arith)(op, a.k, b.k)), mem) else Raised(mem)
  }

  function FromArith(r: Option<int>): Value { match r case Some(k) => Data(k) case None => Nil }

  predicate Truthy(v: Value) { !v.Nil? }

  function Scoped(o: Outcome<Flow<Env, Value>, Memory>, env: Env): Outcome<Flow<Env, Value>, Memory>
  {
    if o.Done? && o.v.Next? then Done(Next(env), o.mem) else o
  }

  function Step(w: World, top: Top, s: Stmt, env: Env, mem: Memory, me: Path, fuel: nat): Outcome<Flow<Env, Value>, Memory>
    decreases fuel, 2, s, 0
  {
    match s
    case Local(key, x, rhs, _) =>
      (match EvalRhs(w, top, rhs, env, mem, me, fuel)
       case Done(v, m) => Done(Next(env[x := Bind(|m|, Def(key, x, me))]), m + [v])
       case Raised(m) => Raised(m)
       case Dry => Dry)
    case LocalFun(key, x, fn) =>
      var env1 := env[x := Bind(|mem|, Def(key, x, me))];
      Done(Next(env1), mem + [Clo(fn, env1, me)])
    case Assign(x, rhs) =>
      (match EvalRhs(w, top, rhs, env, mem, me, fuel)
       case Done(v, m) => if x in env && env[x].addr < |m| then Done(Next(env), m[env[x].addr := v]) else Raised(m)
       case Raised(m) => Raised(m)
       case Dry => Dry)
    case Discard(rhs) =>
      (match EvalRhs(w, top, rhs, env, mem, me, fuel)
       case Done(_, m) => Done(Next(env), m)
       case Raised(m) => Raised(m)
       case Dry => Dry)
    case Return(a) => Done(Returned(ReadAtom(top, a, env, mem)), mem)
    case If(c, thn, els) =>
      Scoped(if Truthy(ReadAtom(top, c, env, mem)) then Run(w, top, thn, env, mem, me, fuel)
             else Run(w, top, els, env, mem, me, fuel), env)
    case While(c, body) =>
      if fuel == 0 then Dry
      else if !Truthy(ReadAtom(top, c, env, mem)) then Done(Next(env), mem)
      else
        (match Run(w, top, body, env, mem, me, fuel)
         case Done(Next(_), m) => Step(w, top, s, env, m, me, fuel - 1)
         case o => o)
    case For(key, x, lo, hi, body) =>
      var a, b := ReadAtom(top, lo, env, mem), ReadAtom(top, hi, env, mem);
      if a.Data? && b.Data? then Rounds(w, top, Def(key, x, me), a.k, b.k, body, env, mem, me, fuel) else Raised(mem)
    case Do(body) => Scoped(Run(w, top, body, env, mem, me, fuel), env)
  }

  /** Every round of a `for` binds its variable to a fresh cell. */
  function Rounds(w: World, top: Top, d: Def, i: int, hi: int, body: seq<Stmt>, env: Env, mem: Memory, me: Path, fuel: nat)
    : Outcome<Flow<Env, Value>, Memory>
    decreases fuel, 2, body, 2
  {
    if fuel == 0 then Dry
    else if i > hi then Done(Next(env), mem)
    else
      match Run(w, top, body, env[d.name := Bind(|mem|, d)], mem + [Data(i)], me, fuel)
      case Done(Next(_), m) => Rounds(w, top, d, i + 1, hi, body, env, m, me, fuel - 1)
      case o => o
  }

  function Run(w: World, top: Top, ss: seq<Stmt>, env: Env, mem: Memory, me: Path, fuel: nat): Outcome<Flow<Env, Value>, Memory>
    decreases fuel, 2, ss, 1
  {
    if ss == [] then Done(Next(env), mem)
    else match Step(w, top, ss[0], env, mem, me, fuel)
      case Done(Next(env1), m) => Run(w, top, ss[1..], env1, m, me, fuel)
      case o => o
  }

  // ----- the target: C functions with boxes and upvalues -----

  datatype CAtom = CNilConst | CConst(k: int) | CSlot(x: string) | CBox(x: string) | CUp(i: nat) | CTop(x: string)

  /** CompileUpvaluePointer's three results. */
  datatype CPtr = BoxPtr(x: string) | UpPtr(i: nat) | NullPtr

  datatype CParam = CParam(x: string, boxed: bool)
  datatype CFun = CFun(params: seq<CParam>, body: seq<CStmt>)

  datatype CRhs =
    | CVal(a: CAtom)
    | CMake(fn: CFun, ups: seq<CPtr>)
    | CCall(f: CAtom, args: seq<CAtom>)
    | CPrim(op: nat, l: CAtom, r: CAtom)

  datatype CStmt =
    | CDeclare(x: string, boxed: bool, early: bool, rhs: CRhs)   // early: through a temporary
    | CAssign(a: CAtom, rhs: CRhs)
    | CDiscard(rhs: CRhs)
    | CReturn(a: CAtom)
    | CIf(c: CAtom, thn: seq<CStmt>, els: seq<CStmt>)
    | CWhile(c: CAtom, body: seq<CStmt>)
    | CFor(x: string, boxed: bool, lo: CAtom, hi: CAtom, body: seq<CStmt>)
    | CDo(body: seq<CStmt>)

  /** The C variables in scope, by name, and the running closure's upvalues; addresses of cells. */
  datatype Frame = Frame(boxes: map<string, nat>, slots: map<string, nat>, ups: seq<nat>)

  /** `Junk` is what an uninitialised variable or a fresh box holds. */
  datatype CValue = CNil | CData(k: int) | CClo(fn: CFun, ups: seq<nat>) | Junk
  type CMemory = seq<CValue>

  type CTable = map<string, CFun>

  datatype COutcome<+V> = CDone(v: V, mem: CMemory) | CRaised(mem: CMemory) | CDry | Stuck

  function Address(a: CAtom, f: Frame): int
  {
    match a
    case CSlot(x) => if x in f.slots then f.slots[x] else -1
    case CBox(x) => if x in f.boxes then f.boxes[x] else -1
    case CUp(i) => if i < |f.ups| then f.ups[i] else -1
    case _ => -1
  }

  function CRead(top: CTable, a: CAtom, f: Frame, mem: CMemory): CValue
  {
    match a
    case CNilConst => CNil
    case CConst(k) => CData(k)
    case CTop(x) => if x in top then CClo(top[x], []) else Junk
    case _ => if 0 <= Address(a, f) < |mem| then mem[Address(a, f)] else Junk
  }

  function CReads(top: CTable, es: seq<CAtom>, f: Frame, mem: CMemory): (vs: seq<CValue>)
    ensures |vs| == |es|
  {
    if es == [] then [] else [CRead(top, es[0], f, mem)] + CReads(top, es[1..], f, mem)
  }

  /** A pointer handed to FlMakeClosure; -1 is NULL or an undeclared box. */
  function PtrValue(p: CPtr, f: Frame): int
  {
    match p
    case BoxPtr(x) => if x in f.boxes then f.boxes[x] else -1
    case UpPtr(i) => if i < |f.ups| then f.ups[i] else -1
    case NullPtr => -1
  }

  function Ptrs(ps: seq<CPtr>, f: Frame): seq<int>
  {
    seq(|ps|, i requires 0 <= i < |ps| => PtrValue(ps[i], f))
  }

  predicate AllNat(s: seq<int>) { forall i :: 0 <= i < |s| ==> 0 <= s[i] }

  function Declare(f: Frame, x: string, boxed: bool, addr: nat): Frame
  {
    if boxed then f.(boxes := f.boxes[x := addr]) else f.(slots := f.slots[x := addr])
  }

  function CBind(ps: seq<CParam>, vs: seq<CValue>, f: Frame, mem: CMemory): (Frame, CMemory)
  {
    if ps == [] then (f, mem)
    else
      var v := if vs == [] then CNil else vs[0];
      CBind(ps[1..], if vs == [] then [] else vs[1..], Declare(f, ps[0].x, ps[0].boxed, |mem|), mem + [v])
  }

  function CCallValue(w: World, top: CTable, c: CValue, vs: seq<CValue>, mem: CMemory, fuel: nat): COutcome<CValue>
    decreases fuel, 0
  {
    if fuel == 0 then CDry
    else if c.Junk? then Stuck
    else if !c.CClo? then CRaised(mem)
    else
      var (f, mem1) := CBind(c.fn.params, vs, Frame(map[], map[], c.ups), mem);
      CCallEnd(CRun(w, top, c.fn.body, f, mem1, fuel - 1))
  }

  function CCallEnd(o: COutcome<Flow<Frame, CValue>>): COutcome<CValue>
  {
    match o
    case CDone(Returned(v), m) => CDone(v, m)
    case CDone(Next(_), m) => CDone(CNil, m)
    case CRaised(m) => CRaised(m)
    case CDry => CDry
    case Stuck => Stuck
  }

  function CFromArith(r: Option<int>): CValue { match r case Some(k) => CData(k) case None => CNil }

  function CEval(w: World, top: CTable, rhs: CRhs, f: Frame, mem: CMemory, fuel: nat): COutcome<CValue>
    decreases fuel, 1
  {
    match rhs
    case CVal(a) => if CRead(top, a, f, mem).Junk? then Stuck else CDone(CRead(top, a, f, mem), mem)
    case CMake(fn, ups) => if AllNat(Ptrs(ups, f)) then CDone(CClo(fn, Ptrs(ups, f)), mem) else Stuck
    case CCall(g, args) => CCallValue(w, top, CRead(top, g, f, mem), CReads(top, args, f, mem), mem, fuel)
    case CPrim(op, l, r) =>
      var a, b := CRead(top, l, f, mem), CRead(top, r, f, mem);
      if a.Junk? || b.Junk? then Stuck
      else if a.CData? && b.CData? then CDone(CFromArith((w.arith)(op, a.k, b.k)), mem)
      else CRaised(mem)
  }

  /** An initialiser printed into its own declaration, where C already sees the new variable; calls and
      operators were computed into temporaries before it. */
  predicate Inline(rhs: CRhs) { rhs.CVal? || rhs.CMake? }

  function CScoped(o: COutcome<Flow<Frame, CValue>>, f: Frame): COutcome<Flow<Frame, CValue>>
  {
    if o.CDone? && o.v.Next? then CDone(Next(f), o.mem) else o
  }

  function CStep(w: World, top: CTable, s: CStmt, f: Frame, mem: CMemory, fuel: nat): COutcome<Flow<Frame, CValue>>
    decreases fuel, 2, s, 0
  {
    match s
    case CDeclare(x, boxed, early, rhs) =>
      if Inline(rhs) && !early then
        var f1 := Declare(f, x, boxed, |mem|);
        match CEval(w, top, rhs, f1, mem + [Junk], fuel)
        case CDone(v, _) => CDone(Next(f1), mem + [v])
        case CRaised(m) => CRaised(m)
        case CDry => CDry
        case Stuck => Stuck
      else
        (match CEval(w, top, rhs, f, mem, fuel)
         case CDone(v, m) => CDone(Next(Declare(f, x, boxed, |m|)), m + [v])
         case CRaised(m) => CRaised(m)
         case CDry => CDry
         case Stuck => Stuck)
    case CAssign(a, rhs) =>
      (match CEval(w, top, rhs, f, mem, fuel)
       case CDone(v, m) => if 0 <= Address(a, f) < |m| then CDone(Next(f), m[Address(a, f) := v]) else CRaised(m)
       case CRaised(m) => CRaised(m)
       case CDry => CDry
       case Stuck => Stuck)
    case CDiscard(rhs) =>
      (match CEval(w, top, rhs, f, mem, fuel)
       case CDone(_, m) => CDone(Next(f), m)
       case CRaised(m) => CRaised(m)
       case CDry => CDry
       case Stuck => Stuck)
    case CReturn(a) => if CRead(top, a, f, mem).Junk? then Stuck else CDone(Returned(CRead(top, a, f, mem)), mem)
    case CIf(c, thn, els) =>
      var v := CRead(top, c, f, mem);
      if v.Junk? then Stuck
      else CScoped(if !v.CNil? then CRun(w, top, thn, f, mem, fuel) else CRun(w, top, els, f, mem, fuel), f)
    case CWhile(c, body) =>
      var v := CRead(top, c, f, mem);
      if fuel == 0 then CDry
      else if v.Junk? then Stuck
      else if v.CNil? then CDone(Next(f), mem)
      else
        (match CRun(w, top, body, f, mem, fuel)
         case CDone(Next(_), m) => CStep(w, top, s, f, m, fuel - 1)
         case o => o)
    case CFor(x, boxed, lo, hi, body) =>
      var a, b := CRead(top, lo, f, mem), CRead(top, hi, f, mem);
      if a.Junk? || b.Junk? then Stuck
      else if a.CData? && b.CData? then CRounds(w, top, x, boxed, a.k, b.k, body, f, mem, fuel)
      else CRaised(mem)
    case CDo(body) => CScoped(CRun(w, top, body, f, mem, fuel), f)
  }

  function CRounds(w: World, top: CTable, x: string, boxed: bool, i: int, hi: int, body: seq<CStmt>, f: Frame, mem: CMemory, fuel: nat)
    : COutcome<Flow<Frame, CValue>>
    decreases fuel, 2, body, 2
  {
    if fuel == 0 then CDry
    else if i > hi then CDone(Next(f), mem)
    else
      match CRun(w, top, body, Declare(f, x, boxed, |mem|), mem + [CData(i)], fuel)
      case CDone(Next(_), m) => CRounds(w, top, x, boxed, i + 1, hi, body, f, m, fuel - 1)
      case o => o
  }

  function CRun(w: World, top: CTable, ss: seq<CStmt>, f: Frame, mem: CMemory, fuel: nat): COutcome<Flow<Frame, CValue>>
    decreases fuel, 2, ss, 1
  {
    if ss == [] then CDone(Next(f), mem)
    else match CStep(w, top, ss[0], f, mem, fuel)
      case CDone(Next(f1), m) => CRun(w, top, ss[1..], f1, m, fuel)
      case o => o
  }

  // ----- the compiler -----

  /** What compilation of a function's code consults: the captured definitions of the whole program, the names
      of file-level functions, the function's place, and its own capture list. */
  datatype Ctx = Ctx(captured: set<Def>, top: set<string>, me: Path, ups: seq<Def>)

  function IndexOf(ds: seq<Def>, d: Def): (i: nat)
    requires d in ds
    ensures i < |ds| && ds[i] == d
  {
    if ds[0] == d then 0 else 1 + IndexOf(ds[1..], d)
  }

  /** CompileVar on a simple name. */
  function CompileVar(c: Ctx, x: string, sc: Scope): CAtom
  {
    if x in sc && sc[x] in c.captured && sc[x].owner == c.me then CBox(x)
    else if x in sc && sc[x] in c.captured && sc[x] in c.ups then CUp(IndexOf(c.ups, sc[x]))
    else if x in sc then CSlot(x)
    else if x in c.top then CTop(x)
    else CNilConst
  }

  function CompileAtom(c: Ctx, a: Atom, sc: Scope): CAtom
  {
    match a case Const(k) => CConst(k) case Var(x) => CompileVar(c, x, sc)
  }

  function CompileAtoms(c: Ctx, es: seq<Atom>, sc: Scope): (r: seq<CAtom>)
  {
    if es == [] then [] else [CompileAtom(c, es[0], sc)] + CompileAtoms(c, es[1..], sc)
  }

  /** CompileUpvaluePointer. */
  function CompilePtr(c: Ctx, d: Def): CPtr
  {
    if d.owner == c.me then BoxPtr(d.name)
    else if d in c.ups then UpPtr(IndexOf(c.ups, d))
    else NullPtr
  }

  function CompilePtrs(c: Ctx, ds: seq<Def>): seq<CPtr> { seq(|ds|, i requires 0 <= i < |ds| => CompilePtr(c, ds[i])) }

  function CompileParams(captured: set<Def>, ps: seq<Param>, me: Path): seq<CParam>
  {
    if ps == [] then []
    else [CParam(ps[0].x, Def(ps[0].key, ps[0].x, me) in captured)] + CompileParams(captured, ps[1..], me)
  }

  function CompileFun(c: Ctx, fn: Fun, sc: Scope): CFun
    decreases fn, 2
  {
    var me := [fn.id] + c.me;
    CFun(CompileParams(c.captured, fn.params, me),
         CompileBlock(Ctx(c.captured, c.top, me, Captures(fn, sc, c.me)), fn.body, FunScope(fn, sc, c.me)))
  }

  function CompileRhs(c: Ctx, rhs: Rhs, sc: Scope): CRhs
    decreases rhs, 3
  {
    match rhs
    case Val(a) => CVal(CompileAtom(c, a, sc))
    case Closure(fn) => CMake(CompileFun(c, fn, sc), CompilePtrs(c, Captures(fn, sc, c.me)))
    case Call(f, args) => CCall(CompileAtom(c, f, sc), CompileAtoms(c, args, sc))
    case Prim(op, l, r) => CPrim(op, CompileAtom(c, l, sc), CompileAtom(c, r, sc))
  }

  /** A native declaration that shadows a visible name computes its value into a temporary first. */
  predicate Early(c: Ctx, d: Def, num: bool, sc: Scope) { num && d !in c.captured && d.name in sc }

  function CompileStmt(c: Ctx, s: Stmt, sc: Scope): CStmt
    decreases s, 0
  {
    match s
    case Local(key, x, rhs, num) =>
      var d := Def(key, x, c.me);
      CDeclare(x, d in c.captured, Early(c, d, num, sc), CompileRhs(c, rhs, sc))
    case LocalFun(key, x, fn) =>
      var sc1 := sc[x := Def(key, x, c.me)];
      CDeclare(x, Def(key, x, c.me) in c.captured, false,
               CMake(CompileFun(c, fn, sc1), CompilePtrs(c, Captures(fn, sc1, c.me))))
    case Assign(x, rhs) => CAssign(CompileVar(c, x, sc), CompileRhs(c, rhs, sc))
    case Discard(rhs) => CDiscard(CompileRhs(c, rhs, sc))
    case Return(a) => CReturn(CompileAtom(c, a, sc))
    case If(e, thn, els) => CIf(CompileAtom(c, e, sc), CompileBlock(c, thn, sc), CompileBlock(c, els, sc))
    case While(e, body) => CWhile(CompileAtom(c, e, sc), CompileBlock(c, body, sc))
    case For(key, x, lo, hi, body) =>
      CFor(x, Def(key, x, c.me) in c.captured, CompileAtom(c, lo, sc), CompileAtom(c, hi, sc),
           CompileBlock(c, body, sc[x := Def(key, x, c.me)]))
    case Do(body) => CDo(CompileBlock(c, body, sc))
  }

  function CompileBlock(c: Ctx, ss: seq<Stmt>, sc: Scope): seq<CStmt>
    decreases ss, 1
  {
    if ss == [] then [] else [CompileStmt(c, ss[0], sc)] + CompileBlock(c, ss[1..], After(ss[0], sc, c.me))
  }

  // ----- the one way to go wrong -----

  /** The initialiser reads the C name its own declaration introduces. */
  predicate SelfRead(c: Ctx, d: Def, rhs: Rhs, sc: Scope)
  {
    match rhs
    case Val(Var(y)) =>
      y == d.name && y in sc && sc[y].owner == c.me && (sc[y] in c.captured <==> d in c.captured)
    case Closure(fn) =>
      d in c.captured && exists e :: e in Captures(fn, sc, c.me) && e.owner == c.me && e.name == d.name
    case _ => false
  }

  /** It does so where C already sees the new variable: a dynamic value, or a box. */
  predicate Misread(c: Ctx, d: Def, rhs: Rhs, num: bool, sc: Scope)
  {
    SelfRead(c, d, rhs, sc) && !Early(c, d, num, sc)
  }

  predicate FunClean(c: Ctx, fn: Fun, sc: Scope)
    decreases fn, 2
  {
    BlockClean(Ctx(c.captured, c.top, [fn.id] + c.me, Captures(fn, sc, c.me)), fn.body, FunScope(fn, sc, c.me))
  }

  predicate RhsClean(c: Ctx, rhs: Rhs, sc: Scope)
    decreases rhs, 3
  {
    rhs.Closure? ==> FunClean(c, rhs.fn, sc)
  }

  predicate StmtClean(c: Ctx, s: Stmt, sc: Scope)
    decreases s, 0
  {
    match s
    case Local(key, x, rhs, num) => RhsClean(c, rhs, sc) && !Misread(c, Def(key, x, c.me), rhs, num, sc)
    case LocalFun(key, x, fn) => FunClean(c, fn, sc[x := Def(key, x, c.me)])
    case Assign(_, rhs) => RhsClean(c, rhs, sc)
    case Discard(rhs) => RhsClean(c, rhs, sc)
    case Return(_) => true
    case If(_, thn, els) => BlockClean(c, thn, sc) && BlockClean(c, els, sc)
    case While(_, body) => BlockClean(c, body, sc)
    case For(key, x, _, _, body) => BlockClean(c, body, sc[x := Def(key, x, c.me)])
    case Do(body) => BlockClean(c, body, sc)
  }

  predicate BlockClean(c: Ctx, ss: seq<Stmt>, sc: Scope)
    decreases ss, 1
  {
    ss != [] ==> StmtClean(c, ss[0], sc) && BlockClean(c, ss[1..], After(ss[0], sc, c.me))
  }
}
