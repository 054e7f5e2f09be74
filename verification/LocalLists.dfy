/** `local a, b = e1, e2`: Lua evaluates the whole list before it binds a name; the emitted C declares the names one by
    one, and a later initialiser already sees the earlier ones. */
module LocalLists {
  import opened Scopes
  import opened Closures
  import opened ClosureProof
  import opened ClosureTheorem
  import opened CBlocks

  /** One name of the list with its initialiser. */
  datatype Init = Init(key: nat, x: string, rhs: Rhs, num: bool)

  function DefOf(i: Init, me: Path): Def { Def(i.key, i.x, me) }

  /** Each value is kept in the cell its name will be bound to; every initialiser is evaluated in `env`. */
  function EvalList(w: World, top: Top, inits: seq<Init>, env: Env, bound: Env, mem: Memory, me: Path, fuel: nat)
    : Outcome<Flow<Env, Value>, Memory>
  {
    if inits == [] then Done(Next(bound), mem)
    else match EvalRhs(w, top, inits[0].rhs, env, mem, me, fuel)
      case Done(v, m) =>
        EvalList(w, top, inits[1..], env, bound[inits[0].x := Bind(|m|, DefOf(inits[0], me))], m + [v], me, fuel)
      case Raised(m) => Raised(m)
      case Dry => Dry
  }

  /** Whether a native declaration goes through a temporary is decided with the earlier names in scope; the
      initialisers are compiled in the scope around the statement. */
  function CompileList(c: Ctx, inits: seq<Init>, sc: Scope, after: Scope): seq<CStmt>
  {
    if inits == [] then []
    else
      var d := DefOf(inits[0], c.me);
      [CDeclare(d.name, d in c.captured, Early(c, d, inits[0].num, after), CompileRhs(c, inits[0].rhs, sc))]
      + CompileList(c, inits[1..], sc, after[d.name := d])
  }

  // ----- which C names an initialiser reads -----

  function AtomNames(a: CAtom): set<CName>
  {
    match a case CSlot(x) => {CName(x, false)} case CBox(x) => {CName(x, true)} case _ => {}
  }

  function AtomsNames(es: seq<CAtom>): set<CName>
  {
    if es == [] then {} else AtomNames(es[0]) + AtomsNames(es[1..])
  }

  function ReadNames(rhs: CRhs): set<CName>
  {
    match rhs
    case CVal(a) => AtomNames(a)
    case CMake(_, ups) => set p <- ups | p.BoxPtr? :: CName(p.x, true)
    case CCall(f, args) => AtomNames(f) + AtomsNames(args)
    case CPrim(_, l, r) => AtomNames(l) + AtomNames(r)
  }

  predicate AtomReads(c: Ctx, d: Def, a: Atom, sc: Scope)
  {
    a.Var? && a.x == d.name && a.x in sc && sc[a.x].owner == c.me && (sc[a.x] in c.captured <==> d in c.captured)
  }

  predicate AtomsRead(c: Ctx, d: Def, es: seq<Atom>, sc: Scope) { exists i :: 0 <= i < |es| && AtomReads(c, d, es[i], sc) }

  /** The initialiser mentions a variable of this function whose C name is the one `d` is declared under. */
  predicate Reads(c: Ctx, d: Def, rhs: Rhs, sc: Scope)
  {
    match rhs
    case Val(a) => AtomReads(c, d, a, sc)
    case Closure(fn) => d in c.captured && exists e :: e in Captures(fn, sc, c.me) && e.owner == c.me && e.name == d.name
    case Call(f, args) => AtomReads(c, d, f, sc) || AtomsRead(c, d, args, sc)
    case Prim(_, l, r) => AtomReads(c, d, l, sc) || AtomReads(c, d, r, sc)
  }

  function NameOfDef(c: Ctx, d: Def): CName { CName(d.name, d in c.captured) }

  lemma AtomReadsIff(c: Ctx, d: Def, a: Atom, env: Env)
    requires Enclosed(Defs(env), c.me) && Covered(c, AtomUses(a, Defs(env), c.me))
    ensures AtomReads(c, d, a, Defs(env)) <==> NameOfDef(c, d) in AtomNames(CompileAtom(c, a, Defs(env)))
  {
    if a.Var? && a.x in env {
      assert Defs(env)[a.x] == env[a.x].def;
      OwnName(c, env, a.x);
    }
  }

  lemma {:induction false} AtomsReadIff(c: Ctx, d: Def, es: seq<Atom>, env: Env)
    requires Enclosed(Defs(env), c.me) && Covered(c, AtomsUses(es, Defs(env), c.me))
    ensures AtomsRead(c, d, es, Defs(env)) <==> NameOfDef(c, d) in AtomsNames(CompileAtoms(c, es, Defs(env)))
  {
    if es != [] {
      var sc, t := Defs(env), es[1..];
      CoveredBoth(c, AtomUses(es[0], sc, c.me), AtomsUses(t, sc, c.me));
      AtomReadsIff(c, d, es[0], env);
      AtomsReadIff(c, d, t, env);
      assert CompileAtoms(c, es, sc)[1..] == CompileAtoms(c, t, sc);
      assert forall i :: 0 <= i < |t| ==> t[i] == es[i + 1];
      assert AtomsRead(c, d, es, sc) <==> AtomReads(c, d, es[0], sc) || AtomsRead(c, d, t, sc) by {
        if i :| 0 <= i < |es| && AtomReads(c, d, es[i], sc) { if i > 0 { assert AtomReads(c, d, t[i - 1], sc); } }
      }
    }
  }

  lemma ClosureReadsIff(c: Ctx, d: Def, fn: Fun, env: Env)
    requires c.me != [] && Enclosed(Defs(env), c.me)
    requires Covered(c, FunUses(fn, Defs(env), c.me)) && (forall e <- c.ups :: e.owner != c.me)
    ensures Reads(c, d, Closure(fn), Defs(env)) <==> NameOfDef(c, d) in ReadNames(CompileRhs(c, Closure(fn), Defs(env)))
  {
    var ds := Captures(fn, Defs(env), c.me);
    var ps := CompilePtrs(c, ds);
    forall i | 0 <= i < |ds| ensures ps[i] == BoxPtr(d.name) <==> ds[i].owner == c.me && ds[i].name == d.name {
      assert ds[i] in ds;
    }
    if e :| e in ds && e.owner == c.me && e.name == d.name {
      var i :| 0 <= i < |ds| && ds[i] == e;
      assert ps[i] in ps;
    }
    if BoxPtr(d.name) in ps {
      var i :| 0 <= i < |ps| && ps[i] == BoxPtr(d.name);
      assert ds[i] in ds;
    }
  }

  /** The printed initialiser names the C variable of `d` exactly when its source mentions one of that C name. */
  lemma ReadsIff(c: Ctx, d: Def, rhs: Rhs, env: Env)
    requires c.me != [] && Enclosed(Defs(env), c.me) && (forall e <- c.ups :: e.owner != c.me)
    requires Covered(c, RhsUses(rhs, Defs(env), c.me))
    ensures Reads(c, d, rhs, Defs(env)) <==> NameOfDef(c, d) in ReadNames(CompileRhs(c, rhs, Defs(env)))
  {
    var sc := Defs(env);
    match rhs
    case Val(a) => AtomReadsIff(c, d, a, env);
    case Closure(fn) => ClosureReadsIff(c, d, fn, env);
    case Call(f, args) =>
      CoveredBoth(c, AtomUses(f, sc, c.me), AtomsUses(args, sc, c.me));
      AtomReadsIff(c, d, f, env);
      AtomsReadIff(c, d, args, env);
    case Prim(_, l, r) =>
      CoveredBoth(c, AtomUses(l, sc, c.me), AtomUses(r, sc, c.me));
      AtomReadsIff(c, d, l, env);
      AtomReadsIff(c, d, r, env);
  }

  // ----- evaluation in another frame -----

  /** The address a C name stands for; -1 when it is undeclared. */
  function Lookup(f: Frame, n: CName): int { Address(if n.boxed then CBox(n.x) else CSlot(n.x), f) }

  /** These names, and the upvalues, are the same cells in both frames. */
  ghost predicate SameCells(f: Frame, g: Frame, ns: set<CName>)
  {
    f.ups == g.ups && forall n :: n in ns ==> Lookup(f, n) == Lookup(g, n)
  }

  lemma AtomInFrame(top: CTable, a: CAtom, f: Frame, g: Frame, mem: CMemory)
    requires SameCells(f, g, AtomNames(a))
    ensures CRead(top, a, f, mem) == CRead(top, a, g, mem)
  {
    if a.CSlot? { assert Lookup(f, CName(a.x, false)) == Lookup(g, CName(a.x, false)); }
    if a.CBox? { assert Lookup(f, CName(a.x, true)) == Lookup(g, CName(a.x, true)); }
  }

  lemma {:induction false} AtomsInFrame(top: CTable, es: seq<CAtom>, f: Frame, g: Frame, mem: CMemory)
    requires SameCells(f, g, AtomsNames(es))
    ensures CReads(top, es, f, mem) == CReads(top, es, g, mem)
  {
    if es != [] {
      AtomInFrame(top, es[0], f, g, mem);
      AtomsInFrame(top, es[1..], f, g, mem);
    }
  }

  lemma PtrsInFrame(ups: seq<CPtr>, f: Frame, g: Frame)
    requires SameCells(f, g, set p <- ups | p.BoxPtr? :: CName(p.x, true))
    ensures Ptrs(ups, f) == Ptrs(ups, g)
  {
    forall i | 0 <= i < |ups| ensures PtrValue(ups[i], f) == PtrValue(ups[i], g) {
      if ups[i].BoxPtr? {
        assert ups[i] in ups;
        assert Lookup(f, CName(ups[i].x, true)) == Lookup(g, CName(ups[i].x, true));
      }
    }
  }

  lemma RhsInFrame(w: World, top: CTable, rhs: CRhs, f: Frame, g: Frame, mem: CMemory, fuel: nat)
    requires SameCells(f, g, ReadNames(rhs))
    ensures CEval(w, top, rhs, f, mem, fuel) == CEval(w, top, rhs, g, mem, fuel)
  {
    match rhs
    case CVal(a) => AtomInFrame(top, a, f, g, mem);
    case CMake(_, ups) => PtrsInFrame(ups, f, g);
    case CCall(h, args) => AtomInFrame(top, h, f, g, mem); AtomsInFrame(top, args, f, g, mem);
    case CPrim(_, l, r) => AtomInFrame(top, l, f, g, mem); AtomInFrame(top, r, f, g, mem);
  }

  lemma DeclareBoth(f: Frame, g: Frame, ns: set<CName>, x: string, boxed: bool, addr: nat)
    requires SameCells(f, g, ns)
    ensures SameCells(Declare(f, x, boxed, addr), Declare(g, x, boxed, addr), ns)
  {
    var f1, g1 := Declare(f, x, boxed, addr), Declare(g, x, boxed, addr);
    forall n | n in ns ensures Lookup(f1, n) == Lookup(g1, n) {
      assert Lookup(f, n) == Lookup(g, n);
    }
  }

  lemma DeclaredFirst(w: World, top: CTable, x: string, boxed: bool, rhs: CRhs, f: Frame, mem: CMemory, fuel: nat)
    requires Inline(rhs)
    ensures var f1 := Declare(f, x, boxed, |mem|);
            var o := CEval(w, top, rhs, f1, mem + [Junk], fuel);
            CStep(w, top, CDeclare(x, boxed, false, rhs), f, mem, fuel) ==
            if o.CDone? then CDone(Next(f1), mem + [o.v])
            else if o.CRaised? then CRaised(o.mem) else if o.CDry? then CDry else Stuck
  {
  }

  lemma DeclaredLast(w: World, top: CTable, x: string, boxed: bool, early: bool, rhs: CRhs, f: Frame, mem: CMemory, fuel: nat)
    requires early || !Inline(rhs)
    ensures var o := CEval(w, top, rhs, f, mem, fuel);
            CStep(w, top, CDeclare(x, boxed, early, rhs), f, mem, fuel) ==
            if o.CDone? then CDone(Next(Declare(f, x, boxed, |o.mem|)), o.mem + [o.v])
            else if o.CRaised? then CRaised(o.mem) else if o.CDry? then CDry else Stuck
  {
  }

  /** A declaration does the same from a frame in which its initialiser reads the same cells. */
  lemma DeclareInFrame(w: World, top: CTable, x: string, boxed: bool, early: bool, rhs: CRhs, f: Frame, g: Frame,
                       mem: CMemory, fuel: nat)
    requires SameCells(f, g, ReadNames(rhs))
    ensures var o := CStep(w, top, CDeclare(x, boxed, early, rhs), f, mem, fuel);
            CStep(w, top, CDeclare(x, boxed, early, rhs), g, mem, fuel) ==
            if o.CDone? && o.mem != [] then CDone(Next(Declare(g, x, boxed, |o.mem| - 1)), o.mem) else o
  {
    if Inline(rhs) && !early {
      DeclareBoth(f, g, ReadNames(rhs), x, boxed, |mem|);
      var f1, g1 := Declare(f, x, boxed, |mem|), Declare(g, x, boxed, |mem|);
      RhsInFrame(w, top, rhs, f1, g1, mem + [Junk], fuel);
      DeclaredFirst(w, top, x, boxed, rhs, f, mem, fuel);
      DeclaredFirst(w, top, x, boxed, rhs, g, mem, fuel);
    } else {
      RhsInFrame(w, top, rhs, f, g, mem, fuel);
      DeclaredLast(w, top, x, boxed, early, rhs, f, mem, fuel);
      DeclaredLast(w, top, x, boxed, early, rhs, g, mem, fuel);
    }
  }

  // ----- which cells the initialisers of a list read -----

  /** Whether initialiser `j` is computed before its own name is declared; `after` is the scope in front of the list. */
  predicate Before(c: Ctx, inits: seq<Init>, j: nat, after: Scope)
    requires j < |inits|
  {
    || inits[j].rhs.Call? || inits[j].rhs.Prim?
    || (inits[j].num && DefOf(inits[j], c.me) !in c.captured && inits[j].x in AfterNames(c, inits[..j], after))
  }

  function AfterNames(c: Ctx, inits: seq<Init>, after: Scope): Scope
  {
    if inits == [] then after else AfterNames(c, inits[1..], after[inits[0].x := DefOf(inits[0], c.me)])
  }

  /** Initialiser `j` mentions no name the list declares before it, and its own only when it is computed before. */
  predicate CleanAt(c: Ctx, inits: seq<Init>, j: nat, sc: Scope, after: Scope)
    requires j < |inits|
  {
    && (forall i :: 0 <= i < j ==> !Reads(c, DefOf(inits[i], c.me), inits[j].rhs, sc))
    && (Reads(c, DefOf(inits[j], c.me), inits[j].rhs, sc) ==> Before(c, inits, j, after))
  }

  predicate ListClean(c: Ctx, inits: seq<Init>, sc: Scope, after: Scope)
  {
    forall j :: 0 <= j < |inits| ==> CleanAt(c, inits, j, sc, after)
  }

  /** The C variables after the names of the list, declared at these addresses. */
  function FrameAfter(c: Ctx, inits: seq<Init>, f: Frame, cells: seq<nat>): Frame
    requires |cells| == |inits|
  {
    if inits == [] then f
    else
      var d := DefOf(inits[0], c.me);
      FrameAfter(c, inits[1..], Declare(f, d.name, d in c.captured, cells[0]), cells[1..])
  }

  /** The C variables that initialiser `j` sees. */
  function SeenBy(c: Ctx, inits: seq<Init>, j: nat, f: Frame, cells: seq<nat>, after: Scope): Frame
    requires |cells| == |inits| && j < |inits|
  {
    var g := FrameAfter(c, inits[..j], f, cells[..j]);
    var d := DefOf(inits[j], c.me);
    if Before(c, inits, j, after) then g else Declare(g, d.name, d in c.captured, cells[j])
  }

  predicate Names(c: Ctx, inits: seq<Init>, n: CName)
  {
    exists i :: 0 <= i < |inits| && NameOfDef(c, DefOf(inits[i], c.me)) == n
  }

  lemma {:induction false} LookupAfter(c: Ctx, inits: seq<Init>, f: Frame, cells: seq<nat>, base: nat, n: CName)
    requires |cells| == |inits| && forall i :: 0 <= i < |cells| ==> base <= cells[i]
    ensures var g := FrameAfter(c, inits, f, cells);
            g.ups == f.ups && if Names(c, inits, n) then base <= Lookup(g, n) else Lookup(g, n) == Lookup(f, n)
  {
    if inits != [] {
      var d, t := DefOf(inits[0], c.me), inits[1..];
      LookupAfter(c, t, Declare(f, d.name, d in c.captured, cells[0]), cells[1..], base, n);
      assert forall i :: 0 <= i < |t| ==> t[i] == inits[i + 1];
      assert Names(c, inits, n) <==> NameOfDef(c, d) == n || Names(c, t, n) by {
        if i :| 0 <= i < |inits| && NameOfDef(c, DefOf(inits[i], c.me)) == n {
          if i > 0 { assert NameOfDef(c, DefOf(t[i - 1], c.me)) == n; }
        }
      }
    }
  }

  lemma AtomNamesPlaced(c: Ctx, env: Env, f: Frame, n: nat, a: Atom)
    requires Framed(c, env, f, n) && Covered(c, AtomUses(a, Defs(env), c.me))
    ensures forall x <- AtomNames(CompileAtom(c, a, Defs(env))) :: Lookup(f, x) < n
  {
    if a.Var? && a.x in env { VarAddress(c, env, f, n, a.x); }
  }

  lemma {:induction false} AtomsNamesPlaced(c: Ctx, env: Env, f: Frame, n: nat, es: seq<Atom>)
    requires Framed(c, env, f, n) && Covered(c, AtomsUses(es, Defs(env), c.me))
    ensures forall x <- AtomsNames(CompileAtoms(c, es, Defs(env))) :: Lookup(f, x) < n
  {
    if es != [] {
      var sc := Defs(env);
      CoveredBoth(c, AtomUses(es[0], sc, c.me), AtomsUses(es[1..], sc, c.me));
      AtomNamesPlaced(c, env, f, n, es[0]);
      AtomsNamesPlaced(c, env, f, n, es[1..]);
      assert CompileAtoms(c, es, sc)[1..] == CompileAtoms(c, es[1..], sc);
    }
  }

  /** Around the list, the names an initialiser reads stand for cells that exist already. */
  lemma NamesPlaced(c: Ctx, env: Env, f: Frame, n: nat, rhs: Rhs)
    requires Framed(c, env, f, n) && Covered(c, RhsUses(rhs, Defs(env), c.me))
    ensures forall x <- ReadNames(CompileRhs(c, rhs, Defs(env))) :: Lookup(f, x) < n
  {
    var sc := Defs(env);
    match rhs
    case Val(a) => AtomNamesPlaced(c, env, f, n, a);
    case Closure(fn) =>
      var ds := Captures(fn, sc, c.me);
      forall x | x in ReadNames(CompileRhs(c, rhs, sc)) ensures Lookup(f, x) < n {
        var i :| 0 <= i < |ds| && CompilePtr(c, ds[i]) == BoxPtr(x.x);
        PointerIsLive(c, env, f, n, fn, ds[i]);
      }
    case Call(g, args) =>
      CoveredBoth(c, AtomUses(g, sc, c.me), AtomsUses(args, sc, c.me));
      AtomNamesPlaced(c, env, f, n, g);
      AtomsNamesPlaced(c, env, f, n, args);
    case Prim(_, l, r) =>
      CoveredBoth(c, AtomUses(l, sc, c.me), AtomUses(r, sc, c.me));
      AtomNamesPlaced(c, env, f, n, l);
      AtomNamesPlaced(c, env, f, n, r);
  }

  lemma SeenLookup(c: Ctx, inits: seq<Init>, j: nat, f: Frame, cells: seq<nat>, after: Scope, base: nat, n: CName)
    requires |cells| == |inits| && j < |inits| && forall i :: 0 <= i < |cells| ==> base <= cells[i]
    ensures var g := SeenBy(c, inits, j, f, cells, after);
            var declared := Names(c, inits[..j], n) || (!Before(c, inits, j, after) && NameOfDef(c, DefOf(inits[j], c.me)) == n);
            g.ups == f.ups && if declared then base <= Lookup(g, n) else Lookup(g, n) == Lookup(f, n)
  {
    LookupAfter(c, inits[..j], f, cells[..j], base, n);
  }

  /** Initialiser `j` reads the cells its names stand for around the list exactly when it is clean. */
  lemma CleanAtIff(c: Ctx, inits: seq<Init>, j: nat, env: Env, f: Frame, n: nat, cells: seq<nat>, after: Scope)
    requires Framed(c, env, f, n) && |cells| == |inits| && j < |inits| && forall i :: 0 <= i < |cells| ==> n <= cells[i]
    requires Covered(c, RhsUses(inits[j].rhs, Defs(env), c.me))
    ensures SameCells(f, SeenBy(c, inits, j, f, cells, after), ReadNames(CompileRhs(c, inits[j].rhs, Defs(env)))) <==>
            CleanAt(c, inits, j, Defs(env), after)
  {
    var sc, rhs := Defs(env), inits[j].rhs;
    var g, ns := SeenBy(c, inits, j, f, cells, after), ReadNames(CompileRhs(c, rhs, sc));
    NamesPlaced(c, env, f, n, rhs);
    SeenLookup(c, inits, j, f, cells, after, n, CName("", false));
    forall i | 0 <= i <= j ensures Reads(c, DefOf(inits[i], c.me), rhs, sc) <==> NameOfDef(c, DefOf(inits[i], c.me)) in ns {
      ReadsIff(c, DefOf(inits[i], c.me), rhs, env);
    }
    forall x | x in ns
      ensures Lookup(f, x) == Lookup(g, x) <==>
              !Names(c, inits[..j], x) && (NameOfDef(c, DefOf(inits[j], c.me)) == x ==> Before(c, inits, j, after))
    {
      SeenLookup(c, inits, j, f, cells, after, n, x);
    }
    if SameCells(f, g, ns) {
      forall i | 0 <= i < j ensures !Reads(c, DefOf(inits[i], c.me), rhs, sc) {
        var x := NameOfDef(c, DefOf(inits[i], c.me));
        assert inits[..j][i] == inits[i];
        assert Names(c, inits[..j], x);
      }
    }
  }

  /** So every initialiser of the list reads the cells of the variables it mentions if and only if none mentions a name
      the list has declared by then under the same C name. */
  lemma ListReadsIff(c: Ctx, inits: seq<Init>, env: Env, f: Frame, n: nat, cells: seq<nat>)
    requires Framed(c, env, f, n) && |cells| == |inits| && forall i :: 0 <= i < |cells| ==> n <= cells[i]
    requires forall j :: 0 <= j < |inits| ==> Covered(c, RhsUses(inits[j].rhs, Defs(env), c.me))
    ensures (forall j :: 0 <= j < |inits| ==>
               SameCells(f, SeenBy(c, inits, j, f, cells, Defs(env)), ReadNames(CompileRhs(c, inits[j].rhs, Defs(env))))) <==>
            ListClean(c, inits, Defs(env), Defs(env))
  {
    forall j | 0 <= j < |inits|
      ensures SameCells(f, SeenBy(c, inits, j, f, cells, Defs(env)), ReadNames(CompileRhs(c, inits[j].rhs, Defs(env)))) <==>
              CleanAt(c, inits, j, Defs(env), Defs(env))
    {
      CleanAtIff(c, inits, j, env, f, n, cells, Defs(env));
    }
  }

  // ----- the list as a whole -----

  lemma CleanTail(c: Ctx, inits: seq<Init>, sc: Scope, after: Scope)
    requires inits != [] && ListClean(c, inits, sc, after)
    ensures var d := DefOf(inits[0], c.me);
            && ListClean(c, inits[1..], sc, after[d.name := d])
            && (forall i :: 0 <= i < |inits[1..]| ==> !Reads(c, d, inits[1..][i].rhs, sc))
            && (Reads(c, d, inits[0].rhs, sc) && (inits[0].rhs.Val? || inits[0].rhs.Closure?) ==>
                  Early(c, d, inits[0].num, after))
  {
    var d, t := DefOf(inits[0], c.me), inits[1..];
    assert CleanAt(c, inits, 0, sc, after) && inits[..0] == [];
    forall j | 0 <= j < |t| ensures CleanAt(c, t, j, sc, after[d.name := d]) && !Reads(c, d, t[j].rhs, sc) {
      assert t[j] == inits[j + 1] && CleanAt(c, inits, j + 1, sc, after);
      assert inits[..j + 1][0] == inits[0] && inits[..j + 1][1..] == t[..j];
      forall i | 0 <= i < j ensures !Reads(c, DefOf(t[i], c.me), t[j].rhs, sc) {
        assert t[i] == inits[i + 1];
      }
    }
  }

  ghost predicate ListReady(c: Ctx, inits: seq<Init>, sc: Scope)
  {
    forall i :: 0 <= i < |inits| ==> Covered(c, RhsUses(inits[i].rhs, sc, c.me)) && RhsClean(c, inits[i].rhs, sc)
  }

  /** The initialisers still to come read the same cells in `g` as in `f`. */
  ghost predicate StillReads(c: Ctx, inits: seq<Init>, sc: Scope, f: Frame, g: Frame)
  {
    forall i :: 0 <= i < |inits| ==> SameCells(f, g, ReadNames(CompileRhs(c, inits[i].rhs, sc)))
  }

  lemma StillReadsAfter(c: Ctx, inits: seq<Init>, env: Env, f: Frame, g: Frame, n: nat, addr: nat)
    requires inits != [] && Framed(c, env, f, n) && ListReady(c, inits, Defs(env)) && StillReads(c, inits, Defs(env), f, g)
    requires var d := DefOf(inits[0], c.me);
             forall i :: 0 <= i < |inits[1..]| ==> !Reads(c, d, inits[1..][i].rhs, Defs(env))
    ensures var d := DefOf(inits[0], c.me);
            StillReads(c, inits[1..], Defs(env), f, Declare(g, d.name, d in c.captured, addr))
  {
    var d, t := DefOf(inits[0], c.me), inits[1..];
    var g1 := Declare(g, d.name, d in c.captured, addr);
    forall i | 0 <= i < |t| ensures SameCells(f, g1, ReadNames(CompileRhs(c, t[i].rhs, Defs(env)))) {
      assert t[i] == inits[i + 1];
      ReadsIff(c, d, t[i].rhs, env);
      var ns := ReadNames(CompileRhs(c, t[i].rhs, Defs(env)));
      forall x | x in ns ensures Lookup(f, x) == Lookup(g1, x) {
        assert x != NameOfDef(c, d) && Lookup(f, x) == Lookup(g, x);
      }
    }
  }

  lemma SelfReadIsRead(c: Ctx, d: Def, rhs: Rhs, sc: Scope)
    ensures SelfRead(c, d, rhs, sc) <==> Reads(c, d, rhs, sc) && (rhs.Val? || rhs.Closure?)
  {
  }

  /** How a declaration ends when its initialiser ended so. */
  function Declared(co: COutcome<CValue>, f: Frame, x: string, boxed: bool): COutcome<Flow<Frame, CValue>>
  {
    if co.CDone? then CDone(Next(Declare(f, x, boxed, |co.mem|)), co.mem + [co.v])
    else if co.CRaised? then CRaised(co.mem)
    else CDry
  }

  /** A declaration that is evaluate-then-declare from `f` is so from `g`. */
  lemma DeclaredElsewhere(w: World, top: CTable, x: string, boxed: bool, early: bool, rhs: CRhs, f: Frame, g: Frame,
                          mem: CMemory, fuel: nat)
    requires SameCells(f, g, ReadNames(rhs))
    requires CStep(w, top, CDeclare(x, boxed, early, rhs), f, mem, fuel) == Declared(CEval(w, top, rhs, f, mem, fuel), f, x, boxed)
    ensures CStep(w, top, CDeclare(x, boxed, early, rhs), g, mem, fuel) == Declared(CEval(w, top, rhs, f, mem, fuel), g, x, boxed)
  {
    DeclareInFrame(w, top, x, boxed, early, rhs, f, g, mem, fuel);
  }

  /** One declaration of the list, from the frame the earlier ones left. */
  lemma DeclareNext(w: World, c: Ctx, top: Top, ctop: CTable, init: Init, env: Env, bound: Env, f: Frame, g: Frame,
                    mem: Memory, cmem: CMemory, fuel: nat)
    requires Sim(c, top, ctop, env, f, mem, cmem) && Framed(c, bound, g, |mem|)
    requires Covered(c, RhsUses(init.rhs, Defs(env), c.me)) && RhsClean(c, init.rhs, Defs(env))
    requires SameCells(f, g, ReadNames(CompileRhs(c, init.rhs, Defs(env))))
    requires var d := DefOf(init, c.me);
             Reads(c, d, init.rhs, Defs(env)) && (init.rhs.Val? || init.rhs.Closure?) ==> Early(c, d, init.num, Defs(bound))
    ensures var d := DefOf(init, c.me);
            var boxed := d in c.captured;
            var o := EvalRhs(w, top, init.rhs, env, mem, c.me, fuel);
            var co := CStep(w, ctop, CDeclare(d.name, boxed, Early(c, d, init.num, Defs(bound)),
                                              CompileRhs(c, init.rhs, Defs(env))), g, cmem, fuel);
            if o.Done? then
              && co.CDone? && co.v == Next(Declare(g, d.name, boxed, |o.mem|))
              && SameMem(c.captured, c.top, o.mem + [o.v], co.mem) && |mem| <= |o.mem|
            else if o.Raised? then co.CRaised? && SameMem(c.captured, c.top, o.mem, co.mem) && |mem| <= |o.mem|
            else co.CDry?
  {
    var d := DefOf(init, c.me);
    var early, crhs := Early(c, d, init.num, Defs(bound)), CompileRhs(c, init.rhs, Defs(env));
    RhsIsSame(w, c, top, ctop, init.rhs, env, f, mem, cmem, fuel);
    SelfReadIsRead(c, d, init.rhs, Defs(env));
    DeclareInC(w, c, ctop, env, f, cmem, d, init.rhs, early, fuel);
    DeclaredElsewhere(w, ctop, d.name, d in c.captured, early, crhs, f, g, cmem, fuel);
    var o := EvalRhs(w, top, init.rhs, env, mem, c.me, fuel);
    if o.Done? {
      var co := CEval(w, ctop, crhs, f, cmem, fuel);
      SameMemAppend(c.captured, c.top, o.mem, co.mem, o.v, co.v);
    }
  }

  /** One name on each side. */
  lemma NextName(w: World, c: Ctx, top: Top, ctop: CTable, inits: seq<Init>, sc: Scope, env: Env, bound: Env, g: Frame,
                 mem: Memory, cmem: CMemory, fuel: nat)
    requires inits != []
    ensures var d := DefOf(inits[0], c.me);
            var o := EvalRhs(w, top, inits[0].rhs, env, mem, c.me, fuel);
            EvalList(w, top, inits, env, bound, mem, c.me, fuel) ==
            if o.Done? then EvalList(w, top, inits[1..], env, bound[d.name := Bind(|o.mem|, d)], o.mem + [o.v], c.me, fuel)
            else if o.Raised? then Raised(o.mem) else Dry
    ensures var d := DefOf(inits[0], c.me);
            var s := CDeclare(d.name, d in c.captured, Early(c, d, inits[0].num, Defs(bound)), CompileRhs(c, inits[0].rhs, sc));
            var co := CStep(w, ctop, s, g, cmem, fuel);
            CRun(w, ctop, CompileList(c, inits, sc, Defs(bound)), g, cmem, fuel) ==
            if co.CDone? && co.v.Next? then
              CRun(w, ctop, CompileList(c, inits[1..], sc, Defs(bound)[d.name := d]), co.v.env, co.mem, fuel)
            else co
  {
    var d := DefOf(inits[0], c.me);
    assert CompileList(c, inits, sc, Defs(bound))[1..] == CompileList(c, inits[1..], sc, Defs(bound)[d.name := d]);
  }

  lemma {:induction false} RestIsSame(w: World, c: Ctx, top: Top, ctop: CTable, inits: seq<Init>, env: Env, bound: Env,
                                      f: Frame, g: Frame, mem: Memory, cmem: CMemory, fuel: nat)
    requires Sim(c, top, ctop, env, f, mem, cmem) && Framed(c, bound, g, |mem|)
    requires ListReady(c, inits, Defs(env)) && ListClean(c, inits, Defs(env), Defs(bound))
    requires StillReads(c, inits, Defs(env), f, g)
    ensures SameFlow(c, EvalList(w, top, inits, env, bound, mem, c.me, fuel),
                     CRun(w, ctop, CompileList(c, inits, Defs(env), Defs(bound)), g, cmem, fuel), |mem|)
    decreases |inits|
  {
    if inits != [] {
      var d := DefOf(inits[0], c.me);
      CleanTail(c, inits, Defs(env), Defs(bound));
      DeclareNext(w, c, top, ctop, inits[0], env, bound, f, g, mem, cmem, fuel);
      NextName(w, c, top, ctop, inits, Defs(env), env, bound, g, mem, cmem, fuel);
      var o := EvalRhs(w, top, inits[0].rhs, env, mem, c.me, fuel);
      if o.Done? {
        var g1 := Declare(g, d.name, d in c.captured, |o.mem|);
        FramedGrows(c, env, f, |mem|, |o.mem| + 1);
        FramedGrows(c, bound, g, |mem|, |o.mem|);
        DeclareFramed(c, bound, g, |o.mem|, d, d.name);
        StillReadsAfter(c, inits, env, f, g, |mem|, |o.mem|);
        var co := CStep(w, ctop, CompileList(c, inits, Defs(env), Defs(bound))[0], g, cmem, fuel);
        RestIsSame(w, c, top, ctop, inits[1..], env, bound[d.name := Bind(|o.mem|, d)], f, g1, o.mem + [o.v], co.mem, fuel);
      }
    }
  }

  /** A clean list: declaring name by name ends like evaluating the whole list and binding its names. */
  lemma ListIsSame(w: World, c: Ctx, top: Top, ctop: CTable, inits: seq<Init>, env: Env, f: Frame,
                   mem: Memory, cmem: CMemory, fuel: nat)
    requires Sim(c, top, ctop, env, f, mem, cmem)
    requires ListReady(c, inits, Defs(env)) && ListClean(c, inits, Defs(env), Defs(env))
    ensures SameFlow(c, EvalList(w, top, inits, env, env, mem, c.me, fuel),
                     CRun(w, ctop, CompileList(c, inits, Defs(env), Defs(env)), f, cmem, fuel), |mem|)
  {
    RestIsSame(w, c, top, ctop, inits, env, env, f, f, mem, cmem, fuel);
  }

  /** `do local a, b = b, a end` with a = 1 and b = 2, typed or not: Lua swaps the values, C makes both 2. */
  lemma SwapInDeclaration(w: World, top: Top, ctop: CTable, num: bool, fuel: nat)
    ensures var c := Ctx({}, top.Keys, [0], []);
            var inits := [Init(2, "a", Val(Var("b")), num), Init(3, "b", Val(Var("a")), num)];
            var env: Env := map["a" := Bind(0, Def(0, "a", [0])), "b" := Bind(1, Def(1, "b", [0]))];
            var f := Frame(map[], map["a" := 0, "b" := 1], []);
            var cs := CompileList(c, inits, Defs(env), Defs(env));
            var o := EvalList(w, top, inits, env, env, [Data(1), Data(2)], [0], fuel);
            var co := CRun(w, ctop, cs, f, [CData(1), CData(2)], fuel);
            && AcceptedBlock(cs, {}) && !ListClean(c, inits, Defs(env), Defs(env))
            && o.Done? && o.mem == [Data(1), Data(2), Data(2), Data(1)]
            && co.CDone? && co.mem == [CData(1), CData(2), CData(2), CData(2)]
  {
    var c := Ctx({}, top.Keys, [0], []);
    var first, second := Init(2, "a", Val(Var("b")), num), Init(3, "b", Val(Var("a")), num);
    var inits := [first, second];
    var env: Env := map["a" := Bind(0, Def(0, "a", [0])), "b" := Bind(1, Def(1, "b", [0]))];
    var sc := Defs(env);
    assert inits[1..] == [second] && [second][1..] == [];
    assert Reads(c, DefOf(inits[0], c.me), inits[1].rhs, sc);
    assert !CleanAt(c, inits, 1, sc, sc);
    SwapInLua(w, top, num, fuel);
    SwapCompiles(c, num, sc);
    SwapInC(w, ctop, num, fuel);
  }

  lemma SwapInLua(w: World, top: Top, num: bool, fuel: nat)
    ensures var inits := [Init(2, "a", Val(Var("b")), num), Init(3, "b", Val(Var("a")), num)];
            var env: Env := map["a" := Bind(0, Def(0, "a", [0])), "b" := Bind(1, Def(1, "b", [0]))];
            var o := EvalList(w, top, inits, env, env, [Data(1), Data(2)], [0], fuel);
            o.Done? && o.mem == [Data(1), Data(2), Data(2), Data(1)]
  {
    var first, second := Init(2, "a", Val(Var("b")), num), Init(3, "b", Val(Var("a")), num);
    var env: Env := map["a" := Bind(0, Def(0, "a", [0])), "b" := Bind(1, Def(1, "b", [0]))];
    assert [first, second][1..] == [second] && [second][1..] == [];
    var m: Memory := [Data(1), Data(2)];
    assert EvalRhs(w, top, first.rhs, env, m, [0], fuel) == Done(Data(2), m);
    assert EvalRhs(w, top, second.rhs, env, m + [Data(2)], [0], fuel) == Done(Data(1), m + [Data(2)]);
    var env1 := env["a" := Bind(2, DefOf(first, [0]))];
    var env2 := env1["b" := Bind(3, DefOf(second, [0]))];
    var m2 := m + [Data(2)] + [Data(1)];
    assert EvalList(w, top, [], env, env2, m2, [0], fuel) == Done(Next(env2), m2);
    assert EvalList(w, top, [second], env, env1, m + [Data(2)], [0], fuel) == Done(Next(env2), m2);
  }

  lemma SwapCompiles(c: Ctx, num: bool, sc: Scope)
    requires c.captured == {} && sc.Keys == {"a", "b"} && c.me == [0]
    ensures CompileList(c, [Init(2, "a", Val(Var("b")), num), Init(3, "b", Val(Var("a")), num)], sc, sc) ==
            [CDeclare("a", false, num, CVal(CSlot("b"))), CDeclare("b", false, num, CVal(CSlot("a")))]
  {
    var first, second := Init(2, "a", Val(Var("b")), num), Init(3, "b", Val(Var("a")), num);
    var d := DefOf(first, c.me);
    assert [first, second][1..] == [second] && [second][1..] == [];
    var s1, s2 := CDeclare("a", false, num, CVal(CSlot("b"))), CDeclare("b", false, num, CVal(CSlot("a")));
    assert CompileList(c, [second], sc, sc["a" := d]) == [s2] + [];
    assert CompileList(c, [first, second], sc, sc) == [s1] + [s2];
  }

  lemma SwapInC(w: World, ctop: CTable, num: bool, fuel: nat)
    ensures var cs := [CDeclare("a", false, num, CVal(CSlot("b"))), CDeclare("b", false, num, CVal(CSlot("a")))];
            var co := CRun(w, ctop, cs, Frame(map[], map["a" := 0, "b" := 1], []), [CData(1), CData(2)], fuel);
            && AcceptedBlock(cs, {})
            && co.CDone? && co.mem == [CData(1), CData(2), CData(2), CData(2)]
  {
    var s1, s2 := CDeclare("a", false, num, CVal(CSlot("b"))), CDeclare("b", false, num, CVal(CSlot("a")));
    var f := Frame(map[], map["a" := 0, "b" := 1], []);
    var m: CMemory := [CData(1), CData(2)];
    var f1 := Declare(f, "a", false, 2);
    assert [s1, s2][1..] == [s2] && [s2][1..] == [];
    assert CStep(w, ctop, s1, f, m, fuel) == CDone(Next(f1), m + [CData(2)]);
    assert CStep(w, ctop, s2, f1, m + [CData(2)], fuel) == CDone(Next(Declare(f1, "b", false, 3)), m + [CData(2)] + [CData(2)]);
    assert CRun(w, ctop, [], Declare(f1, "b", false, 3), m + [CData(2)] + [CData(2)], fuel).CDone?;
    var a, b := CName("a", false), CName("b", false);
    assert AcceptedStmt(s1) && AcceptedStmt(s2);
    assert AcceptedBlock([], {} + {a} + {b});
    assert AcceptedBlock([s2], {} + {a});
  }
}
