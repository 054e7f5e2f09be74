/** Loops, `break`, `continue`, `goto` and labels, and the C they are lowered to. */
module ControlFlow {
  import opened Options

  // ----- the source -----

  datatype Stmt =
    | Act(id: nat)
    | Return
    | Break
    | Continue
    | Goto(l: string)
    | Label(l: string)
    | Block(body: seq<Stmt>)
    | If(c: nat, thn: seq<Stmt>, els: seq<Stmt>)
    | While(c: nat, inHeader: bool, body: seq<Stmt>)   // whether the guard fits the C loop header
    | Repeat(body: seq<Stmt>, c: nat)
    | TypedFor(id: nat, body: seq<Stmt>)
    | DynamicFor(id: nat, body: seq<Stmt>)
    | ForIn(id: nat, body: seq<Stmt>)
    | ForEach(id: nat, skips: bool, body: seq<Stmt>)   // over pairs (passes empty entries over) or ipairs (ends at one)

  /** What the pieces of a program do to a state; every test may have effects. */
  datatype World<!S> = World(
    act: (nat, S) -> S,
    cond: (nat, S) -> (bool, S),
    test: (nat, S) -> (bool, S), step: (nat, S) -> S,         // header of a typed numeric for, or over entry numbers
    begin: (nat, S) -> (bool, S), advance: (nat, S) -> (bool, S), // a dynamic numeric for
    fetch: (nat, S) -> (bool, S))                             // the next element of a for-in, or the entry at hand

  /** How a statement ends. `Dry` is running out of the bound on backward jumps and loop rounds. */
  datatype End<+S> = Normal(st: S) | Broke(st: S) | Continued(st: S) | Jumped(l: string, st: S) | Returned(st: S) | Dry

  predicate HasLabel(ss: seq<Stmt>, l: string) { Label(l) in ss }

  function LabelIndex(ss: seq<Stmt>, l: string): (i: nat)
    requires HasLabel(ss, l)
    ensures i < |ss| && ss[i] == Label(l)
  {
    if ss[0] == Label(l) then 0 else 1 + LabelIndex(ss[1..], l)
  }

  function Step<S>(w: World<S>, s: Stmt, st: S, fuel: nat): End<S>
    decreases fuel, s, 0
  {
    match s
    case Act(id) => Normal((w.act)(id, st))
    case Return => Returned(st)
    case Break => Broke(st)
    case Continue => Continued(st)
    case Goto(l) => Jumped(l, st)
    case Label(_) => Normal(st)
    case Block(body) => Run(w, body, 0, st, fuel)
    case If(c, thn, els) =>
      var (b, s1) := (w.cond)(c, st);
      if b then Run(w, thn, 0, s1, fuel) else Run(w, els, 0, s1, fuel)
    case While(c, _, body) =>
      if fuel == 0 then Dry
      else
        var (b, s1) := (w.cond)(c, st);
        if !b then Normal(s1)
        else
          (match Run(w, body, 0, s1, fuel)
           case Normal(s2) => Step(w, s, s2, fuel - 1)
           case Continued(s2) => Step(w, s, s2, fuel - 1)
           case Broke(s2) => Normal(s2)
           case x => x)
    case Repeat(body, c) =>
      if fuel == 0 then Dry
      else
        (match Run(w, body, 0, st, fuel)
         case Normal(s1) => var (b, s2) := (w.cond)(c, s1); if b then Normal(s2) else Step(w, s, s2, fuel - 1)
         case Continued(s1) => var (b, s2) := (w.cond)(c, s1); if b then Normal(s2) else Step(w, s, s2, fuel - 1)
         case Broke(s1) => Normal(s1)
         case x => x)
    case TypedFor(id, body) => TypedRounds(w, id, body, st, fuel)
    case DynamicFor(id, body) =>
      var (b, s1) := (w.begin)(id, st);
      if b then DynamicRounds(w, id, body, s1, fuel) else Normal(s1)
    case ForIn(id, body) =>
      if fuel == 0 then Dry
      else
        var (b, s1) := (w.fetch)(id, st);
        if !b then Normal(s1)
        else
          (match Run(w, body, 0, s1, fuel)
           case Normal(s2) => Step(w, s, s2, fuel - 1)
           case Continued(s2) => Step(w, s, s2, fuel - 1)
           case Broke(s2) => Normal(s2)
           case x => x)
    case ForEach(id, skips, body) => EntryRounds(w, id, skips, body, st, fuel)
  }

  /** One round an entry number: an empty entry is passed over or ends the loop, and the body does not see it. */
  function EntryRounds<S>(w: World<S>, id: nat, skips: bool, body: seq<Stmt>, st: S, fuel: nat): End<S>
    decreases fuel, body, |body| + 1
  {
    if fuel == 0 then Dry
    else
      var (more, s1) := (w.test)(id, st);
      if !more then Normal(s1)
      else
        var (present, s2) := (w.fetch)(id, s1);
        if !present then (if skips then EntryRounds(w, id, skips, body, (w.step)(id, s2), fuel - 1) else Normal(s2))
        else match Run(w, body, 0, s2, fuel)
          case Normal(s3) => EntryRounds(w, id, skips, body, (w.step)(id, s3), fuel - 1)
          case Continued(s3) => EntryRounds(w, id, skips, body, (w.step)(id, s3), fuel - 1)
          case Broke(s3) => Normal(s3)
          case x => x
  }

  /** A numeric for tests, runs its body, and steps; `continue` steps. */
  function TypedRounds<S>(w: World<S>, id: nat, body: seq<Stmt>, st: S, fuel: nat): End<S>
    decreases fuel, body, |body| + 1
  {
    if fuel == 0 then Dry
    else
      var (b, s1) := (w.test)(id, st);
      if !b then Normal(s1)
      else match Run(w, body, 0, s1, fuel)
        case Normal(s2) => TypedRounds(w, id, body, (w.step)(id, s2), fuel - 1)
        case Continued(s2) => TypedRounds(w, id, body, (w.step)(id, s2), fuel - 1)
        case Broke(s2) => Normal(s2)
        case x => x
  }

  function DynamicRounds<S>(w: World<S>, id: nat, body: seq<Stmt>, st: S, fuel: nat): End<S>
    decreases fuel, body, |body| + 1
  {
    if fuel == 0 then Dry
    else match Run(w, body, 0, st, fuel)
      case Normal(s2) => var (b, s3) := (w.advance)(id, s2); if b then DynamicRounds(w, id, body, s3, fuel - 1) else Normal(s3)
      case Continued(s2) => var (b, s3) := (w.advance)(id, s2); if b then DynamicRounds(w, id, body, s3, fuel - 1) else Normal(s3)
      case Broke(s2) => Normal(s2)
      case x => x
  }

  /** A block from its `i`th statement on; a jump goes to the innermost block around it that has the label. */
  function Run<S>(w: World<S>, ss: seq<Stmt>, i: nat, st: S, fuel: nat): End<S>
    decreases fuel, ss, if i < |ss| then |ss| - i else 0
  {
    if i >= |ss| then Normal(st)
    else match Step(w, ss[i], st, fuel)
      case Normal(s) => Run(w, ss, i + 1, s, fuel)
      case Jumped(l, s) =>
        if !HasLabel(ss, l) then Jumped(l, s)
        else if LabelIndex(ss, l) > i then Run(w, ss, LabelIndex(ss, l), s, fuel)
        else if fuel == 0 then Dry
        else Run(w, ss, LabelIndex(ss, l), s, fuel - 1)
      case x => x
  }

  // ----- the target -----

  /** flua_until_n, flua_for_cont_n, flua_L_name_n. */
  datatype CLabel = Until(n: nat) | ForCont(n: nat) | User(name: string, n: nat)

  datatype CStmt =
    | CAct(id: nat)
    | CReturn
    | CBreak
    | CContinue
    | CGoto(l: CLabel)
    | CLab(l: CLabel)
    | CBlock(body: seq<CStmt>)
    | CIf(c: nat, thn: seq<CStmt>, els: seq<CStmt>)
    | CWhile(c: nat, body: seq<CStmt>)              // while (c) { ... }
    | CForever(body: seq<CStmt>)                    // while (1) { ... }, do { ... } while (1)
    | CFor(id: nat, body: seq<CStmt>)               // for (; test; step) { ... }
    | CUnless(id: nat, body: seq<CStmt>)            // if (!skip) { while (1) { ... } }
    | CBreakIf(c: nat, sense: bool)                 // if (c) break; or if (!(c)) break;
    | CAdvance(id: nat)                             // step; if (past the limit) break;
    | CFetch(id: nat)                               // next element; if (nil) break;
    | CEntry(id: nat, skips: bool)                  // this entry; if (nil) continue; or if (nil) break;

  datatype CEnd<+S> = CNormal(st: S) | CBroke(st: S) | CContinued(st: S) | CJumped(l: CLabel, st: S) | CReturned(st: S) | CDry

  predicate HasCLab(cc: seq<CStmt>, l: CLabel) { CLab(l) in cc }

  function CLabIndex(cc: seq<CStmt>, l: CLabel): (i: nat)
    requires HasCLab(cc, l)
    ensures i < |cc| && cc[i] == CLab(l)
    ensures forall j :: 0 <= j < i ==> cc[j] != CLab(l)
  {
    if cc[0] == CLab(l) then 0 else 1 + CLabIndex(cc[1..], l)
  }

  function OrBreak<S>(b: bool, st: S): CEnd<S> { if b then CBroke(st) else CNormal(st) }

  function CStep<S>(w: World<S>, c: CStmt, st: S, fuel: nat): CEnd<S>
    decreases fuel, c, 0
  {
    match c
    case CAct(id) => CNormal((w.act)(id, st))
    case CReturn => CReturned(st)
    case CBreak => CBroke(st)
    case CContinue => CContinued(st)
    case CGoto(l) => CJumped(l, st)
    case CLab(_) => CNormal(st)
    case CBlock(body) => CRun(w, body, 0, st, fuel)
    case CIf(g, thn, els) =>
      var (b, s1) := (w.cond)(g, st);
      if b then CRun(w, thn, 0, s1, fuel) else CRun(w, els, 0, s1, fuel)
    case CWhile(g, body) =>
      if fuel == 0 then CDry
      else
        var (b, s1) := (w.cond)(g, st);
        if !b then CNormal(s1)
        else
          (match CRun(w, body, 0, s1, fuel)
           case CNormal(s2) => CStep(w, c, s2, fuel - 1)
           case CContinued(s2) => CStep(w, c, s2, fuel - 1)
           case CBroke(s2) => CNormal(s2)
           case x => x)
    case CForever(body) =>
      if fuel == 0 then CDry
      else
        (match CRun(w, body, 0, st, fuel)
         case CNormal(s2) => CStep(w, c, s2, fuel - 1)
         case CContinued(s2) => CStep(w, c, s2, fuel - 1)
         case CBroke(s2) => CNormal(s2)
         case x => x)
    case CFor(id, body) =>
      if fuel == 0 then CDry
      else
        var (b, s1) := (w.test)(id, st);
        if !b then CNormal(s1)
        else
          (match CRun(w, body, 0, s1, fuel)
           case CNormal(s2) => CStep(w, c, (w.step)(id, s2), fuel - 1)
           case CContinued(s2) => CStep(w, c, (w.step)(id, s2), fuel - 1)
           case CBroke(s2) => CNormal(s2)
           case x => x)
    case CUnless(id, body) =>
      var (b, s1) := (w.begin)(id, st);
      if b then CRounds(w, body, s1, fuel) else CNormal(s1)
    case CBreakIf(g, sense) => var (b, s1) := (w.cond)(g, st); OrBreak(b == sense, s1)
    case CAdvance(id) => var (b, s1) := (w.advance)(id, st); OrBreak(!b, s1)
    case CFetch(id) => var (b, s1) := (w.fetch)(id, st); OrBreak(!b, s1)
    case CEntry(id, skips) =>
      var (b, s1) := (w.fetch)(id, st);
      if b then CNormal(s1) else if skips then CContinued(s1) else CBroke(s1)
  }

  function CRounds<S>(w: World<S>, body: seq<CStmt>, st: S, fuel: nat): CEnd<S>
    decreases fuel, body, |body| + 1
  {
    if fuel == 0 then CDry
    else match CRun(w, body, 0, st, fuel)
      case CNormal(s2) => CRounds(w, body, s2, fuel - 1)
      case CContinued(s2) => CRounds(w, body, s2, fuel - 1)
      case CBroke(s2) => CNormal(s2)
      case x => x
  }

  function CRun<S>(w: World<S>, cc: seq<CStmt>, i: nat, st: S, fuel: nat): CEnd<S>
    decreases fuel, cc, if i < |cc| then |cc| - i else 0
  {
    if i >= |cc| then CNormal(st)
    else match CStep(w, cc[i], st, fuel)
      case CNormal(s) => CRun(w, cc, i + 1, s, fuel)
      case CJumped(l, s) =>
        if !HasCLab(cc, l) then CJumped(l, s)
        else if CLabIndex(cc, l) > i then CRun(w, cc, CLabIndex(cc, l), s, fuel)
        else if fuel == 0 then CDry
        else CRun(w, cc, CLabIndex(cc, l), s, fuel - 1)
      case x => x
  }

  // ----- the lowering -----

  type Labels = map<string, CLabel>

  /** The generator's fields: repeat_depth_, repeat_label_stack_, for_cont_stack_, label_c_stack_. */
  datatype Fields = Fields(depth: nat, repeats: seq<nat>, conts: seq<nat>, labels: seq<Labels>)

  /** repeat_label_counter_, for_cont_id_, label_uniq_. */
  datatype Counters = Counters(repeats: nat, conts: nat, labels: nat)

  /** CompileStmtContinue. */
  function ContinueStmt(g: Fields): CStmt
  {
    if g.depth > 0 && g.repeats != [] then CGoto(Until(g.repeats[|g.repeats| - 1]))
    else if g.conts != [] then CGoto(ForCont(g.conts[|g.conts| - 1]))
    else CContinue
  }

  /** CompileStmtGoto: the innermost block with the label. */
  function FindLabel(ls: seq<Labels>, l: string): Option<CLabel>
  {
    if ls == [] then None
    else if l in ls[|ls| - 1] then Some(ls[|ls| - 1][l])
    else FindLabel(ls[..|ls| - 1], l)
  }

  /** The labels of a block, numbered in order; None when one name occurs twice. */
  function Collect(ss: seq<Stmt>, m: Labels, n: nat): Option<(Labels, nat)>
  {
    if ss == [] then Some((m, n))
    else if !ss[0].Label? then Collect(ss[1..], m, n)
    else if ss[0].l in m then None
    else Collect(ss[1..], m[ss[0].l := User(ss[0].l, n + 1)], n + 1)
  }

  datatype Lowered<+T> = Lowered(code: T, k: Counters) | Rejected

  /** Inside a loop that uses C's `continue`. */
  function Plainly(g: Fields): Fields { g.(depth := 0, conts := []) }

  function Lower(s: Stmt, g: Fields, k: Counters): Lowered<CStmt>
    decreases s, 0
  {
    match s
    case Act(id) => Lowered(CAct(id), k)
    case Return => Lowered(CReturn, k)
    case Break => Lowered(CBreak, k)
    case Continue => Lowered(ContinueStmt(g), k)
    case Goto(l) => (match FindLabel(g.labels, l) case Some(x) => Lowered(CGoto(x), k) case None => Rejected)
    case Label(l) =>
      if g.labels != [] && l in g.labels[|g.labels| - 1] then Lowered(CLab(g.labels[|g.labels| - 1][l]), k) else Rejected
    case Block(body) => (match LowerBlock(body, g, k) case Lowered(b, k1) => Lowered(CBlock(b), k1) case Rejected => Rejected)
    case If(c, thn, els) =>
      (match LowerBlock(thn, g, k)
       case Rejected => Rejected
       case Lowered(a, k1) => match LowerBlock(els, g, k1) case Lowered(b, k2) => Lowered(CIf(c, a, b), k2) case Rejected => Rejected)
    case While(c, inHeader, body) =>
      (match LowerBlock(body, Plainly(g), k)
       case Lowered(b, k1) => Lowered(if inHeader then CWhile(c, b) else CForever([CBreakIf(c, false)] + b), k1)
       case Rejected => Rejected)
    case Repeat(body, c) =>
      var n := k.repeats + 1;
      (match LowerBlock(body, g.(depth := g.depth + 1, repeats := g.repeats + [n]), k.(repeats := n))
       case Lowered(b, k1) => Lowered(CForever(b + [CLab(Until(n)), CBreakIf(c, true)]), k1)
       case Rejected => Rejected)
    case TypedFor(id, body) =>
      (match LowerBlock(body, Plainly(g), k)
       case Lowered(b, k1) => Lowered(CFor(id, [CBlock(b)]), k1)
       case Rejected => Rejected)
    case DynamicFor(id, body) =>
      var n := k.conts + 1;
      (match LowerBlock(body, g.(depth := 0, conts := g.conts + [n]), k.(conts := n))
       case Lowered(b, k1) => Lowered(CUnless(id, [CBlock(b), CLab(ForCont(n)), CAdvance(id)]), k1)
       case Rejected => Rejected)
    case ForIn(id, body) =>
      (match LowerBlock(body, Plainly(g), k)
       case Lowered(b, k1) => Lowered(CForever([CFetch(id), CBlock(b)]), k1)
       case Rejected => Rejected)
    case ForEach(id, skips, body) =>
      (match LowerBlock(body, Plainly(g), k)
       case Lowered(b, k1) => Lowered(CFor(id, [CEntry(id, skips), CBlock(b)]), k1)
       case Rejected => Rejected)
  }

  /** CompileStmtBlock. */
  function LowerBlock(ss: seq<Stmt>, g: Fields, k: Counters): Lowered<seq<CStmt>>
    decreases ss, 2
  {
    match Collect(ss, map[], k.labels)
    case None => Rejected
    case Some((m, n)) => LowerAll(ss, g.(labels := g.labels + [m]), k.(labels := n))
  }

  function LowerAll(ss: seq<Stmt>, g: Fields, k: Counters): Lowered<seq<CStmt>>
    decreases ss, 1
  {
    if ss == [] then Lowered([], k)
    else match Lower(ss[0], g, k)
      case Rejected => Rejected
      case Lowered(a, k1) => match LowerAll(ss[1..], g, k1) case Lowered(b, k2) => Lowered([a] + b, k2) case Rejected => Rejected
  }
}
