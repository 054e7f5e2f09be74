/** The lowering as the generator runs it, with its stacks and counters as fields; and the C labels it prints:
    within one function no two are the same. */
module ControlLabels {
  import opened Options
  import opened ControlFlow
  import opened ControlProof

  // ----- labels of the printed code -----

  function LabelsOf(c: CStmt): seq<CLabel>
    decreases c, 0
  {
    match c
    case CLab(l) => [l]
    case CBlock(b) => AllLabels(b)
    case CIf(_, thn, els) => AllLabels(thn) + AllLabels(els)
    case CWhile(_, b) => AllLabels(b)
    case CForever(b) => AllLabels(b)
    case CFor(_, b) => AllLabels(b)
    case CUnless(_, b) => AllLabels(b)
    case _ => []
  }

  function AllLabels(cc: seq<CStmt>): seq<CLabel>
    decreases cc, 1
  {
    if cc == [] then [] else LabelsOf(cc[0]) + AllLabels(cc[1..])
  }

  lemma {:induction false} AllLabelsConcat(a: seq<CStmt>, b: seq<CStmt>)
    ensures AllLabels(a + b) == AllLabels(a) + AllLabels(b)
  {
    if a == [] {
      assert a + b == b;
    } else {
      assert (a + b)[0] == a[0] && (a + b)[1..] == a[1..] + b;
      AllLabelsConcat(a[1..], b);
    }
  }

  predicate Unique(s: seq<CLabel>) { forall i, j :: 0 <= i < j < |s| ==> s[i] != s[j] }

  predicate Below(k: Counters, k2: Counters) { k.repeats <= k2.repeats && k.conts <= k2.conts && k.labels <= k2.labels }

  /** Drawn from the counters after `k` and by the time they reached `k2`. */
  predicate Drawn(l: CLabel, k: Counters, k2: Counters)
  {
    match l
    case Until(n) => k.repeats < n <= k2.repeats
    case ForCont(n) => k.conts < n <= k2.conts
    case User(_, n) => k.labels < n <= k2.labels
  }

  predicate AllDrawn(s: seq<CLabel>, k: Counters, k2: Counters) { forall l <- s :: Drawn(l, k, k2) }

  lemma UniqueConcat(a: seq<CLabel>, b: seq<CLabel>)
    requires Unique(a) && Unique(b) && forall l <- a :: l !in b
    ensures Unique(a + b)
  {
    forall i, j | 0 <= i < j < |a + b| ensures (a + b)[i] != (a + b)[j] {
      if i < |a| <= j { assert a[i] in a && b[j - |a|] in b; }
    }
  }

  lemma InSequence(a: seq<CLabel>, b: seq<CLabel>, k: Counters, k1: Counters, k2: Counters)
    requires Below(k, k1) && Below(k1, k2)
    requires Unique(a) && AllDrawn(a, k, k1) && Unique(b) && AllDrawn(b, k1, k2)
    ensures Unique(a + b) && AllDrawn(a + b, k, k2)
  {
    forall l | l in a ensures l !in b { assert Drawn(l, k, k1); }
    UniqueConcat(a, b);
  }

  predicate NumbersBelow(m: Labels, n: nat) { forall l :: l in m ==> m[l].User? && m[l].n <= n }

  lemma {:induction false} CollectNumbers(ss: seq<Stmt>, m: Labels, n: nat, lo: nat)
    requires Collect(ss, m, n).Some? && lo <= n && (forall l :: l in m ==> m[l].User? && lo < m[l].n <= n)
    ensures var (m1, n1) := Collect(ss, m, n).value; n <= n1 && forall l :: l in m1 ==> m1[l].User? && lo < m1[l].n <= n1
  {
    if ss != [] {
      if ss[0].Label? { CollectNumbers(ss[1..], m[ss[0].l := User(ss[0].l, n + 1)], n + 1, lo); }
      else { CollectNumbers(ss[1..], m, n, lo); }
    }
  }

  lemma LabelsOfOne(c: CStmt)
    ensures AllLabels([c]) == LabelsOf(c)
  {
    assert [c][1..] == [] && AllLabels([]) == [];
  }

  /** A statement draws its labels from the counters; a label statement prints the one its block gave it. */
  lemma {:induction false} LowerDraws(s: Stmt, g: Fields, k: Counters)
    requires Lower(s, g, k).Lowered? && !s.Label?
    ensures var r := Lower(s, g, k); Below(k, r.k) && Unique(LabelsOf(r.code)) && AllDrawn(LabelsOf(r.code), k, r.k)
    decreases s, 0
  {
    match s
    case Block(body) => BlockDraws(body, g, k);
    case If(_, thn, els) =>
      BlockDraws(thn, g, k);
      var k1 := LowerBlock(thn, g, k).k;
      BlockDraws(els, g, k1);
      InSequence(AllLabels(LowerBlock(thn, g, k).code), AllLabels(LowerBlock(els, g, k1).code), k, k1, LowerBlock(els, g, k1).k);
    case While(c, inHeader, body) => WhileDraws(c, inHeader, body, g, k);
    case Repeat(body, c) => RepeatDraws(body, c, g, k);
    case TypedFor(_, body) => BlockDraws(body, Plainly(g), k); LabelsOfOne(CBlock(LowerBlock(body, Plainly(g), k).code));
    case DynamicFor(id, body) => DynamicDraws(id, body, g, k);
    case ForIn(id, body) => OneAndBody(Lower(s, g, k), CFetch(id), body, g, k);
    case ForEach(id, skips, body) => OneAndBody(Lower(s, g, k), CEntry(id, skips), body, g, k);
    case _ =>
  }

  lemma {:induction false} WhileDraws(c: nat, inHeader: bool, body: seq<Stmt>, g: Fields, k: Counters)
    requires Lower(While(c, inHeader, body), g, k).Lowered?
    ensures var r := Lower(While(c, inHeader, body), g, k);
            Below(k, r.k) && Unique(LabelsOf(r.code)) && AllDrawn(LabelsOf(r.code), k, r.k)
    decreases body, 3
  {
    BlockDraws(body, Plainly(g), k);
    AllLabelsConcat([CBreakIf(c, false)], LowerBlock(body, Plainly(g), k).code);
    LabelsOfOne(CBreakIf(c, false));
  }

  /** A loop whose C body is one statement without labels and the block. */
  lemma {:induction false} OneAndBody(r: Lowered<CStmt>, c: CStmt, body: seq<Stmt>, g: Fields, k: Counters)
    requires var b := LowerBlock(body, Plainly(g), k);
             b.Lowered? && r.Lowered? && r.k == b.k && (r.code.CForever? || r.code.CFor?) && r.code.body == [c, CBlock(b.code)]
    requires LabelsOf(c) == []
    ensures Below(k, r.k) && Unique(LabelsOf(r.code)) && AllDrawn(LabelsOf(r.code), k, r.k)
    decreases body, 3
  {
    BlockDraws(body, Plainly(g), k);
    var b := CBlock(LowerBlock(body, Plainly(g), k).code);
    assert [c, b] == [c] + [b];
    AllLabelsConcat([c], [b]);
    LabelsOfOne(c);
    LabelsOfOne(b);
  }

  lemma {:induction false} RepeatDraws(body: seq<Stmt>, c: nat, g: Fields, k: Counters)
    requires Lower(Repeat(body, c), g, k).Lowered?
    ensures var r := Lower(Repeat(body, c), g, k); Below(k, r.k) && Unique(LabelsOf(r.code)) && AllDrawn(LabelsOf(r.code), k, r.k)
    decreases body, 3
  {
    var n := k.repeats + 1;
    var g1, k1 := g.(depth := g.depth + 1, repeats := g.repeats + [n]), k.(repeats := n);
    BlockDraws(body, g1, k1);
    var b := LowerBlock(body, g1, k1);
    var post := [CLab(Until(n)), CBreakIf(c, true)];
    AllLabelsConcat(b.code, post);
    assert post == [CLab(Until(n))] + [CBreakIf(c, true)];
    AllLabelsConcat([CLab(Until(n))], [CBreakIf(c, true)]);
    LabelsOfOne(CLab(Until(n)));
    LabelsOfOne(CBreakIf(c, true));
    assert AllLabels(post) == [Until(n)];
    forall l | l in AllLabels(b.code) ensures l !in [Until(n)] { assert Drawn(l, k1, b.k); }
    UniqueConcat(AllLabels(b.code), [Until(n)]);
    forall l | l in AllLabels(b.code) + [Until(n)] ensures Drawn(l, k, b.k) {
      if l in AllLabels(b.code) { assert Drawn(l, k1, b.k); }
    }
  }

  lemma {:induction false} DynamicDraws(id: nat, body: seq<Stmt>, g: Fields, k: Counters)
    requires Lower(DynamicFor(id, body), g, k).Lowered?
    ensures var r := Lower(DynamicFor(id, body), g, k); Below(k, r.k) && Unique(LabelsOf(r.code)) && AllDrawn(LabelsOf(r.code), k, r.k)
    decreases body, 3
  {
    var n := k.conts + 1;
    var g1, k1 := g.(depth := 0, conts := g.conts + [n]), k.(conts := n);
    BlockDraws(body, g1, k1);
    var b := LowerBlock(body, g1, k1);
    var code := [CBlock(b.code), CLab(ForCont(n)), CAdvance(id)];
    assert code == [CBlock(b.code)] + ([CLab(ForCont(n))] + [CAdvance(id)]);
    AllLabelsConcat([CBlock(b.code)], [CLab(ForCont(n))] + [CAdvance(id)]);
    AllLabelsConcat([CLab(ForCont(n))], [CAdvance(id)]);
    LabelsOfOne(CBlock(b.code));
    LabelsOfOne(CLab(ForCont(n)));
    LabelsOfOne(CAdvance(id));
    assert AllLabels(code) == AllLabels(b.code) + [ForCont(n)];
    forall l | l in AllLabels(b.code) ensures l !in [ForCont(n)] { assert Drawn(l, k1, b.k); }
    UniqueConcat(AllLabels(b.code), [ForCont(n)]);
    forall l | l in AllLabels(b.code) + [ForCont(n)] ensures Drawn(l, k, b.k) {
      if l in AllLabels(b.code) { assert Drawn(l, k1, b.k); }
    }
  }

  lemma {:induction false} BlockDraws(ss: seq<Stmt>, g: Fields, k: Counters)
    requires LowerBlock(ss, g, k).Lowered?
    ensures var r := LowerBlock(ss, g, k); Below(k, r.k) && Unique(AllLabels(r.code)) && AllDrawn(AllLabels(r.code), k, r.k)
    decreases ss, 2
  {
    var (m, n) := Collect(ss, map[], k.labels).value;
    CollectFinds(ss, map[], k.labels);
    CollectNumbers(ss, map[], k.labels, k.labels);
    var g1, k1 := g.(labels := g.labels + [m]), k.(labels := n);
    StatementsDraw(ss, g1, k1);
    var r := LowerAll(ss, g1, k1);
    forall l | l in AllLabels(r.code) ensures Drawn(l, k, r.k) {
      if !Drawn(l, k1, r.k) { assert OwnLabel(l, ss, g1); }
    }
  }

  /** The C label of one of the block's own label statements. */
  predicate OwnLabel(l: CLabel, ss: seq<Stmt>, g: Fields)
  {
    l.User? && HasLabel(ss, l.name) && l.name in Top(g) && Top(g)[l.name] == l
  }

  lemma {:induction false} StatementsDraw(ss: seq<Stmt>, g: Fields, k: Counters)
    requires LowerAll(ss, g, k).Lowered? && TidyMap(Top(g)) && NumbersBelow(Top(g), k.labels)
    requires forall i, j :: 0 <= i < j < |ss| && ss[i].Label? ==> ss[j] != ss[i]
    ensures var r := LowerAll(ss, g, k);
            && Below(k, r.k) && Unique(AllLabels(r.code))
            && forall l <- AllLabels(r.code) :: Drawn(l, k, r.k) || OwnLabel(l, ss, g)
    decreases ss, 1
  {
    if ss != [] {
      var a := Lower(ss[0], g, k);
      var b := LowerAll(ss[1..], g, a.k);
      assert forall i, j :: 0 <= i < j < |ss[1..]| && ss[1..][i].Label? ==> ss[1..][j] != ss[1..][i] by {
        assert forall i :: 0 <= i < |ss[1..]| ==> ss[1..][i] == ss[i + 1];
      }
      if !ss[0].Label? { LowerDraws(ss[0], g, k); }
      StatementsDraw(ss[1..], g, a.k);
      var r := LowerAll(ss, g, k);
      assert r.code == [a.code] + b.code;
      AllLabelsConcat([a.code], b.code);
      LabelsOfOne(a.code);
      forall l | l in LabelsOf(a.code) ensures (Drawn(l, k, r.k) || OwnLabel(l, ss, g)) && l !in AllLabels(b.code) {
        OneAgainstRest(ss, g, k, a, b, l);
      }
      forall l | l in AllLabels(b.code) ensures Drawn(l, k, r.k) || OwnLabel(l, ss, g) {
        if !Drawn(l, a.k, r.k) { assert OwnLabel(l, ss[1..], g) && Label(l.name) in ss[1..]; assert Label(l.name) in ss; }
      }
      UniqueConcat(LabelsOf(a.code), AllLabels(b.code));
    }
  }

  lemma OneAgainstRest(ss: seq<Stmt>, g: Fields, k: Counters, a: Lowered<CStmt>, b: Lowered<seq<CStmt>>, l: CLabel)
    requires ss != [] && a == Lower(ss[0], g, k) && a.Lowered? && b.Lowered? && Below(k, a.k) && Below(a.k, b.k)
    requires TidyMap(Top(g)) && NumbersBelow(Top(g), k.labels)
    requires forall j :: 0 < j < |ss| && ss[0].Label? ==> ss[j] != ss[0]
    requires forall x <- AllLabels(b.code) :: Drawn(x, a.k, b.k) || OwnLabel(x, ss[1..], g)
    requires l in LabelsOf(a.code) && (!ss[0].Label? ==> Drawn(l, k, a.k))
    ensures (Drawn(l, k, b.k) || OwnLabel(l, ss, g)) && l !in AllLabels(b.code)
  {
    if ss[0].Label? {
      assert ss[0] in ss && l == Top(g)[ss[0].l];
      forall j | 0 <= j < |ss[1..]| ensures ss[1..][j] != ss[0] {
        assert ss[1..][j] == ss[j + 1];
      }
    }
  }

  /** Within one function body every printed label is different, so each `goto` means one place. */
  lemma LabelsAreUnique(ss: seq<Stmt>, k: Counters)
    requires LowerBlock(ss, Fields(0, [], [], []), k).Lowered?
    ensures Unique(AllLabels(LowerBlock(ss, Fields(0, [], [], []), k).code))
  {
    BlockDraws(ss, Fields(0, [], [], []), k);
  }

  // ----- what is rejected -----

  /** A label name twice in one block, or a `goto` with no label of that name in a block around it. */
  predicate Faulty(s: Stmt, names: seq<set<string>>)
    decreases s, 0
  {
    match s
    case Goto(l) => forall i :: 0 <= i < |names| ==> l !in names[i]
    case Block(b) => FaultyBlock(b, names)
    case If(_, thn, els) => FaultyBlock(thn, names) || FaultyBlock(els, names)
    case While(_, _, b) => FaultyBlock(b, names)
    case Repeat(b, _) => FaultyBlock(b, names)
    case TypedFor(_, b) => FaultyBlock(b, names)
    case DynamicFor(_, b) => FaultyBlock(b, names)
    case ForIn(_, b) => FaultyBlock(b, names)
    case ForEach(_, _, b) => FaultyBlock(b, names)
    case _ => false
  }

  predicate FaultyBlock(ss: seq<Stmt>, names: seq<set<string>>)
    decreases ss, 2
  {
    Repeated(ss) || AnyFaulty(ss, names + [NamesIn(ss)])
  }

  predicate AnyFaulty(ss: seq<Stmt>, names: seq<set<string>>)
    decreases ss, 1
  {
    ss != [] && (Faulty(ss[0], names) || AnyFaulty(ss[1..], names))
  }

  predicate Repeated(ss: seq<Stmt>) { exists i, j :: 0 <= i < j < |ss| && ss[i].Label? && ss[i] == ss[j] }

  function NamesIn(ss: seq<Stmt>): set<string> { set s | s in ss && s.Label? :: s.l }

  lemma {:induction false} CollectFailsIff(ss: seq<Stmt>, m: Labels, n: nat)
    ensures Collect(ss, m, n).None? <==> Repeated(ss) || exists i :: 0 <= i < |ss| && ss[i].Label? && ss[i].l in m
  {
    if ss != [] {
      var t := ss[1..];
      assert forall i :: 0 <= i < |t| ==> t[i] == ss[i + 1];
      assert forall i :: 0 < i < |ss| ==> ss[i] == t[i - 1];
      var m1 := if ss[0].Label? then m[ss[0].l := User(ss[0].l, n + 1)] else m;
      CollectFailsIff(t, m1, if ss[0].Label? then n + 1 else n);
      if Repeated(ss) {
        var i, j :| 0 <= i < j < |ss| && ss[i].Label? && ss[i] == ss[j];
        if i > 0 { assert t[i - 1] == t[j - 1]; } else { assert t[j - 1].l in m1; }
      }
      if i :| 0 <= i < |ss| && ss[i].Label? && ss[i].l in m {
        if i > 0 { assert t[i - 1].l in m1; }
      }
      if i :| 0 <= i < |t| && t[i].Label? && t[i].l in m1 {
        if t[i].l !in m { assert ss[i + 1] == ss[0]; } else { assert ss[i + 1].l in m; }
      }
      if Repeated(t) {
        var i, j :| 0 <= i < j < |t| && t[i].Label? && t[i] == t[j];
        assert ss[i + 1] == ss[j + 1];
      }
    }
  }

  predicate SameNames(ls: seq<Labels>, names: seq<set<string>>)
  {
    |ls| == |names| && forall i :: 0 <= i < |ls| ==> ls[i].Keys == names[i]
  }

  lemma {:induction false} FindFailsIff(ls: seq<Labels>, names: seq<set<string>>, l: string)
    requires SameNames(ls, names)
    ensures FindLabel(ls, l).None? <==> forall i :: 0 <= i < |names| ==> l !in names[i]
  {
    if ls != [] {
      var last := |ls| - 1;
      if l !in ls[last] {
        assert SameNames(ls[..last], names[..last]);
        FindFailsIff(ls[..last], names[..last], l);
        assert forall i :: 0 <= i < last ==> names[..last][i] == names[i];
      } else {
        assert l in names[last];
      }
    }
  }

  /** Lowering fails exactly on such a label or `goto`; a block's own label statements always find theirs. */
  lemma {:induction false} LowerFailsIff(s: Stmt, g: Fields, k: Counters, names: seq<set<string>>)
    requires SameNames(g.labels, names) && (s.Label? ==> s.l in Top(g))
    ensures Lower(s, g, k).Rejected? <==> Faulty(s, names)
    decreases s, 0
  {
    match s
    case Goto(l) => FindFailsIff(g.labels, names, l);
    case Block(b) => BlockFailsIff(b, g, k, names);
    case If(_, thn, els) =>
      BlockFailsIff(thn, g, k, names);
      if LowerBlock(thn, g, k).Lowered? { BlockFailsIff(els, g, LowerBlock(thn, g, k).k, names); }
    case While(_, _, b) => BlockFailsIff(b, Plainly(g), k, names);
    case Repeat(b, _) =>
      var n := k.repeats + 1;
      BlockFailsIff(b, g.(depth := g.depth + 1, repeats := g.repeats + [n]), k.(repeats := n), names);
    case TypedFor(_, b) => BlockFailsIff(b, Plainly(g), k, names);
    case DynamicFor(_, b) =>
      var n := k.conts + 1;
      BlockFailsIff(b, g.(depth := 0, conts := g.conts + [n]), k.(conts := n), names);
    case ForIn(_, b) => BlockFailsIff(b, Plainly(g), k, names);
    case ForEach(_, _, b) => BlockFailsIff(b, Plainly(g), k, names);
    case _ =>
  }

  lemma {:induction false} BlockFailsIff(ss: seq<Stmt>, g: Fields, k: Counters, names: seq<set<string>>)
    requires SameNames(g.labels, names)
    ensures LowerBlock(ss, g, k).Rejected? <==> FaultyBlock(ss, names)
    decreases ss, 2
  {
    CollectFailsIff(ss, map[], k.labels);
    if Collect(ss, map[], k.labels).Some? {
      var (m, n) := Collect(ss, map[], k.labels).value;
      CollectFinds(ss, map[], k.labels);
      assert m.Keys == NamesIn(ss) by {
        forall l ensures l in m <==> l in NamesIn(ss) { if l in m { assert Label(l) in ss; } }
      }
      StatementsFailIff(ss, g.(labels := g.labels + [m]), k.(labels := n), names + [NamesIn(ss)]);
    }
  }

  lemma {:induction false} StatementsFailIff(ss: seq<Stmt>, g: Fields, k: Counters, names: seq<set<string>>)
    requires SameNames(g.labels, names) && forall s <- ss :: s.Label? ==> s.l in Top(g)
    ensures LowerAll(ss, g, k).Rejected? <==> AnyFaulty(ss, names)
    decreases ss, 1
  {
    if ss != [] {
      assert ss[0] in ss;
      LowerFailsIff(ss[0], g, k, names);
      if Lower(ss[0], g, k).Lowered? { StatementsFailIff(ss[1..], g, Lower(ss[0], g, k).k, names); }
    }
  }

  // ----- the generator's own way of doing it -----

  class Generator {
    var depth: nat
    var repeats: seq<nat>
    var conts: seq<nat>
    var labels: seq<Labels>
    var counters: Counters

    ghost function Now(): Fields
      reads this
    {
      Fields(depth, repeats, conts, labels)
    }

    constructor ()
      ensures Now() == Fields(0, [], [], []) && counters == Counters(0, 0, 0)
    {
      depth, repeats, conts, labels := 0, [], [], [];
      counters := Counters(0, 0, 0);
    }

    /** Every method leaves the depth and the stacks as it found them, unless it rejects the program. */
    method CompileStmt(s: Stmt) returns (r: Option<CStmt>)
      modifies this
      ensures match Lower(s, old(Now()), old(counters))
              case Lowered(c, k) => r == Some(c) && counters == k && Now() == old(Now())
              case Rejected => r == None
      decreases s, 0
    {
      match s
      case Act(id) => r := Some(CAct(id));
      case Return => r := Some(CReturn);
      case Break => r := Some(CBreak);
      case Continue => r := Some(CompileContinue());
      case Goto(l) => r := CompileGoto(l);
      case Label(l) =>
        if labels != [] && l in labels[|labels| - 1] { r := Some(CLab(labels[|labels| - 1][l])); } else { r := None; }
      case Block(body) =>
        var b := CompileBlock(body);
        r := if b.None? then None else Some(CBlock(b.value));
      case If(c, thn, els) =>
        var a := CompileBlock(thn);
        if a.None? { return None; }
        var b := CompileBlock(els);
        r := if b.None? then None else Some(CIf(c, a.value, b.value));
      case While(c, inHeader, body) =>
        var b := CompilePlainBody(body);
        if b.None? { return None; }
        r := Some(if inHeader then CWhile(c, b.value) else CForever([CBreakIf(c, false)] + b.value));
      case Repeat(body, c) =>
        depth := depth + 1;
        var n := counters.repeats + 1;
        counters := counters.(repeats := n);
        repeats := repeats + [n];
        var b := CompileBlock(body);
        if b.None? { return None; }
        r := Some(CForever(b.value + [CLab(Until(n)), CBreakIf(c, true)]));
        depth := depth - 1;
        repeats := repeats[..|repeats| - 1];
      case TypedFor(id, body) =>
        var b := CompilePlainBody(body);
        r := if b.None? then None else Some(CFor(id, [CBlock(b.value)]));
      case DynamicFor(id, body) =>
        var saved := depth;
        depth := 0;
        var n := counters.conts + 1;
        counters := counters.(conts := n);
        conts := conts + [n];
        var b := CompileBlock(body);
        if b.None? { return None; }
        r := Some(CUnless(id, [CBlock(b.value), CLab(ForCont(n)), CAdvance(id)]));
        conts := conts[..|conts| - 1];
        depth := saved;
      case ForIn(id, body) =>
        var b := CompilePlainBody(body);
        r := if b.None? then None else Some(CForever([CFetch(id), CBlock(b.value)]));
      case ForEach(id, skips, body) =>
        var b := CompilePlainBody(body);
        r := if b.None? then None else Some(CFor(id, [CEntry(id, skips), CBlock(b.value)]));
    }

    function CompileContinue(): CStmt
      reads this
    {
      if depth > 0 && repeats != [] then CGoto(Until(repeats[|repeats| - 1]))
      else if conts != [] then CGoto(ForCont(conts[|conts| - 1]))
      else CContinue
    }

    method CompileGoto(l: string) returns (r: Option<CStmt>)
      ensures var found := FindLabel(labels, l);
              r == if found.Some? then Some(CGoto(found.value)) else None
    {
      var i := |labels|;
      assert labels[..|labels|] == labels;
      while i > 0
        invariant 0 <= i <= |labels|
        invariant FindLabel(labels[..i], l) == FindLabel(labels, l)
      {
        i := i - 1;
        assert labels[..i + 1][..i] == labels[..i];
        if l in labels[i] {
          return Some(CGoto(labels[i][l]));
        }
      }
      r := None;
    }

    /** While, typed for and for-in hide the enclosing `repeat` and dynamic `for` from their body. */
    method CompilePlainBody(body: seq<Stmt>) returns (r: Option<seq<CStmt>>)
      modifies this
      ensures match LowerBlock(body, Plainly(old(Now())), old(counters))
              case Lowered(c, k) => r == Some(c) && counters == k && Now() == old(Now())
              case Rejected => r == None
      decreases body, 3
    {
      var savedDepth, savedConts := depth, conts;
      depth, conts := 0, [];
      r := CompileBlock(body);
      depth, conts := savedDepth, savedConts;
    }

    method CompileBlock(ss: seq<Stmt>) returns (r: Option<seq<CStmt>>)
      modifies this
      ensures match LowerBlock(ss, old(Now()), old(counters))
              case Lowered(c, k) => r == Some(c) && counters == k && Now() == old(Now())
              case Rejected => r == None
      decreases ss, 2
    {
      var cur: Labels, i := map[], 0;
      while i < |ss|
        invariant 0 <= i <= |ss|
        invariant Now() == old(Now()) && counters == old(counters).(labels := counters.labels)
        invariant Collect(ss[i..], cur, counters.labels) == Collect(ss, map[], old(counters.labels))
      {
        assert ss[i..][1..] == ss[i + 1..];
        if ss[i].Label? {
          if ss[i].l in cur { return None; }
          counters := counters.(labels := counters.labels + 1);
          cur := cur[ss[i].l := User(ss[i].l, counters.labels)];
        }
        i := i + 1;
      }
      labels := labels + [cur];
      r := CompileAll(ss);
      if r.Some? { labels := labels[..|labels| - 1]; }
    }

    method CompileAll(ss: seq<Stmt>) returns (r: Option<seq<CStmt>>)
      modifies this
      ensures match LowerAll(ss, old(Now()), old(counters))
              case Lowered(c, k) => r == Some(c) && counters == k && Now() == old(Now())
              case Rejected => r == None
      decreases ss, 1
    {
      if ss == [] { return Some([]); }
      var a := CompileStmt(ss[0]);
      if a.None? { return None; }
      var b := CompileAll(ss[1..]);
      r := if b.None? then None else Some([a.value] + b.value);
    }
  }
}
