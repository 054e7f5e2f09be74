/** The lowered control flow takes every `break`, `continue` and `goto` where the source takes it. */
module ControlProof {
  import opened Options
  import opened ControlFlow

  // ----- labels -----

  predicate TidyMap(m: Labels) { forall l :: l in m ==> m[l].User? && m[l].name == l }

  predicate Tidy(ls: seq<Labels>) { forall i :: 0 <= i < |ls| ==> TidyMap(ls[i]) }

  lemma {:induction false} CollectFinds(ss: seq<Stmt>, m: Labels, n: nat)
    requires TidyMap(m) && Collect(ss, m, n).Some?
    ensures var (m1, n1) := Collect(ss, m, n).value;
            TidyMap(m1) && n <= n1 && forall l :: l in m1 <==> l in m || HasLabel(ss, l)
    ensures forall i, j :: 0 <= i < j < |ss| && ss[i].Label? ==> ss[j] != ss[i]
    ensures forall i :: 0 <= i < |ss| && ss[i].Label? ==> ss[i].l !in m
  {
    if ss != [] {
      var s := ss[0];
      assert ss == [s] + ss[1..];
      if s.Label? {
        var m1 := m[s.l := User(s.l, n + 1)];
        CollectFinds(ss[1..], m1, n + 1);
        forall i | 0 < i < |ss| && ss[i].Label? ensures ss[i].l !in m1 && ss[i] != s { assert ss[i] == ss[1..][i - 1]; }
      } else {
        CollectFinds(ss[1..], m, n);
        forall i | 0 <= i < |ss| && ss[i].Label? ensures ss[i].l !in m { assert ss[i] == ss[1..][i - 1]; }
      }
      forall i, j | 0 <= i < j < |ss| && ss[i].Label? ensures ss[j] != ss[i] {
        assert ss[j] == ss[1..][j - 1];
        if i > 0 { assert ss[i] == ss[1..][i - 1]; }
      }
    }
  }

  /** Every source statement becomes one C statement. */
  lemma {:induction false} LowerAllAt(ss: seq<Stmt>, g: Fields, k: Counters, i: nat) returns (ki: Counters)
    requires LowerAll(ss, g, k).Lowered? && i < |ss|
    ensures |LowerAll(ss, g, k).code| == |ss|
    ensures Lower(ss[i], g, ki).Lowered? && LowerAll(ss, g, k).code[i] == Lower(ss[i], g, ki).code
  {
    var k1 := Lower(ss[0], g, k).k;
    if |ss| > 1 {
      if i == 0 { var _ := LowerAllAt(ss[1..], g, k1, 0); ki := k; }
      else { ki := LowerAllAt(ss[1..], g, k1, i - 1); }
    } else {
      ki := k;
      assert ss[1..] == [];
    }
  }

  lemma {:induction false} LowerAllLength(ss: seq<Stmt>, g: Fields, k: Counters)
    requires LowerAll(ss, g, k).Lowered?
    ensures |LowerAll(ss, g, k).code| == |ss|
  {
    if ss != [] { LowerAllLength(ss[1..], g, Lower(ss[0], g, k).k); }
  }

  // ----- signals -----

  /** What C sees of the way a source statement ends, when no block or loop inside it took the jump. */
  function Image<S>(g: Fields, o: End<S>): CEnd<S>
  {
    match o
    case Normal(s) => CNormal(s)
    case Broke(s) => CBroke(s)
    case Continued(s) => (match ContinueStmt(g) case CGoto(l) => CJumped(l, s) case _ => CContinued(s))
    case Jumped(l, s) => (match FindLabel(g.labels, l) case Some(x) => CJumped(x, s) case None => CDry)
    case Returned(s) => CReturned(s)
    case Dry => CDry
  }

  /** A jump on its way out of a statement has a visible label to go to. */
  predicate Visible<S>(g: Fields, o: End<S>) { o.Jumped? ==> FindLabel(g.labels, o.l).Some? }

  /** What follows the statements of a loop body in the same C block: nothing, or the label `continue` jumps to
      and the loop's own test. */
  predicate Trailer(g: Fields, post: seq<CStmt>)
  {
    post == [] || (|post| == 2 && post[0].CLab? && !post[0].l.User? && ContinueStmt(g) == CGoto(post[0].l) && post[1].CBreakIf?)
  }

  function Finish<S>(w: World<S>, post: seq<CStmt>, c: CEnd<S>): CEnd<S>
  {
    if post == [] then c
    else if c.CNormal? || (c.CJumped? && post[0] == CLab(c.l)) then
      (if |post| > 1 then CStep(w, post[1], c.st, 0) else c)
    else c
  }

  /** The labels of the innermost block. */
  function Top(g: Fields): Labels { if g.labels == [] then map[] else g.labels[|g.labels| - 1] }

  /** A block of the source inside a C block. */
  ghost predicate Placed(ss: seq<Stmt>, g: Fields, k: Counters, pre: seq<CStmt>, post: seq<CStmt>)
  {
    && LowerAll(ss, g, k).Lowered?
    && Tidy(g.labels) && g.labels != []
    && (forall l :: l in Top(g) <==> HasLabel(ss, l))
    && (forall i, j :: 0 <= i < j < |ss| && ss[i].Label? ==> ss[j] != ss[i])
    && (forall c <- pre :: !c.CLab?)
    && Trailer(g, post)
  }

  function Whole(ss: seq<Stmt>, g: Fields, k: Counters, pre: seq<CStmt>, post: seq<CStmt>): seq<CStmt>
    requires LowerAll(ss, g, k).Lowered?
  {
    pre + LowerAll(ss, g, k).code + post
  }

  /** Which C labels stand in the block, and where. */
  lemma LabelsPlaced(ss: seq<Stmt>, g: Fields, k: Counters, pre: seq<CStmt>, post: seq<CStmt>, j: nat, x: CLabel)
    requires Placed(ss, g, k, pre, post)
    requires j < |Whole(ss, g, k, pre, post)|
    ensures |LowerAll(ss, g, k).code| == |ss|
    ensures Whole(ss, g, k, pre, post)[j] == CLab(x) <==>
              || (|pre| <= j < |pre| + |ss| && ss[j - |pre|].Label? && ss[j - |pre|].l in Top(g) && Top(g)[ss[j - |pre|].l] == x)
              || (j == |pre| + |ss| && post != [] && post[0] == CLab(x))
  {
    LowerAllLength(ss, g, k);
    var b := LowerAll(ss, g, k).code;
    var cc := Whole(ss, g, k, pre, post);
    if j < |pre| {
      assert cc[j] == pre[j];
    } else if j < |pre| + |ss| {
      var _ := LowerAllAt(ss, g, k, j - |pre|);
      assert cc[j] == b[j - |pre|];
      if ss[j - |pre|].Label? { assert Label(ss[j - |pre|].l) in ss; }
    } else {
      assert cc[j] == post[j - |pre| - |ss|];
    }
  }

  /** A jump to a label of the block lands on the statement the label became. */
  lemma LabelFound(ss: seq<Stmt>, g: Fields, k: Counters, pre: seq<CStmt>, post: seq<CStmt>, l: string)
    requires Placed(ss, g, k, pre, post) && HasLabel(ss, l)
    ensures var cc := Whole(ss, g, k, pre, post);
            var x := Top(g)[l];
            HasCLab(cc, x) && CLabIndex(cc, x) == |pre| + LabelIndex(ss, l)
  {
    var cc := Whole(ss, g, k, pre, post);
    var x := Top(g)[l];
    var p := LabelIndex(ss, l);
    LowerAllLength(ss, g, k);
    LabelsPlaced(ss, g, k, pre, post, |pre| + p, x);
    assert cc[|pre| + p] == CLab(x);
    var q := CLabIndex(cc, x);
    LabelsPlaced(ss, g, k, pre, post, q, x);
    assert TidyMap(Top(g));
    assert ss[q - |pre|] == Label(l);
  }

  lemma TrailerFound(ss: seq<Stmt>, g: Fields, k: Counters, pre: seq<CStmt>, post: seq<CStmt>)
    requires Placed(ss, g, k, pre, post) && post != []
    ensures var cc := Whole(ss, g, k, pre, post);
            HasCLab(cc, post[0].l) && CLabIndex(cc, post[0].l) == |pre| + |ss|
  {
    var cc := Whole(ss, g, k, pre, post);
    var x := post[0].l;
    LowerAllLength(ss, g, k);
    LabelsPlaced(ss, g, k, pre, post, |pre| + |ss|, x);
    assert cc[|pre| + |ss|] == CLab(x);
    var q := CLabIndex(cc, x);
    LabelsPlaced(ss, g, k, pre, post, q, x);
    assert TidyMap(Top(g));
  }

  lemma NotHere(ss: seq<Stmt>, g: Fields, k: Counters, pre: seq<CStmt>, post: seq<CStmt>, x: CLabel)
    requires Placed(ss, g, k, pre, post)
    requires post != [] ==> x != post[0].l
    requires x.User? ==> !HasLabel(ss, x.name)
    ensures !HasCLab(Whole(ss, g, k, pre, post), x)
  {
    var cc := Whole(ss, g, k, pre, post);
    assert TidyMap(Top(g));
    forall j | 0 <= j < |cc| ensures cc[j] != CLab(x) {
      LabelsPlaced(ss, g, k, pre, post, j, x);
    }
  }

  lemma {:induction false} FindIsTidy(ls: seq<Labels>, l: string)
    requires Tidy(ls) && FindLabel(ls, l).Some?
    ensures FindLabel(ls, l).value.User? && FindLabel(ls, l).value.name == l
  {
    if l !in ls[|ls| - 1] { FindIsTidy(ls[..|ls| - 1], l); }
  }

  lemma TrailerRuns<S>(w: World<S>, cc: seq<CStmt>, i: nat, st: S, fuel: nat)
    requires i + 2 == |cc| && cc[i].CLab? && cc[i + 1].CBreakIf?
    ensures CRun(w, cc, i, st, fuel) == CStep(w, cc[i + 1], st, 0)
  {
    assert CStep(w, cc[i], st, fuel) == CNormal(st);
    assert CStep(w, cc[i + 1], st, fuel) == CStep(w, cc[i + 1], st, 0);
    var c := CStep(w, cc[i + 1], st, fuel);
    if c.CNormal? { assert CRun(w, cc, i + 2, c.st, fuel) == c; }
  }

  // ----- the simulation -----

  /** One C statement does what its source statement does, and leaves by the C signal for the source's. */
  lemma {:induction false} StepIsSame<S>(w: World<S>, s: Stmt, g: Fields, k: Counters, st: S, fuel: nat)
    requires Lower(s, g, k).Lowered? && Tidy(g.labels)
    ensures CStep(w, Lower(s, g, k).code, st, fuel) == Image(g, Step(w, s, st, fuel))
    ensures Visible(g, Step(w, s, st, fuel))
    decreases fuel, s, 0
  {
    match s
    case Block(body) => BodyIsSame(w, body, g, k, st, fuel);
    case If(c, thn, els) =>
      var (b, s1) := (w.cond)(c, st);
      var k1 := LowerBlock(thn, g, k).k;
      if b { BodyIsSame(w, thn, g, k, s1, fuel); } else { BodyIsSame(w, els, g, k1, s1, fuel); }
    case While(c, inHeader, body) => WhileIsSame(w, c, inHeader, body, g, k, st, fuel);
    case Repeat(body, c) => RepeatIsSame(w, body, c, g, k, st, fuel);
    case TypedFor(id, body) => TypedIsSame(w, id, body, g, k, st, fuel);
    case DynamicFor(id, body) => DynamicIsSame(w, id, body, g, k, st, fuel);
    case ForIn(id, body) => ForInIsSame(w, id, body, g, k, st, fuel);
    case ForEach(id, skips, body) => ForEachIsSame(w, id, skips, body, g, k, st, fuel);
    case _ =>
  }

  /** A block placed between `pre` and `post`, from its first statement. */
  lemma {:induction false} BlockIsSame<S>(w: World<S>, ss: seq<Stmt>, g: Fields, k: Counters, pre: seq<CStmt>, post: seq<CStmt>, st: S, fuel: nat)
    requires LowerBlock(ss, g, k).Lowered? && Tidy(g.labels)
    requires (forall c <- pre :: !c.CLab?) && Trailer(g, post)
    ensures CRun(w, pre + LowerBlock(ss, g, k).code + post, |pre|, st, fuel) == Finish(w, post, Image(g, Run(w, ss, 0, st, fuel)))
    ensures Visible(g, Run(w, ss, 0, st, fuel))
    decreases fuel, ss, |ss| + 1
  {
    var (m, n) := Collect(ss, map[], k.labels).value;
    CollectFinds(ss, map[], k.labels);
    var g1 := g.(labels := g.labels + [m]);
    var k1 := k.(labels := n);
    assert Placed(ss, g1, k1, pre, post);
    RunIsSame(w, ss, g1, k1, pre, post, 0, st, fuel);
    EscapesAlike(w, ss, g, m, 0, st, fuel);
  }

  /** A jump that leaves a block is resolved in the blocks around it. */
  lemma {:induction false} EscapesAlike<S>(w: World<S>, ss: seq<Stmt>, g: Fields, m: Labels, i: nat, st: S, fuel: nat)
    requires forall l :: l in m <==> HasLabel(ss, l)
    ensures var o := Run(w, ss, i, st, fuel);
            var g1 := g.(labels := g.labels + [m]);
            (o.Jumped? ==> !HasLabel(ss, o.l)) && Image(g1, o) == Image(g, o) && (Visible(g1, o) ==> Visible(g, o))
    decreases fuel, if i < |ss| then |ss| - i else 0
  {
    if i < |ss| {
      var o := Step(w, ss[i], st, fuel);
      match o {
        case Normal(s) => EscapesAlike(w, ss, g, m, i + 1, s, fuel);
        case Jumped(l, s) =>
          if HasLabel(ss, l) {
            var j := LabelIndex(ss, l);
            if j > i { EscapesAlike(w, ss, g, m, j, s, fuel); }
            else if fuel > 0 { EscapesAlike(w, ss, g, m, j, s, fuel - 1); }
          } else {
            assert (g.labels + [m])[..|g.labels|] == g.labels;
          }
        case _ =>
      }
    }
  }

  lemma RunUnfolds<S>(w: World<S>, ss: seq<Stmt>, cc: seq<CStmt>, i: nat, ci: nat, st: S, fuel: nat)
    requires i < |ss| && ci < |cc|
    ensures var o := Step(w, ss[i], st, fuel);
            Run(w, ss, i, st, fuel) == if o.Normal? then Run(w, ss, i + 1, o.st, fuel)
                                       else if o.Jumped? then Resumed(w, ss, i, o.l, o.st, fuel)
                                       else o
    ensures var o := CStep(w, cc[ci], st, fuel);
            CRun(w, cc, ci, st, fuel) == if o.CNormal? then CRun(w, cc, ci + 1, o.st, fuel) else CResumed(w, cc, ci, o, fuel)
  {
  }

  lemma {:induction false} RunIsSame<S>(w: World<S>, ss: seq<Stmt>, g: Fields, k: Counters, pre: seq<CStmt>, post: seq<CStmt>,
                                        i: nat, st: S, fuel: nat)
    requires Placed(ss, g, k, pre, post) && i <= |ss|
    ensures CRun(w, Whole(ss, g, k, pre, post), |pre| + i, st, fuel) == Finish(w, post, Image(g, Run(w, ss, i, st, fuel)))
    ensures Visible(g, Run(w, ss, i, st, fuel))
    decreases fuel, ss, |ss| - i
  {
    var cc := Whole(ss, g, k, pre, post);
    LowerAllLength(ss, g, k);
    if i == |ss| {
      AtEnd(w, ss, g, k, pre, post, st, fuel);
    } else {
      var ki := LowerAllAt(ss, g, k, i);
      assert cc[|pre| + i] == Lower(ss[i], g, ki).code;
      StepIsSame(w, ss[i], g, ki, st, fuel);
      RunUnfolds(w, ss, cc, i, |pre| + i, st, fuel);
      var o := Step(w, ss[i], st, fuel);
      match o {
        case Normal(s) => RunIsSame(w, ss, g, k, pre, post, i + 1, s, fuel);
        case Jumped(l, s) => JumpIsSame(w, ss, g, k, pre, post, i, l, s, fuel);
        case Continued(s) => ContinueIsSame(w, ss, g, k, pre, post, i, s, fuel);
        case _ =>
      }
    }
  }

  lemma AtEnd<S>(w: World<S>, ss: seq<Stmt>, g: Fields, k: Counters, pre: seq<CStmt>, post: seq<CStmt>, st: S, fuel: nat)
    requires Placed(ss, g, k, pre, post)
    ensures CRun(w, Whole(ss, g, k, pre, post), |pre| + |ss|, st, fuel) == Finish(w, post, CNormal(st))
  {
    LowerAllLength(ss, g, k);
    var cc := Whole(ss, g, k, pre, post);
    if post != [] {
      assert cc[|pre| + |ss|] == post[0] && cc[|pre| + |ss| + 1] == post[1];
      TrailerRuns(w, cc, |pre| + |ss|, st, fuel);
    }
  }

  lemma ContinueIsSame<S>(w: World<S>, ss: seq<Stmt>, g: Fields, k: Counters, pre: seq<CStmt>, post: seq<CStmt>, i: nat, s: S, fuel: nat)
    requires Placed(ss, g, k, pre, post) && i < |ss|
    ensures var cc := Whole(ss, g, k, pre, post);
            var o := Image(g, Continued(s));
            Finish(w, post, o) == CResumed(w, cc, |pre| + i, o, fuel)
  {
    var o := Image(g, Continued(s));
    if o.CJumped? {
      if post == [] || post[0] != CLab(o.l) {
        NotHere(ss, g, k, pre, post, o.l);
      } else {
        TrailerFound(ss, g, k, pre, post);
        AtEnd(w, ss, g, k, pre, post, s, fuel);
      }
    }
  }

  /** How a block goes on after a jump out of its statement `i`. */
  function Resumed<S>(w: World<S>, ss: seq<Stmt>, i: nat, l: string, s: S, fuel: nat): End<S>
  {
    if !HasLabel(ss, l) then Jumped(l, s)
    else if LabelIndex(ss, l) > i then Run(w, ss, LabelIndex(ss, l), s, fuel)
    else if fuel == 0 then Dry
    else Run(w, ss, LabelIndex(ss, l), s, fuel - 1)
  }

  function CResumed<S>(w: World<S>, cc: seq<CStmt>, i: nat, o: CEnd<S>, fuel: nat): CEnd<S>
  {
    if !o.CJumped? || !HasCLab(cc, o.l) then o
    else if CLabIndex(cc, o.l) > i then CRun(w, cc, CLabIndex(cc, o.l), o.st, fuel)
    else if fuel == 0 then CDry
    else CRun(w, cc, CLabIndex(cc, o.l), o.st, fuel - 1)
  }

  lemma {:induction false} JumpIsSame<S>(w: World<S>, ss: seq<Stmt>, g: Fields, k: Counters, pre: seq<CStmt>, post: seq<CStmt>,
                                         i: nat, l: string, s: S, fuel: nat)
    requires Placed(ss, g, k, pre, post) && i < |ss| && FindLabel(g.labels, l).Some?
    ensures var o := Resumed(w, ss, i, l, s, fuel);
            && Visible(g, o)
            && CResumed(w, Whole(ss, g, k, pre, post), |pre| + i, Image(g, Jumped(l, s)), fuel) == Finish(w, post, Image(g, o))
    decreases fuel, ss, |ss| - i, 0
  {
    if HasLabel(ss, l) {
      LabelFound(ss, g, k, pre, post, l);
      var j := LabelIndex(ss, l);
      if j > i || fuel > 0 { RunIsSame(w, ss, g, k, pre, post, j, s, if j > i then fuel else fuel - 1); }
      JumpLands(w, ss, Whole(ss, g, k, pre, post), g, post, i, |pre| + i, l, Top(g)[l], s, fuel);
    } else {
      JumpLeaves(w, ss, g, k, pre, post, i, l, s, fuel);
    }
  }

  /** A jump inside the block goes on alike when the two runs from its target are alike. */
  lemma JumpLands<S>(w: World<S>, ss: seq<Stmt>, cc: seq<CStmt>, g: Fields, post: seq<CStmt>, i: nat, ci: nat, l: string, x: CLabel,
                     s: S, fuel: nat)
    requires HasLabel(ss, l) && HasCLab(cc, x) && (LabelIndex(ss, l) > i <==> CLabIndex(cc, x) > ci)
    requires LabelIndex(ss, l) > i || fuel > 0 ==>
               var rest := if LabelIndex(ss, l) > i then fuel else fuel - 1;
               var o := Run(w, ss, LabelIndex(ss, l), s, rest);
               Visible(g, o) && CRun(w, cc, CLabIndex(cc, x), s, rest) == Finish(w, post, Image(g, o))
    ensures var o := Resumed(w, ss, i, l, s, fuel);
            Visible(g, o) && CResumed(w, cc, ci, CJumped(x, s), fuel) == Finish(w, post, Image(g, o))
  {
  }

  lemma JumpLeaves<S>(w: World<S>, ss: seq<Stmt>, g: Fields, k: Counters, pre: seq<CStmt>, post: seq<CStmt>,
                      i: nat, l: string, s: S, fuel: nat)
    requires Placed(ss, g, k, pre, post) && i < |ss| && FindLabel(g.labels, l).Some? && !HasLabel(ss, l)
    ensures var o := Image(g, Jumped(l, s));
            CResumed(w, Whole(ss, g, k, pre, post), |pre| + i, o, fuel) == Finish(w, post, o)
  {
    FindIsTidy(g.labels, l);
    NotHere(ss, g, k, pre, post, FindLabel(g.labels, l).value);
  }

  // ----- loops -----

  /** A loop body in C's own braces. */
  lemma {:induction false} BodyIsSame<S>(w: World<S>, body: seq<Stmt>, g: Fields, k: Counters, st: S, fuel: nat)
    requires LowerBlock(body, g, k).Lowered? && Tidy(g.labels)
    ensures CRun(w, LowerBlock(body, g, k).code, 0, st, fuel) == Image(g, Run(w, body, 0, st, fuel))
    ensures CRun(w, [CBlock(LowerBlock(body, g, k).code)], 0, st, fuel) == Image(g, Run(w, body, 0, st, fuel))
    ensures Visible(g, Run(w, body, 0, st, fuel))
    decreases fuel, body, |body| + 2
  {
    BlockIsSame(w, body, g, k, [], [], st, fuel);
    var b := LowerBlock(body, g, k).code;
    assert [] + b + [] == b;
    var cc := [CBlock(b)];
    var o := CStep(w, cc[0], st, fuel);
    assert o == CRun(w, b, 0, st, fuel);
    if o.CNormal? { assert CRun(w, cc, 1, o.st, fuel) == o; }
  }

  /** What the loop makes of one round of its body. */
  function NextRound<S>(w: World<S>, s: Stmt, o: End<S>, fuel: nat): End<S>
    requires fuel > 0
  {
    if o.Normal? || o.Continued? then Step(w, s, o.st, fuel - 1) else if o.Broke? then Normal(o.st) else o
  }

  function CNextRound<S>(w: World<S>, c: CStmt, o: CEnd<S>, fuel: nat): CEnd<S>
    requires fuel > 0
  {
    if o.CNormal? || o.CContinued? then CStep(w, c, o.st, fuel - 1) else if o.CBroke? then CNormal(o.st) else o
  }

  lemma WhileUnfolds<S>(w: World<S>, c: nat, inHeader: bool, body: seq<Stmt>, b: seq<CStmt>, st: S, fuel: nat)
    requires fuel > 0
    ensures var s := While(c, inHeader, body);
            var code := if inHeader then CWhile(c, b) else CForever([CBreakIf(c, false)] + b);
            var (t, s1) := (w.cond)(c, st);
            && Step(w, s, st, fuel) == (if t then NextRound(w, s, Run(w, body, 0, s1, fuel), fuel) else Normal(s1))
            && CStep(w, code, st, fuel) ==
               if !t then CNormal(s1)
               else if inHeader then CNextRound(w, code, CRun(w, b, 0, s1, fuel), fuel)
               else CNextRound(w, code, CRun(w, [CBreakIf(c, false)] + b, 1, s1, fuel), fuel)
  {
    if !inHeader { GuardFirst(w, [CBreakIf(c, false)] + b, st, fuel); }
  }

  lemma {:induction false} WhileIsSame<S>(w: World<S>, c: nat, inHeader: bool, body: seq<Stmt>, g: Fields, k: Counters, st: S, fuel: nat)
    requires var s := While(c, inHeader, body); Lower(s, g, k).Lowered? && Tidy(g.labels)
    ensures var s := While(c, inHeader, body); CStep(w, Lower(s, g, k).code, st, fuel) == Image(g, Step(w, s, st, fuel))
    ensures Visible(g, Step(w, While(c, inHeader, body), st, fuel))
    decreases fuel, body, |body| + 3
  {
    var g1 := Plainly(g);
    var b := LowerBlock(body, g1, k).code;
    var (t, s1) := (w.cond)(c, st);
    if fuel > 0 {
      WhileUnfolds(w, c, inHeader, body, b, st, fuel);
      if t {
        var o := Run(w, body, 0, s1, fuel);
        if inHeader {
          BodyIsSame(w, body, g1, k, s1, fuel);
        } else {
          BlockIsSame(w, body, g1, k, [CBreakIf(c, false)], [], s1, fuel);
          assert [CBreakIf(c, false)] + b + [] == [CBreakIf(c, false)] + b;
        }
        if o.Normal? || o.Continued? { WhileIsSame(w, c, inHeader, body, g, k, o.st, fuel - 1); }
      }
    }
  }

  /** A test in front of the body, in the same C block. */
  lemma GuardFirst<S>(w: World<S>, cc: seq<CStmt>, st: S, fuel: nat)
    requires cc != [] && (cc[0].CBreakIf? || cc[0].CFetch? || cc[0].CEntry?)
    ensures CRun(w, cc, 0, st, fuel) ==
            var o := CStep(w, cc[0], st, 0);
            if o.CNormal? then CRun(w, cc, 1, o.st, fuel) else o
  {
    assert CStep(w, cc[0], st, fuel) == CStep(w, cc[0], st, 0);
  }

  lemma {:induction false} RepeatIsSame<S>(w: World<S>, body: seq<Stmt>, c: nat, g: Fields, k: Counters, st: S, fuel: nat)
    requires var s := Repeat(body, c); Lower(s, g, k).Lowered? && Tidy(g.labels)
    ensures var s := Repeat(body, c); CStep(w, Lower(s, g, k).code, st, fuel) == Image(g, Step(w, s, st, fuel))
    ensures Visible(g, Step(w, Repeat(body, c), st, fuel))
    decreases fuel, body, |body| + 3
  {
    if fuel > 0 {
      var n := k.repeats + 1;
      var g1, k1 := g.(depth := g.depth + 1, repeats := g.repeats + [n]), k.(repeats := n);
      var post := [CLab(Until(n)), CBreakIf(c, true)];
      BlockIsSame(w, body, g1, k1, [], post, st, fuel);
      var b := LowerBlock(body, g1, k1).code;
      assert [] + b + post == b + post;
      assert ContinueStmt(g1) == CGoto(Until(n));
      var o := Run(w, body, 0, st, fuel);
      assert CRun(w, b + post, 0, st, fuel) == Finish(w, post, Image(g1, o));
      assert o.Jumped? ==> Finish(w, post, Image(g1, o)) == Image(g, o) by {
        if o.Jumped? && FindLabel(g.labels, o.l).Some? { FindIsTidy(g.labels, o.l); }
      }
      if o.Normal? || o.Continued? {
        var (t, s2) := (w.cond)(c, o.st);
        if !t { RepeatIsSame(w, body, c, g, k, s2, fuel - 1); }
      }
    }
  }

  lemma {:induction false} TypedIsSame<S>(w: World<S>, id: nat, body: seq<Stmt>, g: Fields, k: Counters, st: S, fuel: nat)
    requires var s := TypedFor(id, body); Lower(s, g, k).Lowered? && Tidy(g.labels)
    ensures var s := TypedFor(id, body); CStep(w, Lower(s, g, k).code, st, fuel) == Image(g, TypedRounds(w, id, body, st, fuel))
    ensures Visible(g, TypedRounds(w, id, body, st, fuel))
    decreases fuel, body, |body| + 3
  {
    if fuel > 0 {
      var (t, s1) := (w.test)(id, st);
      if t {
        BodyIsSame(w, body, Plainly(g), k, s1, fuel);
        var o := Run(w, body, 0, s1, fuel);
        if o.Normal? || o.Continued? { TypedIsSame(w, id, body, g, k, (w.step)(id, o.st), fuel - 1); }
      }
    }
  }

  lemma {:induction false} ForInIsSame<S>(w: World<S>, id: nat, body: seq<Stmt>, g: Fields, k: Counters, st: S, fuel: nat)
    requires var s := ForIn(id, body); Lower(s, g, k).Lowered? && Tidy(g.labels)
    ensures var s := ForIn(id, body); CStep(w, Lower(s, g, k).code, st, fuel) == Image(g, Step(w, s, st, fuel))
    ensures Visible(g, Step(w, ForIn(id, body), st, fuel))
    decreases fuel, body, |body| + 3
  {
    if fuel > 0 {
      var b := LowerBlock(body, Plainly(g), k).code;
      var cc := [CFetch(id), CBlock(b)];
      GuardFirst(w, cc, st, fuel);
      var (t, s1) := (w.fetch)(id, st);
      if t {
        BodyIsSame(w, body, Plainly(g), k, s1, fuel);
        LastBlock(w, cc, s1, fuel);
        var o := Run(w, body, 0, s1, fuel);
        if o.Normal? || o.Continued? { ForInIsSame(w, id, body, g, k, o.st, fuel - 1); }
      }
    }
  }

  /** `break` and `continue` in a loop over pairs or ipairs, and its empty entries, act as in Lua. */
  lemma {:induction false} ForEachIsSame<S>(w: World<S>, id: nat, skips: bool, body: seq<Stmt>, g: Fields, k: Counters,
                                            st: S, fuel: nat)
    requires var s := ForEach(id, skips, body); Lower(s, g, k).Lowered? && Tidy(g.labels)
    ensures var s := ForEach(id, skips, body);
            CStep(w, Lower(s, g, k).code, st, fuel) == Image(g, EntryRounds(w, id, skips, body, st, fuel))
    ensures Visible(g, EntryRounds(w, id, skips, body, st, fuel))
    decreases fuel, body, |body| + 3
  {
    if fuel > 0 {
      var (more, s1) := (w.test)(id, st);
      if more {
        var b := LowerBlock(body, Plainly(g), k).code;
        var cc := [CEntry(id, skips), CBlock(b)];
        GuardFirst(w, cc, s1, fuel);
        var (present, s2) := (w.fetch)(id, s1);
        if present {
          BodyIsSame(w, body, Plainly(g), k, s2, fuel);
          LastBlock(w, cc, s2, fuel);
          var o := Run(w, body, 0, s2, fuel);
          if o.Normal? || o.Continued? { ForEachIsSame(w, id, skips, body, g, k, (w.step)(id, o.st), fuel - 1); }
        } else if skips {
          ForEachIsSame(w, id, skips, body, g, k, (w.step)(id, s2), fuel - 1);
        }
      }
    }
  }

  lemma LastBlock<S>(w: World<S>, cc: seq<CStmt>, st: S, fuel: nat)
    requires |cc| == 2 && (cc[0].CFetch? || cc[0].CEntry?) && cc[1].CBlock?
    ensures CRun(w, cc, 1, st, fuel) == CRun(w, cc[1].body, 0, st, fuel)
  {
    var o := CStep(w, cc[1], st, fuel);
    assert o == CRun(w, cc[1].body, 0, st, fuel);
    if o.CNormal? { assert CRun(w, cc, 2, o.st, fuel) == o; }
  }

  lemma {:induction false} DynamicIsSame<S>(w: World<S>, id: nat, body: seq<Stmt>, g: Fields, k: Counters, st: S, fuel: nat)
    requires var s := DynamicFor(id, body); Lower(s, g, k).Lowered? && Tidy(g.labels)
    ensures var s := DynamicFor(id, body); CStep(w, Lower(s, g, k).code, st, fuel) == Image(g, Step(w, s, st, fuel))
    ensures Visible(g, Step(w, DynamicFor(id, body), st, fuel))
    decreases fuel, body, |body| + 4
  {
    var (t, s1) := (w.begin)(id, st);
    if t { DynamicRoundsAreSame(w, id, body, g, k, s1, fuel); }
  }

  lemma {:induction false} DynamicRoundsAreSame<S>(w: World<S>, id: nat, body: seq<Stmt>, g: Fields, k: Counters, st: S, fuel: nat)
    requires Lower(DynamicFor(id, body), g, k).Lowered? && Tidy(g.labels)
    ensures CRounds(w, Lower(DynamicFor(id, body), g, k).code.body, st, fuel) == Image(g, DynamicRounds(w, id, body, st, fuel))
    ensures Visible(g, DynamicRounds(w, id, body, st, fuel))
    decreases fuel, body, |body| + 3
  {
    if fuel > 0 {
      var n := k.conts + 1;
      var g1, k1 := g.(depth := 0, conts := g.conts + [n]), k.(conts := n);
      BodyIsSame(w, body, g1, k1, st, fuel);
      var cc := Lower(DynamicFor(id, body), g, k).code.body;
      var o := Run(w, body, 0, st, fuel);
      RoundOf(w, cc, n, id, st, fuel);
      if o.Jumped? && FindLabel(g.labels, o.l).Some? { FindIsTidy(g.labels, o.l); }
      if o.Normal? || o.Continued? {
        var (b, s3) := (w.advance)(id, o.st);
        if b { DynamicRoundsAreSame(w, id, body, g, k, s3, fuel - 1); }
      }
    }
  }

  /** One round of the dynamic loop's C body: the block, the label, the step. */
  lemma RoundOf<S>(w: World<S>, cc: seq<CStmt>, n: nat, id: nat, st: S, fuel: nat)
    requires |cc| == 3 && cc[0].CBlock? && cc[1] == CLab(ForCont(n)) && cc[2] == CAdvance(id)
    ensures CRun(w, cc, 0, st, fuel) ==
            var o := CRun(w, cc[0].body, 0, st, fuel);
            if o.CNormal? || (o.CJumped? && o.l == ForCont(n)) then CStep(w, CAdvance(id), o.st, 0) else o
  {
    var o := CStep(w, cc[0], st, fuel);
    assert o == CRun(w, cc[0].body, 0, st, fuel);
    assert cc[1] in cc;
    if o.CNormal? || (o.CJumped? && o.l == ForCont(n)) {
      var s := o.st;
      assert CStep(w, cc[1], s, fuel) == CNormal(s);
      var a := CStep(w, cc[2], s, fuel);
      assert a == CStep(w, CAdvance(id), s, 0);
      assert CRun(w, cc, 2, s, fuel) == a by { if a.CNormal? { assert CRun(w, cc, 3, a.st, fuel) == a; } }
      assert CRun(w, cc, 1, s, fuel) == a;
      if o.CJumped? { assert CLabIndex(cc, ForCont(n)) == 1; }
    }
  }

  /** A function body, with no loop or block around it: it runs as the source does, and no jump is lost. */
  lemma FunctionBodyIsSame<S>(w: World<S>, ss: seq<Stmt>, k: Counters, st: S, fuel: nat)
    requires LowerBlock(ss, Fields(0, [], [], []), k).Lowered?
    ensures var o := Run(w, ss, 0, st, fuel);
            var c := CRun(w, LowerBlock(ss, Fields(0, [], [], []), k).code, 0, st, fuel);
            && !o.Jumped?
            && c == match o
                    case Normal(s) => CNormal(s)
                    case Broke(s) => CBroke(s)
                    case Continued(s) => CContinued(s)
                    case Returned(s) => CReturned(s)
                    case _ => CDry
  {
    BodyIsSame(w, ss, Fields(0, [], [], []), k, st, fuel);
  }
}
