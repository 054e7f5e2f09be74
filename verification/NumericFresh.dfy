/** Temporaries: every generator call writes and reads only the numbers it drew from the counter. */
module NumericFresh {
  import opened Options
  import opened Machine
  import opened LuaExp
  import opened CTarget
  import opened NumericGen

  predicate Fresh(g: Gen, n: nat)
  {
    && n <= g.next
    && AllWriteWithin(g.out, n, g.next)
    && (g.res.Some? ==> ReadsWithin(g.res.value, n, g.next))
  }

  predicate AllRead(es: seq<CExp>, lo: nat, hi: nat)
  {
    forall i :: 0 <= i < |es| ==> ReadsWithin(es[i], lo, hi)
  }

  predicate FreshArgs(g: GenArgs, n: nat)
  {
    && n <= g.next
    && AllWriteWithin(g.out, n, g.next)
    && (g.res.Some? ==> AllRead(g.res.value, n, g.next))
  }

  lemma FreshAfter(g: Gen, h: Gen, n: nat)
    requires Fresh(g, n) && Fresh(h, g.next)
    ensures Fresh(After(g, h), n)
    ensures g.res.Some? ==> ReadsWithin(g.res.value, n, h.next)
    ensures h.res.Some? ==> ReadsWithin(h.res.value, n, h.next)
  {
    WritesWiden(g.out, n, g.next, n, h.next);
    WritesWiden(h.out, g.next, h.next, n, h.next);
    WritesConcat(g.out, h.out, n, h.next);
    if g.res.Some? { ReadsWiden(g.res.value, n, g.next, n, h.next); }
    if h.res.Some? { ReadsWiden(h.res.value, g.next, h.next, n, h.next); }
  }

  lemma FreshEmit(g: Gen, s: Stmt, n: nat)
    requires Fresh(g.(res := None), n)
    requires WritesWithin(s, n, g.next + 1)
    ensures Fresh(Emit(g, s), n)
  {
    WritesWiden(g.out, n, g.next, n, g.next + 1);
    WritesConcat(g.out, [s], n, g.next + 1);
  }

  lemma FreshIntOperand(ty: Ty, g: Gen, e: CExp, n: nat)
    requires Fresh(g, n) && ReadsWithin(e, n, g.next)
    ensures Fresh(IntOperand(ty, g, e), n)
    ensures g.next <= IntOperand(ty, g, e).next
  {
    if ty == TFloat { FreshEmit(g, SToInt(g.next, e), n); }
  }

  lemma FreshBits(op: ArithOp, lt: Ty, rt: Ty, g: Gen, a: CExp, b: CExp, n: nat)
    requires Fresh(g, n) && ReadsWithin(a, n, g.next) && ReadsWithin(b, n, g.next)
    ensures Fresh(BitFinish(op, lt, rt, g, a, b), n)
  {
    var gi := IntOperand(lt, g, a);
    FreshIntOperand(lt, g, a, n);
    if gi.res.Some? {
      ReadsWiden(b, n, g.next, n, gi.next);
      var gj := IntOperand(rt, gi, b);
      FreshIntOperand(rt, gi, b, n);
      if gj.res.Some? {
        ReadsWiden(gi.res.value, n, gi.next, n, gj.next);
        FreshEmit(gj, SShift(gj.next, gi.res.value, gj.res.value, op.Shr?), n);
      }
    }
  }

  lemma FreshArith(op: ArithOp, lt: Ty, rt: Ty, ty: Ty, gl: Gen, gr: Gen, n: nat)
    requires Fresh(gl, n) && Fresh(gr, gl.next)
    ensures Fresh(ArithFinish(op, lt, rt, ty, gl, gr), n)
  {
    FreshAfter(gl, gr, n);
    var g := After(gl, gr);
    if gl.res.Some? && gr.res.Some? {
      var a, b := gl.res.value, gr.res.value;
      FreshEmit(g, SFloorDiv(g.next, a, b), n);
      FreshEmit(g, SModInt(g.next, a, b), n);
      FreshEmit(g, SModFloat(g.next, a, b), n);
      FreshBits(op, lt, rt, g, a, b, n);
    }
  }

  lemma FreshUnary(ty: Ty, g: Gen, n: nat)
    requires Fresh(g, n)
    ensures Fresh(NegFinish(ty, g), n) && Fresh(ComplFinish(ty, g), n) && Fresh(BoxFinish(ty, g), n)
  {
    if g.res.Some? {
      FreshEmit(g, SToInt(g.next, g.res.value), n);
      FreshEmit(g, SSet(g.next, CUn(Box(ty), g.res.value)), n);
    }
  }

  lemma FreshBoxedOne(g: Gen, o: Boxed1, n: nat)
    requires Fresh(g, n)
    ensures Fresh(BoxedOne(g, o), n)
  {
    if g.res.Some? { FreshEmit(g, SBoxed1(g.next, o, g.res.value), n); }
  }

  lemma FreshBoxedTwo(g: Gen, h: Gen, o: Boxed2, n: nat)
    requires Fresh(g, n) && Fresh(h, g.next)
    ensures Fresh(BoxedTwo(g, h, o), n)
  {
    FreshAfter(g, h, n);
    if g.res.Some? && h.res.Some? {
      var j := After(g, h);
      FreshEmit(j, SBoxed2(j.next, o, g.res.value, h.res.value), n);
    }
  }

  lemma FreshCall(c: Ctx, f: string, ts: seq<Ty>, g: GenArgs, n: nat)
    requires f in c.funcs && g.res.Some? && FreshArgs(g, n)
    ensures Fresh(NativeCall(c, f, ts, g), n)
  {
    var s := SCallSpec(g.next, f, MaskTypes(ts), g.res.value, (c.funcs[f].ret)(MaskTypes(ts)));
    FreshEmit(Gen(g.out, None, g.next, g.ok), s, n);
  }

  lemma FreshArgsCons(g: Gen, h: GenArgs, n: nat)
    requires Fresh(g, n) && FreshArgs(h, g.next)
    ensures AllWriteWithin(g.out + h.out, n, h.next)
    ensures h.res.Some? ==> AllRead([Text(g)] + h.res.value, n, h.next)
  {
    WritesWiden(g.out, n, g.next, n, h.next);
    WritesWiden(h.out, g.next, h.next, n, h.next);
    WritesConcat(g.out, h.out, n, h.next);
    if h.res.Some? {
      ReadsWiden(Text(g), n, g.next, n, h.next);
      forall i | 0 <= i < |h.res.value| ensures ReadsWithin(h.res.value[i], n, h.next) {
        ReadsWiden(h.res.value[i], g.next, h.next, n, h.next);
      }
    }
  }

  /** A branch that stores its value in `k`, drawn before the branch was compiled. */
  lemma FreshBranch(g: Gen, k: nat, e: CExp, lo: nat, n: nat, hi: nat)
    requires n <= k < lo && Fresh(g, lo) && g.next <= hi
    ensures AllWriteWithin(g.out + [SSet(k, e)], n, hi)
  {
    WritesWiden(g.out, lo, g.next, n, hi);
    WritesConcat(g.out, [SSet(k, e)], n, hi);
  }

  lemma FreshTernary(ty: Ty, gc: Gen, g1: Gen, g2: Gen, n: nat)
    requires Fresh(gc, n) && Fresh(g1, gc.next + 1) && Fresh(g2, g1.next)
    ensures Fresh(TernaryFinish(ty, gc, gc.next, g1, g2), n)
  {
    var k := gc.next;
    WritesWiden(gc.out, n, gc.next, n, g1.next);
    WritesWiden(gc.out, n, gc.next, n, g2.next);
    if gc.res.Some? && g1.res.Some? && g2.res.Some? {
      var e1, e2 := CUn(Declared(ty), g1.res.value), CUn(Declared(ty), g2.res.value);
      FreshBranch(g1, k, e1, k + 1, n, g2.next);
      FreshBranch(g2, k, e2, g1.next, n, g2.next);
      var s := SIf(gc.res.value, g1.out + [SSet(k, e1)], g2.out + [SSet(k, e2)]);
      WritesConcat(gc.out, [s], n, g2.next);
    }
  }

  lemma FreshSingle(s: Stmt, lo: nat, hi: nat)
    requires WritesWithin(s, lo, hi)
    ensures AllWriteWithin([s], lo, hi)
  {
    assert [s][1..] == [];
  }

  lemma FreshShortCircuit(isAnd: bool, gl: Gen, gr: Gen, n: nat)
    requires Fresh(gl, n) && Fresh(gr, gl.next + 2)
    ensures Fresh(ShortCircuitFinish(isAnd, gl, gr), n)
  {
    WritesWiden(gl.out, n, gl.next, n, gr.next);
    if gl.res.Some? && gr.res.Some? {
      var k := gl.next;
      FreshBranch(gr, k + 1, gr.res.value, k + 2, n, gr.next);
      var g := ShortCircuitFinish(isAnd, gl, gr);
      var rest := g.out[|gl.out|..];
      assert g.out == gl.out + rest;
      assert rest[1..][0].thn == [SSet(k + 1, CTmp(k))];
      FreshSingle(SSet(k + 1, CTmp(k)), n, gr.next);
      assert WritesWithin(rest[1..][0], n, gr.next);
      assert AllWriteWithin(rest[1..], n, gr.next);
      WritesConcat(gl.out, rest, n, gr.next);
    }
  }

  lemma FreshCompare(cmp: CmpOp, lt: Ty, rt: Ty, gl: Gen, gr: Gen, n: nat)
    requires Fresh(gl, n) && Fresh(gr, gl.next)
    ensures Fresh(CompareFinish(cmp, lt, rt, gl, gr), n)
  {
    FreshAfter(gl, gr, n);
  }

  lemma FreshCompareText(cmp: CmpOp, lt: Ty, rt: Ty, gl: Gen, gr: Gen, n: nat)
    requires Fresh(gl, n) && Fresh(gr, gl.next)
    ensures Fresh(CompareText(cmp, lt, rt, gl, gr), n)
  {
    var g := CompareFinish(cmp, lt, rt, gl, gr);
    FreshCompare(cmp, lt, rt, gl, gr, n);
    TextWithin(gl, gr, n);
    if g.res.None? { FreshRes(g, CBin(Compare(cmp, lt, rt), Text(gl), Text(gr)), n); }
  }

  lemma TextWithin(gl: Gen, gr: Gen, n: nat)
    requires Fresh(gl, n) && Fresh(gr, gl.next)
    ensures ReadsWithin(Text(gl), n, gr.next) && ReadsWithin(Text(gr), n, gr.next)
  {
    ReadsWiden(Text(gl), n, gl.next, n, gr.next);
    ReadsWiden(Text(gr), gl.next, gr.next, n, gr.next);
  }

  lemma FreshRes(g: Gen, e: CExp, n: nat)
    requires Fresh(g, n) && ReadsWithin(e, n, g.next)
    ensures Fresh(WithRes(g, e), n)
  {
  }

  lemma {:induction false} NumericIsFresh(c: Ctx, e: Exp, n: nat)
    ensures Fresh(Numeric(c, e, n), n)
    decreases e, 1
  {
    if ConstFold(e).None? {
      match e
      case Paren(e1) => NumericIsFresh(c, e1, n);
      case Call(f, args) =>
        if Infer(c, e) != TDynamic {
          NumericArgsAreFresh(c, args, n);
          FreshCall(c, f, GetTypes(c, args), NumericArgs(c, args, n), n);
        }
      case And(l, r) =>
        NumericIsFresh(c, l, n);
        NumericIsFresh(c, r, Numeric(c, l, n).next);
        FreshAfter(Numeric(c, l, n), Numeric(c, r, Numeric(c, l, n).next), n);
      case Or(l, r) =>
        if l.And? {
          TernaryCondIsFresh(c, l.l, n);
          var gc := TernaryCond(c, l.l, n);
          NumericIsFresh(c, l.r, gc.next + 1);
          var g1 := Numeric(c, l.r, gc.next + 1);
          NumericIsFresh(c, r, g1.next);
          FreshTernary(Infer(c, e), gc, g1, Numeric(c, r, g1.next), n);
        } else {
          NumericIsFresh(c, l, n);
        }
      case Arith(op, l, r) =>
        NumericIsFresh(c, l, n);
        var gl := Numeric(c, l, n);
        NumericIsFresh(c, r, gl.next);
        FreshArith(op, GetType(c, l), GetType(c, r), Infer(c, e), gl, Numeric(c, r, gl.next), n);
      case Cmp(_, l, r) =>
        NumericIsFresh(c, l, n);
        NumericIsFresh(c, r, Numeric(c, l, n).next);
        FreshAfter(Numeric(c, l, n), Numeric(c, r, Numeric(c, l, n).next), n);
      case Neg(e1) =>
        NumericIsFresh(c, e1, n);
        FreshUnary(GetType(c, e1), Numeric(c, e1, n), n);
      case Compl(e1) =>
        NumericIsFresh(c, e1, n);
        FreshUnary(GetType(c, e1), Numeric(c, e1, n), n);
      case Len(e1) =>
        BoxedIsFresh(c, e1, n);
        FreshBoxedOne(Boxed(c, e1, n), LenInt, n);
      case _ =>
    }
  }

  lemma {:induction false} NumericArgsAreFresh(c: Ctx, es: Exps, n: nat)
    ensures FreshArgs(NumericArgs(c, es, n), n)
    decreases es, 0
  {
    if es.Exps? {
      NumericIsFresh(c, es.head, n);
      var g := Numeric(c, es.head, n);
      NumericArgsAreFresh(c, es.tail, g.next);
      FreshArgsCons(g, NumericArgs(c, es.tail, g.next), n);
    }
  }

  lemma {:induction false} TernaryCondIsFresh(c: Ctx, e: Exp, n: nat)
    ensures Fresh(TernaryCond(c, e, n), n)
    decreases e, 3
  {
    NativeBoolIsFresh(c, e, n);
    var gb := NativeBool(c, e, n);
    BoxedIsFresh(c, e, gb.next);
    FreshAfter(gb, Boxed(c, e, gb.next), n);
  }

  lemma {:induction false} NativeBoolIsFresh(c: Ctx, e: Exp, n: nat)
    ensures Fresh(NativeBool(c, e, n), n)
    decreases e, 1
  {
    match e
    case Paren(e1) => NativeBoolIsFresh(c, e1, n);
    case Not(e1) => NativeBoolIsFresh(c, e1, n);
    case Cmp(cmp, l, r) =>
      NumericIsFresh(c, l, n);
      var gl := Numeric(c, l, n);
      NumericIsFresh(c, r, gl.next);
      FreshCompareText(cmp, GetType(c, l), GetType(c, r), gl, Numeric(c, r, gl.next), n);
    case _ =>
  }

  lemma FreshFallback(g: Gen, h: Gen, n: nat)
    requires Fresh(g, n) && Fresh(h, g.next)
    ensures Fresh(Fallback(g, h), n)
  {
    FreshAfter(g.(ok := false), h, n);
  }

  lemma {:induction false} BoxedIsFresh(c: Ctx, e: Exp, n: nat)
    ensures Fresh(Boxed(c, e, n), n)
    decreases e, 2
  {
    match e
    case Paren(e1) => BoxedIsFresh(c, e1, n);
    case And(l, r) =>
      BoxedIsFresh(c, l, n);
      BoxedIsFresh(c, r, Boxed(c, l, n).next + 2);
      FreshShortCircuit(true, Boxed(c, l, n), Boxed(c, r, Boxed(c, l, n).next + 2), n);
    case Or(l, r) =>
      BoxedIsFresh(c, l, n);
      BoxedIsFresh(c, r, Boxed(c, l, n).next + 2);
      FreshShortCircuit(false, Boxed(c, l, n), Boxed(c, r, Boxed(c, l, n).next + 2), n);
    case Arith(op, l, r) => BoxedArithIsFresh(c, op, l, r, n);
    case Cmp(cmp, l, r) => BoxedCmpIsFresh(c, cmp, l, r, n);
    case Neg(e1) => BoxedUnaryIsFresh(c, e1, false, n);
    case Compl(e1) => BoxedUnaryIsFresh(c, e1, true, n);
    case Len(e1) => BoxedIsFresh(c, e1, n); FreshBoxedOne(Boxed(c, e1, n), OpLen, n);
    case Not(e1) => BoxedIsFresh(c, e1, n); FreshBoxedOne(Boxed(c, e1, n), OpNot, n);
    case Call(f, args) => BoxedCallIsFresh(c, f, args, n);
    case _ =>
  }

  lemma {:induction false} BoxedArithIsFresh(c: Ctx, op: ArithOp, l: Exp, r: Exp, n: nat)
    ensures Fresh(Boxed(c, Arith(op, l, r), n), n)
    decreases Arith(op, l, r), 1
  {
    var lt, rt := GetType(c, l), GetType(c, r);
    if IsNum(lt) && IsNum(rt) {
      NumericIsFresh(c, l, n);
      var gl := Numeric(c, l, n);
      NumericIsFresh(c, r, gl.next);
      var ty := ArithType(op, lt, rt);
      var gr := Numeric(c, r, gl.next);
      FreshArith(op, lt, rt, ty, gl, gr, n);
      FreshUnary(ty, ArithFinish(op, lt, rt, ty, gl, gr), n);
    } else {
      BoxedIsFresh(c, l, n);
      BoxedIsFresh(c, r, Boxed(c, l, n).next);
      FreshBoxedTwo(Boxed(c, l, n), Boxed(c, r, Boxed(c, l, n).next), OpArith(op), n);
    }
  }

  lemma {:induction false} BoxedCompareIsFresh(c: Ctx, cmp: CmpOp, l: Exp, r: Exp, n: nat)
    ensures Fresh(BoxedCompare(c, cmp, l, r, n), n)
    decreases Cmp(cmp, l, r), 0
  {
    BoxedIsFresh(c, l, n);
    BoxedIsFresh(c, r, Boxed(c, l, n).next);
    FreshBoxedTwo(Boxed(c, l, n), Boxed(c, r, Boxed(c, l, n).next), OpCompare(cmp), n);
  }

  lemma {:induction false} BoxedCmpIsFresh(c: Ctx, cmp: CmpOp, l: Exp, r: Exp, n: nat)
    ensures Fresh(Boxed(c, Cmp(cmp, l, r), n), n)
    decreases Cmp(cmp, l, r), 1
  {
    var lt, rt := GetType(c, l), GetType(c, r);
    if IsNum(lt) && IsNum(rt) {
      NumericIsFresh(c, l, n);
      var gl := Numeric(c, l, n);
      NumericIsFresh(c, r, gl.next);
      var gr := Numeric(c, r, gl.next);
      FreshCompare(cmp, lt, rt, gl, gr, n);
      var g := CompareFinish(cmp, lt, rt, gl, gr);
      if g.res.Some? {
        FreshEmit(g, SSetBool(g.next, g.res.value), n);
      } else {
        BoxedCompareIsFresh(c, cmp, l, r, g.next);
        FreshFallback(g, BoxedCompare(c, cmp, l, r, g.next), n);
      }
    } else {
      BoxedCompareIsFresh(c, cmp, l, r, n);
    }
  }

  lemma {:induction false} BoxedUnaryIsFresh(c: Ctx, e1: Exp, flip: bool, n: nat)
    ensures Fresh(Boxed(c, if flip then Compl(e1) else Neg(e1), n), n)
    decreases e1, 4
  {
    var o := if flip then OpCompl else OpNeg;
    var ty := GetType(c, e1);
    if IsNum(ty) {
      NumericIsFresh(c, e1, n);
      var g := Numeric(c, e1, n);
      NumericIsFresh(c, e1, g.next);
      FreshTwice(flip, ty, g, Numeric(c, e1, g.next), n);
      BoxedIsFresh(c, e1, g.next);
      FreshBoxedOne(Boxed(c, e1, g.next), o, g.next);
      FreshFallback(g, BoxedOne(Boxed(c, e1, g.next), o), n);
    } else {
      BoxedIsFresh(c, e1, n);
      FreshBoxedOne(Boxed(c, e1, n), o, n);
    }
  }

  /** The boxed unary path compiles its operand, drops the result, and compiles it again. */
  lemma FreshTwice(flip: bool, ty: Ty, g: Gen, h: Gen, n: nat)
    requires Fresh(g, n) && Fresh(h, g.next)
    ensures Fresh(After(g, if flip then BoxFinish(TInt, ComplFinish(TInt, h)) else BoxFinish(ty, NegFinish(ty, h))), n)
  {
    FreshUnary(TInt, h, g.next);
    FreshUnary(ty, h, g.next);
    if flip {
      FreshUnary(TInt, ComplFinish(TInt, h), g.next);
      FreshAfter(g, BoxFinish(TInt, ComplFinish(TInt, h)), n);
    } else {
      FreshUnary(ty, NegFinish(ty, h), g.next);
      FreshAfter(g, BoxFinish(ty, NegFinish(ty, h)), n);
    }
  }

  lemma {:induction false} BoxedCallIsFresh(c: Ctx, f: string, args: Exps, n: nat)
    ensures Fresh(Boxed(c, Call(f, args), n), n)
    decreases args, 4
  {
    var ts := GetTypes(c, args);
    if f in c.funcs && |ts| == c.funcs[f].arity && TDynamic !in ts {
      NumericArgsAreFresh(c, args, n);
      FreshCall(c, f, ts, NumericArgs(c, args, n), n);
      FreshUnary((c.funcs[f].ret)(ts), NativeCall(c, f, ts, NumericArgs(c, args, n)), n);
    } else {
      BoxedArgsAreFresh(c, args, n);
      var ga := BoxedArgs(c, args, n);
      if ga.res.Some? {
        FreshEmit(Gen(ga.out, None, ga.next, ga.ok), SCall(ga.next, f, ga.res.value), n);
      }
    }
  }

  lemma {:induction false} BoxedArgsAreFresh(c: Ctx, es: Exps, n: nat)
    ensures FreshArgs(BoxedArgs(c, es, n), n)
    decreases es, 0
  {
    if es.Exps? {
      BoxedIsFresh(c, es.head, n);
      var g := Boxed(c, es.head, n);
      BoxedArgsAreFresh(c, es.tail, g.next);
      FreshArgsCons(g, BoxedArgs(c, es.tail, g.next), n);
    }
  }
}
