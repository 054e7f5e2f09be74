/** The entry dispatcher of a specialised function: run-time tags choose one of 2^k variants. */
module Dispatch {
  import opened Options
  import opened Machine
  import opened Bits

  /** A tagged union: the members of a CVar that are live. */
  datatype CVar = IntVal(i: int64) | FloatVal(f: Double) | OtherVal(id: nat)

  datatype Kind = KInt | KFloat

  predicate Numeric(v: CVar) { !v.OtherVal? }

  function KindOf(v: CVar): Kind { if v.FloatVal? then KFloat else KInt }

  /** MathParamKindOf: bit `i` of the mask. */
  function KindAt(mask: nat, i: nat): Kind { if mask / Pow2(i) % 2 == 1 then KFloat else KInt }

  function Bit(k: Kind): nat { if k == KFloat then 1 else 0 }

  /** The mask whose bits are the given kinds. */
  function MaskOf(ks: seq<Kind>): (m: nat)
    ensures m < Pow2(|ks|)
  {
    if ks == [] then 0 else Bit(ks[0]) + 2 * MaskOf(ks[1..])
  }

  /** A mask is determined by its kinds, and has the kinds it was made from. */
  lemma {:induction false} MaskHasKinds(ks: seq<Kind>)
    ensures forall i :: 0 <= i < |ks| ==> KindAt(MaskOf(ks), i) == ks[i]
  {
    if ks != [] {
      var m := MaskOf(ks);
      MaskHasKinds(ks[1..]);
      forall i | 0 <= i < |ks| ensures KindAt(m, i) == ks[i] {
        assert Pow2(0) == 1;
        if i > 0 {
          HalfOfPow2(m, i);
          assert m / 2 == MaskOf(ks[1..]);
          assert KindAt(m / 2, i - 1) == ks[1..][i - 1];
        }
      }
    }
  }

  lemma {:induction false} MaskIsUnique(m: nat, ks: seq<Kind>)
    requires m < Pow2(|ks|) && forall i :: 0 <= i < |ks| ==> KindAt(m, i) == ks[i]
    ensures m == MaskOf(ks)
  {
    if ks != [] {
      assert Pow2(0) == 1 && KindAt(m, 0) == ks[0];
      forall i | 0 <= i < |ks| - 1 ensures KindAt(m / 2, i) == ks[1..][i] {
        HalfOfPow2(m, i + 1);
        assert KindAt(m, i + 1) == ks[i + 1];
      }
      MaskIsUnique(m / 2, ks[1..]);
    }
  }

  // ----- the dispatcher -----

  /** What a variant receives for one parameter. */
  datatype Passed = AsInt(i: int64) | AsFloat(f: Double) | AsCVar(v: CVar) | DeadMember

  datatype Target = Dynamic | Variant(mask: nat, args: seq<Passed>) | NoCase

  function ReadMember(v: CVar, k: Kind): Passed
  {
    match (v, k)
    case (IntVal(i), KInt) => AsInt(i)
    case (FloatVal(f), KFloat) => AsFloat(f)
    case _ => DeadMember
  }

  /** Positions of the specialised parameters: each a parameter, none twice. */
  predicate Positions(math: seq<nat>, params: nat)
  {
    && (forall i :: 0 <= i < |math| ==> math[i] < params)
    && (forall i, j :: 0 <= i < j < |math| ==> math[i] != math[j])
  }

  function PositionOf(math: seq<nat>, p: nat): (r: Option<nat>)
    ensures r.Some? ==> r.value < |math| && math[r.value] == p
    ensures r.None? <==> p !in math
  {
    if math == [] then None
    else if math[0] == p then Some(0)
    else match PositionOf(math[1..], p) case Some(i) => Some(i + 1) case None => None
  }

  function Kinds(args: seq<CVar>, math: seq<nat>): (ks: seq<Kind>)
    requires Positions(math, |args|)
    ensures |ks| == |math|
  {
    seq(|math|, i requires 0 <= i < |math| => KindOf(args[math[i]]))
  }

  /** The emitted entry function: the tag test, the index, the switch, the argument list of the case taken. */
  method Enter(args: seq<CVar>, math: seq<nat>) returns (t: Target)
    requires Positions(math, |args|)
    ensures t.Dynamic? <==> exists i :: 0 <= i < |math| && args[math[i]].OtherVal?
    ensures !t.NoCase?
    ensures t.Variant? ==> t.mask == MaskOf(Kinds(args, math)) && t.mask < Pow2(|math|)
    ensures t.Variant? ==> |t.args| == |args|
    ensures t.Variant? ==> forall p :: 0 <= p < |args| ==>
              t.args[p] == if p !in math then AsCVar(args[p]) else match args[p] case IntVal(i) => AsInt(i) case FloatVal(f) => AsFloat(f) case _ => DeadMember
    ensures t.Variant? ==> DeadMember !in t.args
  {
    var i := 0;
    while i < |math|
      invariant 0 <= i <= |math|
      invariant forall j :: 0 <= j < i ==> Numeric(args[math[j]])
    {
      if !Numeric(args[math[i]]) { return Dynamic; }
      i := i + 1;
    }
    var mask := Index(args, math);
    MaskHasKinds(Kinds(args, math));
    var passed := CaseArgs(args, math, mask);
    assert forall p :: 0 <= p < |args| && p in math ==> Numeric(args[p]);
    if mask < Pow2(|math|) {
      t := Variant(mask, passed);
    } else {
      t := NoCase;
    }
  }

  /** `(a is float) | (b is float) << 1 | ...`: the shifted bits do not overlap, so the union is the sum. */
  method Index(args: seq<CVar>, math: seq<nat>) returns (mask: nat)
    requires Positions(math, |args|)
    ensures mask == MaskOf(Kinds(args, math))
  {
    mask := 0;
    var i := 0;
    ghost var ks := Kinds(args, math);
    while i < |math|
      invariant 0 <= i <= |math|
      invariant mask == MaskOf(ks[..i])
    {
      mask := mask + Pow2(i) * Bit(KindOf(args[math[i]]));
      assert ks[..i + 1] == ks[..i] + [ks[i]];
      MaskSnoc(ks[..i], ks[i]);
      i := i + 1;
    }
    assert ks[..|math|] == ks;
  }

  lemma {:induction false} MaskSnoc(ks: seq<Kind>, k: Kind)
    ensures MaskOf(ks + [k]) == MaskOf(ks) + Pow2(|ks|) * Bit(k)
  {
    if ks == [] {
      assert ks + [k] == [k] && [k][1..] == [];
      assert Pow2(0) == 1;
    } else {
      assert (ks + [k])[0] == ks[0] && (ks + [k])[1..] == ks[1..] + [k];
      MaskSnoc(ks[1..], k);
      assert 2 * (Pow2(|ks| - 1) * Bit(k)) == Pow2(|ks|) * Bit(k);
    }
  }

  /** BuildSpecCallArgs for one case, evaluated. */
  method CaseArgs(args: seq<CVar>, math: seq<nat>, mask: nat) returns (passed: seq<Passed>)
    requires Positions(math, |args|)
    ensures |passed| == |args|
    ensures forall p :: 0 <= p < |args| ==>
              passed[p] == match PositionOf(math, p) case None => AsCVar(args[p]) case Some(i) => ReadMember(args[p], KindAt(mask, i))
  {
    passed := [];
    while |passed| < |args|
      invariant |passed| <= |args|
      invariant forall p :: 0 <= p < |passed| ==>
                  passed[p] == match PositionOf(math, p) case None => AsCVar(args[p]) case Some(i) => ReadMember(args[p], KindAt(mask, i))
    {
      var p := |passed|;
      var at := PositionOf(math, p);
      passed := passed + [match at case None => AsCVar(args[p]) case Some(i) => ReadMember(args[p], KindAt(mask, i))];
    }
  }

  /** The variant reached is the only one whose parameter kinds are the tags. */
  lemma VariantIsUnique(args: seq<CVar>, math: seq<nat>, mask: nat)
    requires Positions(math, |args|) && mask < Pow2(|math|)
    ensures mask == MaskOf(Kinds(args, math)) <==> forall i :: 0 <= i < |math| ==> KindAt(mask, i) == KindOf(args[math[i]])
  {
    var ks := Kinds(args, math);
    MaskHasKinds(ks);
    if forall i :: 0 <= i < |math| ==> KindAt(mask, i) == KindOf(args[math[i]]) { MaskIsUnique(mask, ks); }
  }

  // ----- names -----

  function Suffix(k: nat, mask: nat, i: nat): string
    requires i <= k
    decreases k - i
  {
    if i == k then "" else "_" + (if KindAt(mask, i) == KFloat then "1" else "0") + Suffix(k, mask, i + 1)
  }

  /** SpecFuncName. */
  method SpecFuncName(base: string, k: nat, mask: nat) returns (name: string)
    ensures name == base + Suffix(k, mask, 0)
  {
    name := base;
    var i := 0;
    while i < k
      invariant 0 <= i <= k && name + Suffix(k, mask, i) == base + Suffix(k, mask, 0)
    {
      name := name + "_";
      name := name + if KindAt(mask, i) == KFloat then "1" else "0";
      i := i + 1;
    }
  }

  /** The name shows the kind of each specialised parameter in order: `_0` an integer, `_1` a float. */
  lemma {:induction false} SuffixDigits(k: nat, mask: nat, i: nat, j: nat)
    requires i <= j < k
    ensures var s := Suffix(k, mask, i);
            && |s| == 2 * (k - i) && s[2 * (j - i)] == '_'
            && (s[2 * (j - i) + 1] == '1' <==> KindAt(mask, j) == KFloat)
            && (s[2 * (j - i) + 1] == '0' <==> KindAt(mask, j) == KInt)
    decreases k - i
  {
    var s := Suffix(k, mask, i);
    var rest := Suffix(k, mask, i + 1);
    assert s == ("_" + if KindAt(mask, i) == KFloat then "1" else "0") + rest && s[2..] == rest;
    if i < j {
      SuffixDigits(k, mask, i + 1, j);
      assert s[2 * (j - i)] == rest[2 * (j - i - 1)] && s[2 * (j - i) + 1] == rest[2 * (j - i - 1) + 1];
    } else if i + 1 < k {
      SuffixDigits(k, mask, i + 1, i + 1);
    }
  }

  lemma {:induction false} SuffixKinds(k: nat, m: nat, n: nat, i: nat)
    requires i <= k && Suffix(k, m, i) == Suffix(k, n, i)
    ensures forall j :: i <= j < k ==> KindAt(m, j) == KindAt(n, j)
    decreases k - i
  {
    if i < k {
      var a, b := Suffix(k, m, i), Suffix(k, n, i);
      assert a[1] == (if KindAt(m, i) == KFloat then '1' else '0') && b[1] == (if KindAt(n, i) == KFloat then '1' else '0');
      assert a[2..] == Suffix(k, m, i + 1) && b[2..] == Suffix(k, n, i + 1);
      SuffixKinds(k, m, n, i + 1);
    }
  }

  /** Among the variants of one function the name tells the mask. */
  lemma SpecNamesInjective(base: string, k: nat, m: nat, n: nat)
    requires m < Pow2(k) && n < Pow2(k) && base + Suffix(k, m, 0) == base + Suffix(k, n, 0)
    ensures m == n
  {
    assert (base + Suffix(k, m, 0))[|base|..] == Suffix(k, m, 0);
    assert (base + Suffix(k, n, 0))[|base|..] == Suffix(k, n, 0);
    SuffixKinds(k, m, n, 0);
    var ks := seq(k, i requires 0 <= i < k => KindAt(m, i));
    MaskIsUnique(m, ks);
    MaskIsUnique(n, ks);
  }

  // ----- calls specialised at compile time -----

  datatype Ty = TInt | TFloat | TDynamic

  function TyOf(v: CVar): Ty { match v case IntVal(_) => TInt case FloatVal(_) => TFloat case _ => TDynamic }

  /** TryInferMathCallBitmask: None where it reports failure. */
  method InferMask(types: seq<Ty>, math: seq<nat>) returns (r: Option<nat>)
    ensures r.None? <==> exists i :: 0 <= i < |math| && (math[i] >= |types| || types[math[i]] == TDynamic)
    ensures r.Some? ==> r.value == MaskOf(TypeKinds(types, math))
  {
    var mask, i := 0, 0;
    while i < |math|
      invariant 0 <= i <= |math|
      invariant forall j :: 0 <= j < i ==> math[j] < |types| && types[math[j]] != TDynamic
      invariant mask == MaskOf(TypeKinds(types, math)[..i])
    {
      if math[i] >= |types| { return None; }
      if types[math[i]] == TDynamic { return None; }
      ghost var ks := TypeKinds(types, math);
      assert ks[..i + 1] == ks[..i] + [ks[i]];
      MaskSnoc(ks[..i], ks[i]);
      if types[math[i]] == TFloat { mask := mask + Pow2(i); }
      i := i + 1;
    }
    assert TypeKinds(types, math)[..|math|] == TypeKinds(types, math);
    r := Some(mask);
  }

  function TypeKinds(types: seq<Ty>, math: seq<nat>): (ks: seq<Kind>)
    ensures |ks| == |math|
  {
    seq(|math|, i requires 0 <= i < |math| => if math[i] < |types| && types[math[i]] == TFloat then KFloat else KInt)
  }

  /** With sound types the variant chosen at compile time is the one the dispatcher would reach. */
  lemma StaticIsDynamic(args: seq<CVar>, types: seq<Ty>, math: seq<nat>)
    requires Positions(math, |args|) && |types| == |args|
    requires forall i :: 0 <= i < |math| ==> types[math[i]] != TDynamic && TyOf(args[math[i]]) == types[math[i]]
    ensures MaskOf(TypeKinds(types, math)) == MaskOf(Kinds(args, math))
    ensures forall i :: 0 <= i < |math| ==> Numeric(args[math[i]])
  {
    assert TypeKinds(types, math) == Kinds(args, math);
  }
}
