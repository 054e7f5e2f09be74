/** Tables whose constructor has a fixed set of literal keys: one struct field per key in front of a hash part. */
module SpecTable {
  import opened Options
  import opened Machine

  /** A string key is an interned identifier or a string object; both compare by content. */
  datatype Key = Text(s: string, interned: bool) | Num(n: Machine.Num) | Flag(b: bool) | Other(id: nat) | NilKey

  datatype Value = Nil | Val(id: nat)

  predicate Usable(k: Key) { !k.NilKey? && (k.Num? && k.n.F? ==> !k.n.f.NaN?) }

  /** Lua's primitive equality of keys. */
  predicate LuaEqual(a: Key, b: Key)
  {
    match (a, b)
    case (Text(s, _), Text(t, _)) => s == t
    case (Num(x), Num(y)) => NumEq(x, y)
    case (Flag(x), Flag(y)) => x == y
    case (Other(x), Other(y)) => x == y
    case _ => false
  }

  /** A table can be indexed with exactly the keys that equal themselves: everything but nil and NaN. */
  lemma UsableIff(k: Key)
    ensures Usable(k) <==> LuaEqual(k, k)
    ensures Usable(k) <==> k != NilKey && k != Num(F(NaN))
  {
  }

  /** The plain map a table stands for has one entry for each class of equal keys. */
  datatype Class = CText(s: string) | CInt(i: int64) | CFloat(d: Double) | CFlag(b: bool) | COther(id: nat)

  function ClassOf(k: Key): Class
    requires Usable(k)
  {
    match k
    case Text(s, _) => CText(s)
    case Num(I(i)) => CInt(i)
    case Num(F(d)) => (match ToInt(d) case Some(i) => CInt(i) case None => CFloat(d))
    case Flag(b) => CFlag(b)
    case Other(id) => COther(id)
  }

  lemma FloatClass(i: int64, d: Double)
    requires !d.NaN?
    ensures NumEq(I(i), F(d)) <==> ToInt(d) == Some(i)
    ensures NumEq(F(d), I(i)) <==> ToInt(d) == Some(i)
  {
  }

  lemma FloatClasses(x: Double, y: Double)
    requires !x.NaN? && !y.NaN?
    ensures Eq(x, y) <==> if ToInt(x).Some? then ToInt(x) == ToInt(y) else x == y
  {
  }

  lemma ClassIsLuaEqual(a: Key, b: Key)
    requires Usable(a) && Usable(b)
    ensures LuaEqual(a, b) <==> ClassOf(a) == ClassOf(b)
  {
    match (a, b)
    case (Num(I(i)), Num(F(d))) => FloatClass(i, d);
    case (Num(F(d)), Num(I(i))) => FloatClass(i, d);
    case (Num(F(x)), Num(F(y))) => FloatClasses(x, y);
    case _ =>
  }

  /** NORMALIZE_TABLE_KEY. */
  function Normalize(k: Key): Key
  {
    if k.Num? && k.n.F? && ToInt(k.n.f).Some? then Num(I(ToInt(k.n.f).value)) else k
  }

  // ----- layouts -----

  datatype Literal = LText(s: string) | LInt(i: int64) | LFloat(d: Double) | LFlag(b: bool)

  function KeyOf(l: Literal): Key
  {
    match l case LText(s) => Text(s, true) case LInt(i) => Num(I(i)) case LFloat(d) => Num(F(d)) case LFlag(b) => Flag(b)
  }

  /** What the classification of literals delivers: a float key is finite and not the value of an integer. */
  predicate Classified(l: Literal) { l.LFloat? ==> l.d.Fin? && ToInt(l.d).None? }

  const TWO63: real := 9223372036854775808.0

  /** Of the conversion from integers to doubles: it gives integers, rounds no further than the bounds of the range,
      and the largest integer rounds up. */
  ghost predicate Rounds(fpu: Fpu)
  {
    && (forall i: int64 :: var d := (fpu.fromInt)(i); d.Fin? && d.r == d.r.Floor as real && -TWO63 <= d.r <= TWO63)
    && (fpu.fromInt)(MAX) == Fin(TWO63)
  }

  /** The layout key's double is not 2^63: neither the literal itself nor an integer that rounds to it. */
  predicate Distinguishable(fpu: Fpu, l: Literal)
  {
    match l case LInt(i) => (fpu.fromInt)(i) != Fin(TWO63) case LFloat(d) => d != Fin(TWO63) case _ => true
  }

  ghost predicate Layout(ls: seq<Literal>)
  {
    && (forall i :: 0 <= i < |ls| ==> Classified(ls[i]))
    && (forall i, j :: 0 <= i < j < |ls| ==> ClassOf(KeyOf(ls[i])) != ClassOf(KeyOf(ls[j])))
  }

  /** One comparison of an emitted accessor: a `case` of its switches, or a test under the other tag. */
  predicate Hits(fpu: Fpu, l: Literal, k: Key)
  {
    match (l, k)
    case (LText(s), Text(t, _)) => s == t
    case (LInt(i), Num(I(j))) => i == j
    case (LInt(i), Num(F(d))) => Eq(d, (fpu.fromInt)(i))
    case (LFloat(e), Num(F(d))) => Eq(d, e)
    case (LFloat(e), Num(I(j))) => Eq((fpu.fromInt)(j), e)
    case (LFlag(b), Flag(c)) => b == c
    case _ => false
  }

  lemma FloatLiteralMissesIntegers(fpu: Fpu, e: Double, j: int64)
    requires Rounds(fpu) && e.Fin? && ToInt(e).None? && e != Fin(TWO63)
    ensures !Eq((fpu.fromInt)(j), e)
  {
    var d := (fpu.fromInt)(j);
    assert ToInt(d).None? ==> d == Fin(TWO63);
  }

  lemma IntegerLiteralMissesFloats(fpu: Fpu, i: int64, d: Double)
    requires Rounds(fpu) && (fpu.fromInt)(i) != Fin(TWO63) && ToInt(d).None?
    ensures !Eq(d, (fpu.fromInt)(i))
  {
    var x := (fpu.fromInt)(i);
    assert ToInt(x).None? ==> x == Fin(TWO63);
  }

  /** Asked with a normalised key, as every caller does, an accessor hits exactly on a key that is Lua-equal to the
      layout key. */
  lemma HitsIsLuaEqual(fpu: Fpu, l: Literal, k: Key)
    requires Rounds(fpu) && Classified(l) && Distinguishable(fpu, l) && Usable(k)
    ensures Hits(fpu, l, Normalize(k)) <==> LuaEqual(KeyOf(l), k)
  {
    if k.Num? && k.n.F? {
      FloatKeyHits(fpu, l, k.n.f);
    } else if k.Num? && l.LFloat? {
      FloatLiteralMissesIntegers(fpu, l.d, k.n.i);
      FloatClass(k.n.i, l.d);
    }
  }

  lemma FloatKeyHits(fpu: Fpu, l: Literal, d: Double)
    requires Rounds(fpu) && Classified(l) && Distinguishable(fpu, l) && !d.NaN?
    ensures Hits(fpu, l, Normalize(Num(F(d)))) <==> LuaEqual(KeyOf(l), Num(F(d)))
  {
    if l.LInt? {
      FloatClass(l.i, d);
      if ToInt(d).None? { IntegerLiteralMissesFloats(fpu, l.i, d); }
    } else if l.LFloat? {
      FloatClasses(l.d, d);
      if ToInt(d).Some? { FloatLiteralMissesIntegers(fpu, l.d, ToInt(d).value); }
    }
  }

  /** And the condition is exact: it fails on some key just when the layout key's double is 2^63, as for the literal
      2^63 and the last integers below it. */
  lemma HitsIff(fpu: Fpu, l: Literal)
    requires Rounds(fpu) && Classified(l)
    ensures (forall k | Usable(k) :: Hits(fpu, l, Normalize(k)) <==> LuaEqual(KeyOf(l), k)) <==> Distinguishable(fpu, l)
  {
    if Distinguishable(fpu, l) {
      forall k | Usable(k) ensures Hits(fpu, l, Normalize(k)) <==> LuaEqual(KeyOf(l), k) { HitsIsLuaEqual(fpu, l, k); }
    } else if l.LInt? {
      LargeKeyHitsWrongly(fpu, l.i);
    } else {
      var k := Num(I(MAX));
      assert Normalize(k) == k && Hits(fpu, l, k) && !LuaEqual(KeyOf(l), k);
    }
  }

  /** An integer layout key that rounds to 2^63, the largest one for example, answers for the float 2^63. */
  lemma LargeKeyHitsWrongly(fpu: Fpu, i: int64)
    requires (fpu.fromInt)(i) == Fin(TWO63)
    ensures var k := Num(F(Fin(TWO63)));
            Usable(k) && Normalize(k) == k && Hits(fpu, LInt(i), k) && !LuaEqual(KeyOf(LInt(i)), k)
  {
  }

  // ----- the hash part -----

  /** Entries with pairwise different keys; a store of nil removes. */
  function HashGet(es: seq<(Key, Value)>, k: Key): Value
  {
    if es == [] then Nil else if LuaEqual(es[0].0, k) then es[0].1 else HashGet(es[1..], k)
  }

  function HashSet(es: seq<(Key, Value)>, k: Key, v: Value): seq<(Key, Value)>
  {
    if es == [] then (if v.Nil? then [] else [(k, v)])
    else if LuaEqual(es[0].0, k) then (if v.Nil? then es[1..] else [(es[0].0, v)] + es[1..])
    else [es[0]] + HashSet(es[1..], k, v)
  }

  predicate HashOk(es: seq<(Key, Value)>)
  {
    && (forall i :: 0 <= i < |es| ==> Usable(es[i].0) && es[i].1 != Nil)
    && (forall i, j :: 0 <= i < j < |es| ==> ClassOf(es[i].0) != ClassOf(es[j].0))
  }

  /** The map a list of entries stands for; nil entries are absent. */
  function Entries(es: seq<(Key, Value)>): (m: map<Class, Value>)
    requires forall i :: 0 <= i < |es| ==> es[i].1 != Nil ==> Usable(es[i].0)
  {
    if es == [] then map[]
    else
      var m := Entries(es[1..]);
      if es[0].1.Nil? then m else m[ClassOf(es[0].0) := es[0].1]
  }

  // ----- plain maps -----

  function Get(m: map<Class, Value>, k: Key): Value
    requires Usable(k)
  {
    if ClassOf(k) in m then m[ClassOf(k)] else Nil
  }

  function Put(m: map<Class, Value>, k: Key, v: Value): map<Class, Value>
    requires Usable(k)
  {
    if v.Nil? then m - {ClassOf(k)} else m[ClassOf(k) := v]
  }

  lemma {:induction false} EntriesAre(es: seq<(Key, Value)>)
    requires forall i :: 0 <= i < |es| ==> es[i].1 != Nil ==> Usable(es[i].0)
    requires forall i, j :: 0 <= i < j < |es| && es[i].1 != Nil && es[j].1 != Nil ==> ClassOf(es[i].0) != ClassOf(es[j].0)
    ensures forall c :: c in Entries(es) <==> exists i :: 0 <= i < |es| && es[i].1 != Nil && ClassOf(es[i].0) == c
    ensures forall i :: 0 <= i < |es| && es[i].1 != Nil ==> Entries(es)[ClassOf(es[i].0)] == es[i].1
  {
    if es != [] {
      var t := es[1..];
      assert forall i :: 0 <= i < |t| ==> t[i] == es[i + 1];
      assert forall i :: 0 < i < |es| ==> es[i] == t[i - 1];
      EntriesAre(t);
      forall c ensures c in Entries(es) <==> exists i :: 0 <= i < |es| && es[i].1 != Nil && ClassOf(es[i].0) == c {
        if c in Entries(t) {
          var i :| 0 <= i < |t| && t[i].1 != Nil && ClassOf(t[i].0) == c;
          assert es[i + 1] == t[i];
        }
      }
    }
  }

  lemma TailOk(es: seq<(Key, Value)>)
    requires HashOk(es) && es != []
    ensures HashOk(es[1..]) && ClassOf(es[0].0) !in Entries(es[1..])
  {
    var t, c := es[1..], ClassOf(es[0].0);
    assert forall i :: 0 <= i < |t| ==> t[i] == es[i + 1];
    EntriesAre(t);
  }

  /** The hash part is a map. */
  lemma {:induction false} HashGetIsMap(es: seq<(Key, Value)>, k: Key)
    requires HashOk(es) && Usable(k)
    ensures HashGet(es, k) == Get(Entries(es), k)
    decreases |es|
  {
    if es != [] {
      TailOk(es);
      ClassIsLuaEqual(es[0].0, k);
      HashGetIsMap(es[1..], k);
    }
  }

  lemma {:induction false} HashSetIsMap(es: seq<(Key, Value)>, k: Key, v: Value)
    requires HashOk(es) && Usable(k)
    ensures HashOk(HashSet(es, k, v)) && Entries(HashSet(es, k, v)) == Put(Entries(es), k, v)
    decreases |es|
  {
    if es == [] {
      if v != Nil { NewHead((k, v), []); assert [(k, v)] + [] == [(k, v)]; }
    } else {
      TailOk(es);
      ClassIsLuaEqual(es[0].0, k);
      if LuaEqual(es[0].0, k) {
        if v.Nil? { RemoveHead(es); } else { HeadReplaced(es, v); }
      } else {
        HashSetIsMap(es[1..], k, v);
        PutTail(Entries(es[1..]), ClassOf(es[0].0), es[0].1, k, v);
        NewHead(es[0], HashSet(es[1..], k, v));
      }
    }
  }

  lemma RemoveHead(es: seq<(Key, Value)>)
    requires HashOk(es) && es != [] && ClassOf(es[0].0) !in Entries(es[1..])
    ensures Entries(es[1..]) == Entries(es) - {ClassOf(es[0].0)}
  {
  }

  lemma PutTail(m: map<Class, Value>, c: Class, x: Value, k: Key, v: Value)
    requires Usable(k) && ClassOf(k) != c
    ensures Put(m[c := x], k, v) == Put(m, k, v)[c := x]
    ensures c !in m ==> c !in Put(m, k, v)
  {
  }

  lemma HeadReplaced(es: seq<(Key, Value)>, v: Value)
    requires es != [] && HashOk(es) && v != Nil
    ensures var es1 := [(es[0].0, v)] + es[1..]; HashOk(es1) && Entries(es1) == Entries(es[1..])[ClassOf(es[0].0) := v]
  {
    var es1 := [(es[0].0, v)] + es[1..];
    assert es1[1..] == es[1..];
    assert forall i :: 0 < i < |es1| ==> es1[i] == es[i];
  }

  lemma NewHead(e: (Key, Value), t: seq<(Key, Value)>)
    requires HashOk(t) && Usable(e.0) && e.1 != Nil && ClassOf(e.0) !in Entries(t)
    ensures HashOk([e] + t) && Entries([e] + t) == Entries(t)[ClassOf(e.0) := e.1]
  {
    EntriesAre(t);
    var es := [e] + t;
    assert es[1..] == t;
    forall i, j | 0 <= i < j < |es| ensures ClassOf(es[i].0) != ClassOf(es[j].0) {
      if i == 0 { assert ClassOf(t[j - 1].0) in Entries(t); }
    }
  }

  // ----- the struct part as a list of entries -----

  /** Nil entries may hold any key; the others have pairwise different ones. */
  predicate PartOk(es: seq<(Key, Value)>)
  {
    && (forall i :: 0 <= i < |es| && es[i].1 != Nil ==> Usable(es[i].0))
    && (forall i, j :: 0 <= i < j < |es| && es[i].1 != Nil && es[j].1 != Nil ==> ClassOf(es[i].0) != ClassOf(es[j].0))
  }

  /** Writing one field is a write to the map. */
  lemma PutField(es: seq<(Key, Value)>, i: nat, k: Key, v: Value)
    requires PartOk(es) && i < |es| && Usable(k)
    requires es[i].1 != Nil ==> ClassOf(es[i].0) == ClassOf(k)
    requires forall j :: 0 <= j < |es| && j != i && es[j].1 != Nil ==> ClassOf(es[j].0) != ClassOf(k)
    ensures var es1 := es[i := (k, v)]; PartOk(es1) && Entries(es1) == Put(Entries(es), k, v)
  {
    var es1 := es[i := (k, v)];
    assert PartOk(es1);
    EntriesAre(es);
    EntriesAre(es1);
    var a, b := Entries(es1), Put(Entries(es), k, v);
    forall c ensures (c in a <==> c in b) && (c in a ==> a[c] == b[c]) {
      if c in a {
        var j :| 0 <= j < |es1| && es1[j].1 != Nil && ClassOf(es1[j].0) == c;
        if j != i { assert es[j] == es1[j]; }
      }
      if c in b {
        if c == ClassOf(k) { assert es1[i] == (k, v); }
        else { var j :| 0 <= j < |es| && es[j].1 != Nil && ClassOf(es[j].0) == c; assert j != i && es1[j] == es[j]; }
      }
    }
    assert a == b;
  }
}
