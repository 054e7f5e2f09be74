/** The table object: struct fields, their mirror for iteration, and a hash part; proved against one plain map. */
module SpecTableObject {
  import opened Options
  import opened Machine
  import opened SpecTable

  // ----- representation, as values -----

  function Zip(keys: seq<Key>, vals: seq<Value>): (es: seq<(Key, Value)>)
    requires |keys| == |vals|
    ensures |es| == |vals| && forall i :: 0 <= i < |es| ==> es[i] == (keys[i], vals[i])
  {
    seq(|vals|, i requires 0 <= i < |vals| => (keys[i], vals[i]))
  }

  /** A field that is not nil remembers a key equal to its layout key. */
  predicate FieldsOk(ls: seq<Literal>, keys: seq<Key>, vals: seq<Value>)
  {
    && |keys| == |ls| == |vals|
    && forall i :: 0 <= i < |ls| && vals[i] != Nil ==> Usable(keys[i]) && Usable(KeyOf(ls[i])) && ClassOf(keys[i]) == ClassOf(KeyOf(ls[i]))
  }

  /** No hash entry has a key of the layout. */
  ghost predicate Apart(ls: seq<Literal>, c: Class)
  {
    forall j :: 0 <= j < |ls| ==> Usable(KeyOf(ls[j])) && c != ClassOf(KeyOf(ls[j]))
  }

  ghost predicate RestOk(ls: seq<Literal>, hash: seq<(Key, Value)>)
  {
    HashOk(hash) && forall c :: c in Entries(hash) ==> Apart(ls, c)
  }

  lemma StructOk(ls: seq<Literal>, keys: seq<Key>, vals: seq<Value>)
    requires Layout(ls) && FieldsOk(ls, keys, vals)
    ensures PartOk(Zip(keys, vals))
    ensures forall c :: c in Entries(Zip(keys, vals)) ==> !Apart(ls, c)
    ensures forall i :: 0 <= i < |ls| ==> Get(Entries(Zip(keys, vals)), KeyOf(ls[i])) == vals[i]
  {
    var es := Zip(keys, vals);
    EntriesAre(es);
    forall c | c in Entries(es) ensures !Apart(ls, c) {
      var i :| 0 <= i < |es| && es[i].1 != Nil && ClassOf(es[i].0) == c;
      assert c == ClassOf(KeyOf(ls[i]));
    }
    forall i | 0 <= i < |ls| ensures Get(Entries(es), KeyOf(ls[i])) == vals[i] { FieldIs(ls, keys, vals, i); }
  }

  lemma FieldIs(ls: seq<Literal>, keys: seq<Key>, vals: seq<Value>, i: nat)
    requires Layout(ls) && FieldsOk(ls, keys, vals) && PartOk(Zip(keys, vals)) && i < |ls|
    ensures Get(Entries(Zip(keys, vals)), KeyOf(ls[i])) == vals[i]
  {
    var es := Zip(keys, vals);
    EntriesAre(es);
    var c := ClassOf(KeyOf(ls[i]));
    if vals[i] != Nil {
      assert es[i].1 != Nil && ClassOf(es[i].0) == c;
    } else {
      forall j | 0 <= j < |es| && es[j].1 != Nil ensures ClassOf(es[j].0) != c {
        assert ClassOf(es[j].0) == ClassOf(KeyOf(ls[j]));
      }
    }
  }

  /** The plain map the representation stands for. */
  function Meaning(ls: seq<Literal>, keys: seq<Key>, vals: seq<Value>, hash: seq<(Key, Value)>): map<Class, Value>
    requires FieldsOk(ls, keys, vals) && HashOk(hash)
  {
    Entries(Zip(keys, vals)) + Entries(hash)
  }

  lemma ReadHere(ls: seq<Literal>, keys: seq<Key>, vals: seq<Value>, hash: seq<(Key, Value)>, i: nat, k: Key)
    requires Layout(ls) && FieldsOk(ls, keys, vals) && RestOk(ls, hash)
    requires i < |ls| && Usable(k) && ClassOf(k) == ClassOf(KeyOf(ls[i]))
    ensures Get(Meaning(ls, keys, vals, hash), k) == vals[i]
  {
    StructOk(ls, keys, vals);
    assert Get(Entries(Zip(keys, vals)), KeyOf(ls[i])) == vals[i];
    assert !Apart(ls, ClassOf(k));
  }

  lemma ReadRest(ls: seq<Literal>, keys: seq<Key>, vals: seq<Value>, hash: seq<(Key, Value)>, k: Key)
    requires Layout(ls) && FieldsOk(ls, keys, vals) && RestOk(ls, hash)
    requires Usable(k) && Apart(ls, ClassOf(k))
    ensures Get(Meaning(ls, keys, vals, hash), k) == HashGet(hash, k)
  {
    StructOk(ls, keys, vals);
    HashGetIsMap(hash, k);
  }

  lemma WriteHere(ls: seq<Literal>, keys: seq<Key>, vals: seq<Value>, hash: seq<(Key, Value)>, i: nat, k: Key, v: Value)
    requires Layout(ls) && FieldsOk(ls, keys, vals) && RestOk(ls, hash)
    requires i < |ls| && Usable(k) && ClassOf(k) == ClassOf(KeyOf(ls[i]))
    ensures FieldsOk(ls, keys[i := k], vals[i := v])
    ensures Meaning(ls, keys[i := k], vals[i := v], hash) == Put(Meaning(ls, keys, vals, hash), k, v)
  {
    WriteStruct(ls, keys, vals, i, k, v);
    assert !Apart(ls, ClassOf(k)) && ClassOf(k) !in Entries(hash);
    PutFirst(Entries(Zip(keys, vals)), Entries(hash), k, v);
  }

  lemma PutFirst(m: map<Class, Value>, rest: map<Class, Value>, k: Key, v: Value)
    requires Usable(k) && ClassOf(k) !in rest
    ensures Put(m, k, v) + rest == Put(m + rest, k, v)
  {
  }

  lemma WriteStruct(ls: seq<Literal>, keys: seq<Key>, vals: seq<Value>, i: nat, k: Key, v: Value)
    requires Layout(ls) && FieldsOk(ls, keys, vals)
    requires i < |ls| && Usable(k) && ClassOf(k) == ClassOf(KeyOf(ls[i]))
    ensures FieldsOk(ls, keys[i := k], vals[i := v])
    ensures Entries(Zip(keys[i := k], vals[i := v])) == Put(Entries(Zip(keys, vals)), k, v)
  {
    StructOk(ls, keys, vals);
    var es := Zip(keys, vals);
    forall j | 0 <= j < |es| && j != i && es[j].1 != Nil ensures ClassOf(es[j].0) != ClassOf(k) {
      assert ClassOf(KeyOf(ls[j])) != ClassOf(KeyOf(ls[i]));
    }
    PutField(es, i, k, v);
    assert Zip(keys[i := k], vals[i := v]) == es[i := (k, v)];
  }

  lemma WriteRest(ls: seq<Literal>, keys: seq<Key>, vals: seq<Value>, hash: seq<(Key, Value)>, k: Key, v: Value)
    requires Layout(ls) && FieldsOk(ls, keys, vals) && RestOk(ls, hash)
    requires Usable(k) && Apart(ls, ClassOf(k))
    ensures RestOk(ls, HashSet(hash, k, v))
    ensures Meaning(ls, keys, vals, HashSet(hash, k, v)) == Put(Meaning(ls, keys, vals, hash), k, v)
  {
    StructOk(ls, keys, vals);
    HashSetIsMap(hash, k, v);
    assert ClassOf(k) !in Entries(Zip(keys, vals));
    PutLast(Entries(Zip(keys, vals)), Entries(hash), k, v);
  }

  lemma PutLast(m: map<Class, Value>, rest: map<Class, Value>, k: Key, v: Value)
    requires Usable(k) && ClassOf(k) !in m
    ensures m + Put(rest, k, v) == Put(m + rest, k, v)
  {
  }

  // ----- operations -----

  datatype Op =
    | Read(k: Key)                  // a key known only at run time
    | Write(k: Key, v: Value)
    | ReadField(i: nat)             // a literal key of the layout, compiled to the struct field
    | WriteField(i: nat, v: Value)

  /** What an operation answers; `Fault` is an index error. */
  datatype Answer = Got(v: Value) | Stored | Fault

  predicate InLayout(ls: seq<Literal>, op: Op)
  {
    (op.ReadField? || op.WriteField?) ==> op.i < |ls| && Usable(KeyOf(ls[op.i]))
  }

  /** The same operations on a plain map, as Lua has them: reading at nil or NaN gives nil, writing there raises. */
  function PlainOp(ls: seq<Literal>, m: map<Class, Value>, op: Op): (Answer, map<Class, Value>)
    requires InLayout(ls, op)
  {
    match op
    case Read(k) => (Got(if Usable(k) then Get(m, k) else Nil), m)
    case Write(k, v) => if Usable(k) then (Stored, Put(m, k, v)) else (Fault, m)
    case ReadField(i) => (Got(Get(m, KeyOf(ls[i]))), m)
    case WriteField(i, v) => (Stored, Put(m, KeyOf(ls[i]), v))
  }

  /** The one operation on which the code does not answer as Lua: it raises on a read at nil or NaN. */
  predicate RaisesInstead(op: Op) { op.Read? && !Usable(op.k) }

  function PlainRun(ls: seq<Literal>, m: map<Class, Value>, ops: seq<Op>): (seq<Answer>, map<Class, Value>)
    requires forall i :: 0 <= i < |ops| ==> InLayout(ls, ops[i])
    decreases |ops|
  {
    if ops == [] then ([], m)
    else
      var (a, m1) := PlainOp(ls, m, ops[0]);
      var (rest, m2) := PlainRun(ls, m1, ops[1..]);
      ([a] + rest, m2)
  }

  function ArrayGet(arr: seq<Value>, k: Key): Option<Value>
  {
    if k.Num? && k.n.I? && 1 <= k.n.i <= |arr| then Some(arr[k.n.i - 1]) else None
  }

  /** FlArrSetInt: the new array part, or None when the key goes to the hash part. A table with an accessor
      never starts an array part. */
  function ArraySet(arr: seq<Value>, k: Key, v: Value, hasAccessor: bool): (r: Option<seq<Value>>)
    ensures hasAccessor && arr == [] ==> r.None?
  {
    if !k.Num? || !k.n.I? then None
    else if 1 <= k.n.i <= |arr| then Some(arr[k.n.i - 1 := v])
    else if k.n.i == |arr| + 1 && v != Nil && !hasAccessor then Some(arr + [v])
    else None
  }

  class Table {
    const fpu: Fpu
    const layout: seq<Literal>
    var fields: seq<Value>
    var specVals: seq<Value>
    var specKeys: seq<Key>
    var arr: seq<Value>
    var hash: seq<(Key, Value)>

    ghost predicate Valid()
      reads this
    {
      && Layout(layout) && Rounds(fpu) && (forall i :: 0 <= i < |layout| ==> Distinguishable(fpu, layout[i]))
      && fields == specVals && FieldsOk(layout, specKeys, specVals)
      && arr == [] && RestOk(layout, hash)
    }

    ghost function Contents(): map<Class, Value>
      requires Valid()
      reads this
    {
      Meaning(layout, specKeys, specVals, hash)
    }

    /** An empty table of this layout: every field nil. */
    constructor (fpu: Fpu, layout: seq<Literal>)
      requires Layout(layout) && Rounds(fpu) && forall i :: 0 <= i < |layout| ==> Distinguishable(fpu, layout[i])
      ensures Valid() && Contents() == map[]
      ensures this.layout == layout && this.fpu == fpu
    {
      this.fpu, this.layout := fpu, layout;
      fields := seq(|layout|, i => Nil);
      specVals := seq(|layout|, i => Nil);
      specKeys := seq(|layout|, i => NilKey);
      arr, hash := [], [];
      new;
      EntriesAre(Zip(specKeys, specVals));
    }

    /** The emitted accessor's search: the field whose key the run-time key equals. */
    method Search(k: Key) returns (i: Option<nat>)
      requires Valid() && Usable(k) && Normalize(k) == k
      ensures i.Some? ==> i.value < |layout| && LuaEqual(KeyOf(layout[i.value]), k) && ClassOf(k) == ClassOf(KeyOf(layout[i.value]))
      ensures i.None? ==> Apart(layout, ClassOf(k)) && forall j :: 0 <= j < |layout| ==> !LuaEqual(KeyOf(layout[j]), k)
    {
      var n := 0;
      while n < |layout|
        invariant 0 <= n <= |layout|
        invariant forall j :: 0 <= j < n ==> ClassOf(KeyOf(layout[j])) != ClassOf(k) && !LuaEqual(KeyOf(layout[j]), k)
      {
        HitsIsLuaEqual(fpu, layout[n], k);
        ClassIsLuaEqual(KeyOf(layout[n]), k);
        if Hits(fpu, layout[n], k) { return Some(n); }
        n := n + 1;
      }
      i := None;
    }

    /** FlGetTable. */
    method DynamicRead(key: Key) returns (a: Answer)
      requires Valid()
      ensures a == if Usable(key) then Got(Get(Contents(), key)) else Fault
    {
      var k := Normalize(key);
      if !Usable(k) { return Fault; }
      var i := Search(k);
      if i.Some? {
        ReadHere(layout, specKeys, specVals, hash, i.value, k);
        return Got(fields[i.value]);
      }
      ReadRest(layout, specKeys, specVals, hash, k);
      a := Got(match ArrayGet(arr, k) case Some(v) => v case None => HashGet(hash, k));
    }

    /** FlSetTable. */
    method DynamicWrite(key: Key, v: Value) returns (a: Answer)
      requires Valid()
      modifies this
      ensures Valid()
      ensures a == if Usable(key) then Stored else Fault
      ensures Contents() == if Usable(key) then Put(old(Contents()), key, v) else old(Contents())
    {
      var k := Normalize(key);
      if !Usable(k) { return Fault; }
      var i := Search(k);
      if i.Some? {
        StoreField(i.value, k, v);
        return Stored;
      }
      var grown := ArraySet(arr, k, v, true);
      if grown.None? {
        WriteRest(layout, specKeys, specVals, hash, k, v);
        hash := HashSet(hash, k, v);
      }
      arr := match grown case Some(xs) => xs case None => arr;
      a := Stored;
    }

    /** The writes of an accessor, or of a compiled field write: field, mirror and key. */
    method StoreField(i: nat, k: Key, v: Value)
      requires Valid() && i < |layout| && Usable(k) && ClassOf(k) == ClassOf(KeyOf(layout[i]))
      modifies this
      ensures Valid() && Contents() == Put(old(Contents()), k, v)
    {
      WriteHere(layout, specKeys, specVals, hash, i, k, v);
      fields := fields[i := v];
      specVals := specVals[i := v];
      specKeys := specKeys[i := k];
    }

    /** A field read compiled from a literal key. */
    method StaticRead(i: nat) returns (a: Answer)
      requires Valid() && i < |layout|
      ensures a == Got(Get(Contents(), KeyOf(layout[i])))
    {
      ReadHere(layout, specKeys, specVals, hash, i, KeyOf(layout[i]));
      a := Got(fields[i]);
    }

    /** A field write compiled from a literal key. */
    method StaticWrite(i: nat, v: Value) returns (a: Answer)
      requires Valid() && i < |layout|
      modifies this
      ensures Valid() && a == Stored && Contents() == Put(old(Contents()), KeyOf(layout[i]), v)
    {
      StoreField(i, KeyOf(layout[i]), v);
      a := Stored;
    }

    method Apply(op: Op) returns (a: Answer)
      requires Valid() && InLayout(layout, op)
      modifies this
      ensures Valid() && Contents() == PlainOp(layout, old(Contents()), op).1
      ensures a == if RaisesInstead(op) then Fault else PlainOp(layout, old(Contents()), op).0
    {
      match op
      case Read(k) => a := DynamicRead(k);
      case Write(k, v) => a := DynamicWrite(k, v);
      case ReadField(i) => a := StaticRead(i);
      case WriteField(i, v) => a := StaticWrite(i, v);
    }

    /** Any sequence of operations ends as on the plain map, and each is answered as there exactly when it is not a
        read at nil or NaN. */
    method Perform(ops: seq<Op>) returns (answers: seq<Answer>)
      requires Valid() && forall i :: 0 <= i < |ops| ==> InLayout(layout, ops[i])
      modifies this
      ensures Valid() && Contents() == PlainRun(layout, old(Contents()), ops).1 && |answers| == |ops|
      ensures var plain := PlainRun(layout, old(Contents()), ops).0;
              |plain| == |ops| && forall i :: 0 <= i < |ops| ==>
                (answers[i] == plain[i] <==> !RaisesInstead(ops[i])) && (RaisesInstead(ops[i]) ==> answers[i] == Fault)
      decreases |ops|
    {
      if ops == [] { return []; }
      ghost var m := Contents();
      var a := Apply(ops[0]);
      var rest := Perform(ops[1..]);
      answers := [a] + rest;
      ghost var plain := PlainRun(layout, m, ops).0;
      assert plain[1..] == PlainRun(layout, PlainOp(layout, m, ops[0]).1, ops[1..]).0;
      forall i | 0 <= i < |ops| ensures answers[i] == plain[i] <==> !RaisesInstead(ops[i]) {
        if i > 0 { assert ops[i] == ops[1..][i - 1] && answers[i] == rest[i - 1] && plain[i] == plain[1..][i - 1]; }
      }
    }

    /** `pairs`: the struct part, then the array part, then the hash part; nil entries are skipped. */
    method Pairs() returns (out: seq<(Key, Value)>)
      requires Valid()
      ensures out == Present(Zip(specKeys, specVals) + hash)
    {
      ghost var all := Zip(specKeys, specVals) + hash;
      out := [];
      var size := |hash| + |specVals| + |arr|;
      var idx := 0;
      while idx < size
        invariant 0 <= idx <= size
        invariant out == Present(all[..idx])
      {
        var e := Entry(idx);
        PresentSnoc(all[..idx], e);
        assert all[..idx + 1] == all[..idx] + [e];
        if e.1 != Nil { out := out + [e]; }
        idx := idx + 1;
      }
      assert all[..size] == all;
    }

    /** GET_TABLE_ENTRY. */
    method Entry(idx: nat) returns (e: (Key, Value))
      requires Valid() && idx < |hash| + |specVals| + |arr|
      ensures e == (Zip(specKeys, specVals) + hash)[idx]
    {
      if idx < |specVals| { return (specKeys[idx], specVals[idx]); }
      var i := idx - |specVals| - |arr|;
      e := hash[i];
    }
  }

  // ----- what iteration sees -----

  function Present(es: seq<(Key, Value)>): (r: seq<(Key, Value)>)
  {
    if es == [] then [] else (if es[0].1.Nil? then [] else [es[0]]) + Present(es[1..])
  }

  lemma {:induction false} PresentSnoc(es: seq<(Key, Value)>, e: (Key, Value))
    ensures Present(es + [e]) == Present(es) + if e.1.Nil? then [] else [e]
  {
    if es == [] {
      assert [e][1..] == [] && es + [e] == [e];
    } else {
      assert (es + [e])[0] == es[0] && (es + [e])[1..] == es[1..] + [e];
      PresentSnoc(es[1..], e);
    }
  }

  lemma {:induction false} PresentAre(es: seq<(Key, Value)>)
    requires PartOk(es)
    ensures var out := Present(es);
            && (forall e :: e in out <==> e in es && e.1 != Nil)
            && (forall e <- out :: Usable(e.0))
            && (forall i, j :: 0 <= i < j < |out| ==> ClassOf(out[i].0) != ClassOf(out[j].0))
  {
    if es != [] {
      var t := es[1..];
      assert forall i :: 0 <= i < |t| ==> t[i] == es[i + 1];
      PresentAre(t);
      var out := Present(es);
      assert es == [es[0]] + t;
      if es[0].1 != Nil {
        assert out == [es[0]] + Present(t);
        forall i, j | 0 <= i < j < |out| ensures ClassOf(out[i].0) != ClassOf(out[j].0) {
          if i == 0 {
            assert out[j] == Present(t)[j - 1] && out[j] in t;
            var n :| 0 <= n < |t| && t[n] == out[j];
            assert es[n + 1] == out[j];
          }
        }
      } else {
        assert out == Present(t);
      }
    }
  }

  lemma AllDistinct(ls: seq<Literal>, keys: seq<Key>, vals: seq<Value>, hash: seq<(Key, Value)>)
    requires Layout(ls) && FieldsOk(ls, keys, vals) && RestOk(ls, hash)
    ensures PartOk(Zip(keys, vals) + hash)
  {
    var es := Zip(keys, vals);
    var all := es + hash;
    StructOk(ls, keys, vals);
    forall i, j | 0 <= i < j < |all| && all[i].1 != Nil && all[j].1 != Nil ensures ClassOf(all[i].0) != ClassOf(all[j].0) {
      if i < |es| <= j { Cross(ls, es, hash, i, j - |es|); }
    }
  }

  lemma Cross(ls: seq<Literal>, es: seq<(Key, Value)>, hash: seq<(Key, Value)>, i: nat, j: nat)
    requires PartOk(es) && RestOk(ls, hash) && forall c :: c in Entries(es) ==> !Apart(ls, c)
    requires i < |es| && j < |hash| && es[i].1 != Nil
    ensures ClassOf(es[i].0) != ClassOf(hash[j].0)
  {
    EntriesAre(es);
    EntriesAre(hash);
    assert hash[j].1 != Nil;
  }

  /** Iteration yields each binding of the map once: its value, under a key equal to every key that reads it. */
  lemma PairsYieldsEachOnce(ls: seq<Literal>, keys: seq<Key>, vals: seq<Value>, hash: seq<(Key, Value)>)
    requires Layout(ls) && FieldsOk(ls, keys, vals) && RestOk(ls, hash)
    ensures var out := Present(Zip(keys, vals) + hash);
            var m := Meaning(ls, keys, vals, hash);
            && (forall e <- out :: Usable(e.0) && e.1 != Nil && Get(m, e.0) == e.1)
            && (forall i, j :: 0 <= i < j < |out| ==> !LuaEqual(out[i].0, out[j].0))
            && (forall c :: c in m ==> exists e :: e in out && ClassOf(e.0) == c)
  {
    var all := Zip(keys, vals) + hash;
    var out := Present(all);
    AllDistinct(ls, keys, vals, hash);
    PresentAre(all);
    forall e | e in out ensures Get(Meaning(ls, keys, vals, hash), e.0) == e.1 { ListedIsBound(ls, keys, vals, hash, e); }
    forall c | c in Meaning(ls, keys, vals, hash) ensures exists e :: e in out && ClassOf(e.0) == c {
      var e := BoundIsListed(ls, keys, vals, hash, c);
    }
    forall i, j | 0 <= i < j < |out| ensures !LuaEqual(out[i].0, out[j].0) {
      assert out[i] in out && out[j] in out;
      ClassIsLuaEqual(out[i].0, out[j].0);
    }
  }

  lemma ListedIsBound(ls: seq<Literal>, keys: seq<Key>, vals: seq<Value>, hash: seq<(Key, Value)>, e: (Key, Value))
    requires Layout(ls) && FieldsOk(ls, keys, vals) && RestOk(ls, hash)
    requires e in Zip(keys, vals) + hash && e.1 != Nil && Usable(e.0)
    ensures Get(Meaning(ls, keys, vals, hash), e.0) == e.1
  {
    var es := Zip(keys, vals);
    StructOk(ls, keys, vals);
    EntriesAre(es);
    EntriesAre(hash);
    if e in hash {
      var n :| 0 <= n < |hash| && hash[n] == e;
    } else {
      var n :| 0 <= n < |es| && es[n] == e;
      assert ClassOf(e.0) in Entries(es);
      assert ClassOf(e.0) !in Entries(hash);
    }
  }

  lemma BoundIsListed(ls: seq<Literal>, keys: seq<Key>, vals: seq<Value>, hash: seq<(Key, Value)>, c: Class) returns (e: (Key, Value))
    requires Layout(ls) && FieldsOk(ls, keys, vals) && RestOk(ls, hash)
    requires c in Meaning(ls, keys, vals, hash)
    ensures e in Zip(keys, vals) + hash && e.1 != Nil && Usable(e.0) && ClassOf(e.0) == c
  {
    var es := Zip(keys, vals);
    StructOk(ls, keys, vals);
    EntriesAre(es);
    EntriesAre(hash);
    if c in Entries(hash) {
      var n :| 0 <= n < |hash| && hash[n].1 != Nil && ClassOf(hash[n].0) == c;
      e := hash[n];
    } else {
      var n :| 0 <= n < |es| && es[n].1 != Nil && ClassOf(es[n].0) == c;
      e := es[n];
    }
  }
}
