/** The loops emitted for `table.insert(t, pos, v)` and `table.remove(t, pos)` (section 6.6 of the Lua 5.4
    Reference Manual). */
module TableShift {
  import opened Options

  datatype Value = Nil | Data(k: int)
  /** A table; nil under a key and the key being absent are the same thing. */
  type Table = map<int, Value>

  function Get(m: Table, k: int): Value { if k in m then m[k] else Nil }

  function Set(m: Table, k: int, v: Value): (r: Table)
    ensures forall j {:trigger Get(r, j)} :: Get(r, j) == if j == k then v else Get(m, j)
  {
    m[k := v]
  }

  ghost predicate Same(a: Table, b: Table) { forall k :: Get(a, k) == Get(b, k) }

  /** `#t`: the length of the unbroken prefix. */
  predicate Length(m: Table, n: int)
  {
    0 <= n && (forall i :: 1 <= i <= n ==> Get(m, i) != Nil) && Get(m, n + 1) == Nil
  }

  /** The list part as a sequence. */
  function List(m: Table, n: nat): (s: seq<Value>)
    ensures |s| == n && forall i :: 0 <= i < n ==> s[i] == Get(m, i + 1)
  {
    seq(n, i requires 0 <= i < n => Get(m, i + 1))
  }

  /** What insertion leaves under each key. */
  ghost predicate Inserted(m: Table, r: Table, n: int, pos: int, v: Value)
  {
    forall k {:trigger Get(r, k)} :: Get(r, k) == if k == pos then v else if pos < k <= n + 1 then Get(m, k - 1) else Get(m, k)
  }

  /** What removal leaves. */
  ghost predicate Removed(m: Table, r: Table, n: int, pos: int)
  {
    forall k {:trigger Get(r, k)} :: Get(r, k) == if pos <= k < n then Get(m, k + 1) else if k == n then Nil else Get(m, k)
  }

  datatype Outcome = Done(result: Value) | OutOfBounds

  class Object {
    var m: Table

    /** The emitted insertion; `n` is what FlLenInt gave. */
    method Insert(n: int, pos: int, v: Value) returns (o: Outcome)
      requires Length(m, n)
      modifies this
      ensures o == if 1 <= pos <= n + 1 then Done(Nil) else OutOfBounds
      ensures if o.Done? then Inserted(old(m), m, n, pos, v) else m == old(m)
    {
      if !(pos >= 1 && pos <= n + 1) { return OutOfBounds; }
      var idx := n;
      while idx >= pos
        invariant pos - 1 <= idx <= n
        invariant forall k {:trigger Get(m, k)} :: Get(m, k) == if idx + 1 < k <= n + 1 then Get(old(m), k - 1) else Get(old(m), k)
      {
        var item := Get(m, idx);
        m := Set(m, idx + 1, item);
        idx := idx - 1;
      }
      m := Set(m, pos, v);
      o := Done(Nil);
    }

    /** The emitted removal; an omitted or nil position is the length. */
    method Remove(n: int, pos: Option<int>) returns (o: Outcome)
      requires Length(m, n)
      modifies this
      ensures o.OutOfBounds? <==> pos.Some? && !(1 <= pos.value <= n + 1)
      ensures var p := if pos.Some? then pos.value else n;
              if 1 <= p <= n then o == Done(Get(old(m), p)) && Removed(old(m), m, n, p) else m == old(m) && (o.Done? ==> o == Done(Nil))
    {
      var p := if pos.Some? then pos.value else n;
      if pos.Some? && (p < 1 || p > n + 1) { return OutOfBounds; }
      if p >= 1 && p <= n {
        o := Done(Get(m, p));
        var idx := p;
        while idx < n
          invariant p <= idx <= n
          invariant forall k {:trigger Get(m, k)} :: Get(m, k) == if p <= k < idx then Get(old(m), k + 1) else Get(old(m), k)
        {
          var item := Get(m, idx + 1);
          m := Set(m, idx, item);
          idx := idx + 1;
        }
        m := Set(m, n, Nil);
      } else {
        o := Done(Nil);
      }
    }
  }

  /** Insertion and removal are the sequence operations on the list part, and touch no other key. */
  lemma InsertIsSequenceInsert(m: Table, r: Table, n: nat, pos: int, v: Value)
    requires Length(m, n) && 1 <= pos <= n + 1 && Inserted(m, r, n, pos, v)
    ensures List(r, n + 1) == List(m, n)[..pos - 1] + [v] + List(m, n)[pos - 1..]
    ensures forall k :: k < 1 || k > n + 1 ==> Get(r, k) == Get(m, k)
  {
  }

  lemma RemoveIsSequenceRemove(m: Table, r: Table, n: nat, pos: int)
    requires Length(m, n) && 1 <= pos <= n && Removed(m, r, n, pos)
    ensures List(r, n - 1) == List(m, n)[..pos - 1] + List(m, n)[pos..] && Get(r, n) == Nil
    ensures forall k :: k < 1 || k > n ==> Get(r, k) == Get(m, k)
  {
  }

  /** Removing at the position just inserted at: restores the table exactly when the insertion did not join the
      list to a further element after a gap; the inserted value comes back in any case. */
  lemma RemoveUndoesInsertIff(m: Table, a: Table, b: Table, n: nat, n2: nat, pos: int, v: Value)
    requires Length(m, n) && 1 <= pos <= n + 1 && v != Nil
    requires Inserted(m, a, n, pos, v) && Length(a, n2) && Removed(a, b, n2, pos)
    ensures Get(a, pos) == v && pos <= n2
    ensures Same(b, m) <==> Get(m, n + 2) == Nil
  {
    assert Get(a, n2 + 1) == Nil;
    assert n2 >= n + 1;
    if Get(m, n + 2) == Nil {
      assert n2 == n + 1 by { assert Get(a, n + 2) == Nil; }
    } else {
      assert Get(a, n + 2) != Nil;
      assert Get(b, n + 1) == Get(a, n + 2) != Get(m, n + 1);
    }
  }

  // ----- against Lua's own remove -----

  /** Lua's removal: the position defaults to the length and is not checked when it is the length; what is there
      is returned, the rest shifts down, and the last place is erased. */
  ghost predicate LuaRemoves(m: Table, r: Table, n: nat, pos: Option<int>, o: Outcome)
  {
    var p := if pos.Some? then pos.value else n as int;
    if p != n && !(1 <= p <= n + 1) then o == OutOfBounds && r == m
    else
      && o == Done(Get(m, p))
      && forall k {:trigger Get(r, k)} :: Get(r, k) == if p <= k < n then Get(m, k + 1) else if k == (if p < n then n as int else p) then Nil else Get(m, k)
  }

  /** The emitted removal is Lua's except for key 0 of an empty list. */
  lemma RemoveIsLuaIff(m: Table, r: Table, n: nat, pos: Option<int>, o: Outcome)
    requires Length(m, n)
    requires o.OutOfBounds? <==> pos.Some? && !(1 <= pos.value <= n + 1)
    requires var p := if pos.Some? then pos.value else n as int;
             if 1 <= p <= n then o == Done(Get(m, p)) && Removed(m, r, n, p) else r == m && (o.Done? ==> o == Done(Nil))
    ensures LuaRemoves(m, r, n, pos, o) <==> !(n == 0 && (pos == Some(0) || (pos == None && Get(m, 0) != Nil)))
  {
    assert Get(m, n + 1) == Nil;
  }
}
