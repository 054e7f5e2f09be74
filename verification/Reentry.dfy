/** Calls from the host into compiled code: when the arena is reset, and what survives. */
module Reentry {

  /** What an active call does: allocate, let native code call back into another call, fail. A nested call's
      exception is either caught by the native code that made it or propagates. */
  datatype Act = Alloc | Nested(call: Call, caught: bool) | Fail

  /** `admitted` is false when the function is unknown or the arguments do not fit: the call then fails before
      anything else happens. */
  datatype Call = Call(admitted: bool, body: seq<Act>)

  /** What can be observed from outside, in order. */
  datatype Event = Entered(depth: nat, reset: bool) | Left(depth: nat)

  /** The arena and the re-entrancy count of one State. */
  class State {
    var depth: nat
    var live: set<nat>
    var next: nat
    /** For each active call, outermost first, what has been allocated since it began. */
    ghost var active: seq<set<nat>>
    ghost var history: seq<Event>

    /** Nothing allocated during a still-active call has been reclaimed. */
    ghost predicate Valid()
      reads this
    {
      |active| == depth && (forall n <- live :: n < next) && forall i :: 0 <= i < depth ==> active[i] <= live
    }

    constructor ()
      ensures Valid() && depth == 0 && live == {} && history == []
    {
      depth, live, next, active, history := 0, {}, 0, [], [];
    }

    method Allocate()
      requires Valid()
      modifies this`live, this`next, this`active
      ensures Valid() && live == old(live) + {old(next)} && next == old(next) + 1
      ensures forall i :: 0 <= i < depth ==> active[i] == old(active[i]) + {old(next)}
    {
      live := live + {next};
      var grown := seq(|active|, i requires 0 <= i < |active| reads this => active[i] + {next});
      active, next := grown, next + 1;
    }

    /** The arena is emptied exactly when the call is admitted at depth zero, and only on entry: afterwards it holds
        what it held before, unless it was emptied, and everything allocated since, by this call and by the calls inside
        it. The count is restored on every way out. */
    method Enter(c: Call) returns (ok: bool)
      requires Valid()
      modifies this
      ensures Valid() && depth == old(depth)
      ensures ok == Trace(c, depth).0 && history == old(history) + Trace(c, depth).1
      ensures next == old(next) + Allocations(c)
      ensures live == (if c.admitted && old(depth) == 0 then {} else old(live)) + Numbered(old(next), next)
      ensures forall i :: 0 <= i < depth ==> active[i] == old(active[i]) + Numbered(old(next), next)
      decreases c, |c.body| + 1
    {
      ghost var past := history;
      if !c.admitted {
        assert history == past + [];
        return false;
      }
      if depth == 0 { live := {}; }
      history := history + [Entered(depth, depth == 0)];
      depth := depth + 1;
      active := active + [{}];
      ok := Perform(c, 0);
      depth := depth - 1;
      active := active[..depth];
      history := history + [Left(depth)];
      assert history == past + ([Entered(depth, depth == 0)] + TraceBody(c, 0, depth + 1).1 + [Left(depth)]);
    }

    /** The body of an active call from its i-th act, up to its end or the exception that leaves it. */
    method Perform(c: Call, i: nat) returns (ok: bool)
      requires Valid() && depth > 0 && i <= |c.body|
      modifies this
      ensures Valid() && depth == old(depth) && next == old(next) + AllocationsFrom(c, i)
      ensures ok == TraceBody(c, i, depth).0 && history == old(history) + TraceBody(c, i, depth).1
      ensures live == old(live) + Numbered(old(next), next)
      ensures forall j :: 0 <= j < depth ==> active[j] == old(active[j]) + Numbered(old(next), next)
      decreases c, |c.body| - i
    {
      if i == |c.body| { return true; }
      match c.body[i]
      case Alloc =>
        Allocate();
        ok := Perform(c, i + 1);
      case Fail =>
        ok := false;
      case Nested(inner, caught) =>
        ReturnsIff(inner, depth);
        ok := Enter(inner);
        if ok || caught { ok := Perform(c, i + 1); }
    }
  }

  // ----- what a call allocates -----

  /** The allocations numbered from `from` up to, but not including, `to`. */
  function Numbered(from: nat, to: nat): set<nat> { set n: nat | n < to && IsFrom(n, from) }

  predicate IsFrom(n: nat, from: nat) { from <= n }

  /** The call is admitted, fails nowhere itself, and no exception of a call inside it is left uncaught. */
  predicate Completes(c: Call)
    decreases c, 2
  {
    c.admitted && AllGoOn(c, 0)
  }

  predicate GoesOn(c: Call, i: nat)
    requires i < |c.body|
    decreases c, 0
  {
    match c.body[i]
    case Alloc => true
    case Fail => false
    case Nested(inner, caught) => caught || Completes(inner)
  }

  /** A call returns normally exactly when it completes, at whatever depth it is made. */
  lemma {:induction false} ReturnsIff(c: Call, depth: nat)
    ensures Trace(c, depth).0 <==> Completes(c)
    decreases c, |c.body| + 1
  {
    if c.admitted {
      BodyReturnsIff(c, 0, depth + 1);
      assert Completes(c) <==> AllGoOn(c, 0);
    }
  }

  predicate AllGoOn(c: Call, from: nat)
    decreases c, 1
  {
    forall i :: from <= i < |c.body| ==> GoesOn(c, i)
  }

  lemma {:induction false} BodyReturnsIff(c: Call, i: nat, depth: nat)
    requires i <= |c.body|
    ensures TraceBody(c, i, depth).0 <==> AllGoOn(c, i)
    decreases c, |c.body| - i
  {
    if i < |c.body| {
      BodyReturnsIff(c, i + 1, depth);
      if c.body[i].Nested? { ReturnsIff(c.body[i].call, depth); }
      assert AllGoOn(c, i) <==> GoesOn(c, i) && AllGoOn(c, i + 1);
    }
  }

  /** How many `Alloc` acts a call executes, those of the calls inside it included, up to its end or the exception that
      leaves it. */
  function Allocations(c: Call): nat
    decreases c, |c.body| + 1
  {
    if c.admitted then AllocationsFrom(c, 0) else 0
  }

  function AllocationsFrom(c: Call, i: nat): nat
    requires i <= |c.body|
    decreases c, |c.body| - i
  {
    if i == |c.body| then 0
    else match c.body[i]
      case Alloc => 1 + AllocationsFrom(c, i + 1)
      case Fail => 0
      case Nested(inner, caught) =>
        Allocations(inner) + if GoesOn(c, i) then AllocationsFrom(c, i + 1) else 0
  }

  // ----- the observable history of a call -----

  function Trace(c: Call, depth: nat): (r: (bool, seq<Event>))
    decreases c, |c.body| + 1
  {
    if !c.admitted then (false, [])
    else
      var r := TraceBody(c, 0, depth + 1);
      (r.0, [Entered(depth, depth == 0)] + r.1 + [Left(depth)])
  }

  function TraceBody(c: Call, i: nat, depth: nat): (r: (bool, seq<Event>))
    requires i <= |c.body|
    decreases c, |c.body| - i
  {
    if i == |c.body| then (true, [])
    else match c.body[i]
      case Alloc => TraceBody(c, i + 1, depth)
      case Fail => (false, [])
      case Nested(inner, caught) =>
        var first := Trace(inner, depth);
        if !first.0 && !caught then first
        else var then_ := TraceBody(c, i + 1, depth); (then_.0, first.1 + then_.1)
  }

  /** The depth a history ends at, or -1 when it is not one of a counter: every entry is made at the current
      depth and resets exactly at zero, every exit goes back to the depth of the entry it ends. */
  function EndDepth(es: seq<Event>, depth: nat): int
  {
    if es == [] then depth
    else match es[0]
      case Entered(d, reset) => if d == depth && reset == (d == 0) then EndDepth(es[1..], depth + 1) else -1
      case Left(d) => if depth == d + 1 then EndDepth(es[1..], d) else -1
  }

  lemma {:induction false} EndDepthConcat(a: seq<Event>, b: seq<Event>, depth: nat)
    requires EndDepth(a, depth) >= 0
    ensures EndDepth(a + b, depth) == EndDepth(b, EndDepth(a, depth))
    decreases |a|
  {
    if a == [] {
      assert a + b == b;
    } else {
      assert (a + b)[0] == a[0] && (a + b)[1..] == a[1..] + b;
      EndDepthConcat(a[1..], b, if a[0].Entered? then depth + 1 else a[0].depth);
    }
  }

  /** In every nesting of calls, with returns and exceptions at any point, the count ends where it began and a
      reset happens exactly at the entries made at depth zero. */
  lemma {:induction false} CountIsRestored(c: Call, depth: nat)
    ensures EndDepth(Trace(c, depth).1, depth) == depth
    decreases c, |c.body| + 1
  {
    if c.admitted {
      var es := TraceBody(c, 0, depth + 1).1;
      BodyRestoresCount(c, 0, depth + 1);
      EndDepthConcat(es, [Left(depth)], depth + 1);
      var all := [Entered(depth, depth == 0)] + es + [Left(depth)];
      assert all[1..] == es + [Left(depth)];
      assert [Left(depth)][1..] == [];
    }
  }

  lemma {:induction false} BodyRestoresCount(c: Call, i: nat, depth: nat)
    requires i <= |c.body|
    ensures EndDepth(TraceBody(c, i, depth).1, depth) == depth
    decreases c, |c.body| - i
  {
    if i < |c.body| {
      BodyRestoresCount(c, i + 1, depth);
      if c.body[i].Nested? {
        CountIsRestored(c.body[i].call, depth);
        EndDepthConcat(Trace(c.body[i].call, depth).1, TraceBody(c, i + 1, depth).1, depth);
      }
    }
  }

  predicate HasReset(es: seq<Event>) { exists e <- es :: e.Entered? && e.reset }

  /** A call made from an active call never resets the arena, however deep it nests. */
  lemma {:induction false} NestedCallsNeverReset(c: Call, depth: nat)
    requires depth > 0
    ensures !HasReset(Trace(c, depth).1)
    decreases c, |c.body| + 1
  {
    if c.admitted { BodyNeverResets(c, 0, depth + 1); }
  }

  lemma {:induction false} BodyNeverResets(c: Call, i: nat, depth: nat)
    requires i <= |c.body| && depth > 0
    ensures !HasReset(TraceBody(c, i, depth).1)
    decreases c, |c.body| - i
  {
    if i < |c.body| {
      BodyNeverResets(c, i + 1, depth);
      if c.body[i].Nested? { NestedCallsNeverReset(c.body[i].call, depth); }
    }
  }
}
