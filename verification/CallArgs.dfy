/** Arguments of a direct call: explicit ones, a trailing multi-value, and the packed `...` of a vararg callee. */
module CallArgs {
  import opened Options

  datatype Value = Nil | Data(k: int)

  /** A CVar in argument position: one value, or several in one. */
  datatype CVar = One(v: Value) | Multi(vs: seq<Value>)

  function Flatten(c: CVar): seq<Value> { match c case One(v) => [v] case Multi(vs) => vs }

  /** Lua's view of a value list: nil beyond the end. */
  function At(vs: seq<Value>, i: nat): Value { if i < |vs| then vs[i] else Nil }

  // ----- runtime helpers -----

  function Unbox(c: CVar, i: nat): Value
  {
    match c case One(v) => if i == 0 then v else Nil case Multi(vs) => At(vs, i)
  }

  function Slice(c: CVar, start: nat): CVar
  {
    match c
    case One(v) => if start == 0 then One(v) else One(Nil)
    case Multi(vs) => if start >= |vs| then One(Nil) else Multi(vs[start..])
  }

  function Combine(prefix: seq<Value>, last: CVar): CVar { Multi(prefix + Flatten(last)) }

  /** FlSelectHash: the count a callee sees in its `...`. */
  function CountOf(c: CVar): nat
  {
    match c case Multi(vs) => |vs| case One(v) => if v == Nil then 0 else 1
  }

  // ----- what the generator prints for one call -----

  datatype Arg = Given(i: nat) | NilArg | UnboxArg(i: nat) | SliceArg(start: nat) | WholeArg | CombineArg(start: nat) | PackArg(start: nat)

  /** An argument's value: `given` are the explicit arguments, `rest` the trailing multi-value. */
  function EvalArg(a: Arg, given: seq<Value>, rest: CVar): CVar
  {
    match a
    case Given(i) => One(At(given, i))
    case NilArg => One(Nil)
    case UnboxArg(i) => One(Unbox(rest, i))
    case SliceArg(s) => Slice(rest, s)
    case WholeArg => rest
    case CombineArg(s) => if s <= |given| then Combine(given[s..], rest) else One(Nil)
    case PackArg(s) => if s <= |given| then Multi(given[s..]) else One(Nil)
  }

  function Givens(n: nat): (r: seq<Arg>)
    ensures |r| == n && forall i :: 0 <= i < n ==> r[i] == Given(i)
  {
    seq(n, i requires 0 <= i < n => Given(i))
  }

  /** BuildLocalFunctionCall for a callee with `fixed` parameters before its `...`, from `count` explicit arguments. */
  method BuildVarargCall(fixed: nat, count: nat, expands: bool) returns (args: seq<Arg>)
    ensures |args| == fixed + 1
    ensures forall i :: 0 <= i < fixed ==> args[i] == if i < count then Given(i) else if expands then UnboxArg(i - count) else NilArg
    ensures args[fixed] == if expands then (if count < fixed then SliceArg(fixed - count) else if count == fixed then WholeArg else CombineArg(fixed))
                           else if count <= fixed then NilArg else PackArg(fixed)
  {
    args := Givens(count);
    if expands {
      if count < fixed {
        var i := count;
        while i < fixed
          invariant count <= i <= fixed && |args| == i
          invariant forall j :: 0 <= j < i ==> args[j] == if j < count then Given(j) else UnboxArg(j - count)
        {
          args := args + [UnboxArg(i - count)];
          i := i + 1;
        }
        args := args + [SliceArg(fixed - count)];
      } else if count == fixed {
        args := args + [WholeArg];
      } else {
        args := args[..fixed] + [CombineArg(fixed)];
      }
    } else {
      var varargs := if count > fixed then count - fixed else 0;
      if varargs == 0 {
        while |args| < fixed
          invariant count <= |args| <= fixed
          invariant forall j :: 0 <= j < |args| ==> args[j] == if j < count then Given(j) else NilArg
        {
          args := args + [NilArg];
        }
        args := args + [NilArg];
      } else {
        args := args[..fixed] + [PackArg(fixed)];
      }
    }
  }

  /** What that method prints, evaluated: the callee's fixed parameters and its `...`. */
  ghost predicate Delivered(args: seq<Arg>, fixed: nat, count: nat, expands: bool)
  {
    && |args| == fixed + 1
    && (forall i :: 0 <= i < fixed ==> args[i] == if i < count then Given(i) else if expands then UnboxArg(i - count) else NilArg)
    && args[fixed] == if expands then (if count < fixed then SliceArg(fixed - count) else if count == fixed then WholeArg else CombineArg(fixed))
                      else if count <= fixed then NilArg else PackArg(fixed)
  }

  /** The argument list Lua passes. */
  function LuaArgs(given: seq<Value>, rest: Option<CVar>): seq<Value>
  {
    given + match rest case None => [] case Some(c) => Flatten(c)
  }

  /** Index by index the callee receives Lua's argument list, split at its fixed parameters. */
  lemma VarargCallDelivers(args: seq<Arg>, fixed: nat, given: seq<Value>, rest: Option<CVar>)
    requires Delivered(args, fixed, |given|, rest.Some?)
    ensures var r := if rest.Some? then rest.value else One(Nil);
            var all := LuaArgs(given, rest);
            && (forall i :: 0 <= i < fixed ==> EvalArg(args[i], given, r) == One(At(all, i)))
            && (forall j: nat :: At(Flatten(EvalArg(args[fixed], given, r)), j) == At(all, fixed + j))
  {
    var r := if rest.Some? then rest.value else One(Nil);
    var all := LuaArgs(given, rest);
    var n := |given|;
    forall i | 0 <= i < fixed ensures EvalArg(args[i], given, r) == One(At(all, i)) {
      if i >= n && rest.Some? { UnboxIsAt(r, i - n); }
    }
    forall j: nat ensures At(Flatten(EvalArg(args[fixed], given, r)), j) == At(all, fixed + j) {
      if rest.Some? && n < fixed { SliceIsAt(r, fixed - n, j); }
    }
  }

  lemma UnboxIsAt(c: CVar, i: nat)
    ensures Unbox(c, i) == At(Flatten(c), i)
  {
  }

  lemma SliceIsAt(c: CVar, start: nat, j: nat)
    ensures At(Flatten(Slice(c, start)), j) == At(Flatten(c), start + j)
  {
  }

  /** The count is Lua's too, except when a single nil is all that expands into an empty `...`. */
  lemma VarargCountIff(args: seq<Arg>, fixed: nat, given: seq<Value>, rest: Option<CVar>)
    requires Delivered(args, fixed, |given|, rest.Some?)
    ensures var r := if rest.Some? then rest.value else One(Nil);
            var all := LuaArgs(given, rest);
            CountOf(EvalArg(args[fixed], given, r)) == (if |all| > fixed then |all| - fixed else 0)
            <==> !(rest == Some(One(Nil)) && |given| == fixed)
  {
  }

  /** `f(g())` with `f(...)` and `g` returning one nil: Lua counts one argument, the callee none. */
  lemma OneNilIsLost()
    ensures CountOf(EvalArg(WholeArg, [], One(Nil))) == 0 && |LuaArgs([], Some(One(Nil)))| == 1
  {
  }

  /** CompileFunctioncall's test of the argument count in front of it: a wrong number of explicit arguments is
      rejected, but with an expansion the counts it compares are always equal. */
  method CompileFixedCall(params: nat, count: nat, expands: bool) returns (r: Option<seq<Arg>>)
    ensures r.None? <==> !expands && count != params
    ensures r.Some? ==> (|r.value| == params <==> count <= params)
    ensures r.Some? ==> forall i :: 0 <= i < |r.value| ==> r.value[i] == if i < count then Given(i) else UnboxArg(i - count)
  {
    var have := if expands then count + (params - count) else count;
    if have != params { return None; }
    var args := BuildFixedCall(params, count, expands);
    return Some(args);
  }

  /** A callee without `...`: unboxing fills its parameters; too many explicit arguments stay too many. */
  method BuildFixedCall(params: nat, count: nat, expands: bool) returns (args: seq<Arg>)
    requires expands || count == params
    ensures |args| == params <==> count <= params
    ensures forall i :: 0 <= i < |args| ==> args[i] == if i < count then Given(i) else UnboxArg(i - count)
  {
    args := Givens(count);
    if expands {
      var i := count;
      while i < params
        invariant |args| == i && count <= i && (i == count || i <= params)
        invariant forall j :: 0 <= j < |args| ==> args[j] == if j < count then Given(j) else UnboxArg(j - count)
      {
        args := args + [UnboxArg(i - count)];
        i := i + 1;
      }
    }
  }

  lemma FixedCallDelivers(args: seq<Arg>, given: seq<Value>, rest: CVar)
    requires |given| <= |args|
    requires forall i :: 0 <= i < |args| ==> args[i] == if i < |given| then Given(i) else UnboxArg(i - |given|)
    ensures forall i :: 0 <= i < |args| ==> EvalArg(args[i], given, rest) == One(At(LuaArgs(given, Some(rest)), i))
  {
    forall i | 0 <= i < |args| ensures EvalArg(args[i], given, rest) == One(At(LuaArgs(given, Some(rest)), i)) {
      if i >= |given| { UnboxIsAt(rest, i - |given|); }
    }
  }

  // ----- calls from the host -----

  const MAX_PARAMS: nat := 32

  datatype HostResult = Passed(args: seq<CVar>) | TooMany | CountMismatch

  /** Call: fills a fixed buffer, then packs what exceeds the fixed parameters in place. */
  method HostCall(arity: nat, vararg: bool, user: seq<Value>) returns (r: HostResult)
    requires arity <= MAX_PARAMS && (vararg ==> arity >= 1)
    ensures |user| > MAX_PARAMS <==> r == TooMany
    ensures |user| <= MAX_PARAMS && !vararg && |user| != arity <==> r == CountMismatch
    ensures r.Passed? ==> |r.args| == arity
    ensures r.Passed? && !vararg ==> forall i :: 0 <= i < arity ==> r.args[i] == One(user[i])
    ensures r.Passed? && vararg ==>
              var fixed := arity - 1;
              && (forall i :: 0 <= i < fixed ==> r.args[i] == One(At(user, i)))
              && r.args[fixed] == Multi(if |user| > fixed then user[fixed..] else [])
  {
    var fixed := if vararg then arity - 1 else arity;
    if |user| > MAX_PARAMS { return TooMany; }
    if !vararg && |user| != arity { return CountMismatch; }
    var buffer := new CVar[MAX_PARAMS](_ => One(Nil));
    var i := 0;
    while i < |user|
      invariant 0 <= i <= |user|
      invariant forall j :: 0 <= j < MAX_PARAMS ==> buffer[j] == One(if j < i then user[j] else Nil)
    {
      buffer[i] := One(user[i]);
      i := i + 1;
    }
    if vararg {
      var packed := Pack(buffer, user, fixed, |user|);
      buffer[fixed] := Multi(packed);
    }
    r := Passed(buffer[..arity]);
  }

  method Pack(buffer: array<CVar>, ghost user: seq<Value>, fixed: nat, count: nat) returns (packed: seq<Value>)
    requires |user| == count <= buffer.Length && forall j :: 0 <= j < count ==> buffer[j] == One(user[j])
    ensures packed == if count > fixed then user[fixed..] else []
  {
    packed := [];
    var i := fixed;
    while i < count
      invariant fixed <= i && (i > fixed ==> i <= count)
      invariant packed == if i > fixed then user[fixed..i] else []
    {
      packed := packed + [buffer[i].v];
      i := i + 1;
    }
  }

  /** A vararg function called from the host receives the host's list, split the same way. */
  lemma HostDelivers(fixed: nat, user: seq<Value>, args: seq<CVar>)
    requires |args| == fixed + 1
    requires forall i :: 0 <= i < fixed ==> args[i] == One(At(user, i))
    requires args[fixed] == Multi(if |user| > fixed then user[fixed..] else [])
    ensures forall j: nat :: At(Flatten(args[fixed]), j) == At(user, fixed + j)
    ensures CountOf(args[fixed]) == if |user| > fixed then |user| - fixed else 0
  {
  }
}
