/** From Lua names to C identifiers, and the C symbols of functions. */
module Identifiers {
  import opened Assignments

  const INIT := "__fakelua_init"

  predicate CKeyword(s: string)
  {
    s in {"auto", "break", "case", "char", "const", "continue", "default", "do", "double", "else", "enum", "extern",
          "float", "for", "goto", "if", "inline", "int", "long", "register", "restrict", "return", "short", "signed",
          "sizeof", "static", "struct", "switch", "typedef", "union", "unsigned", "void", "volatile", "while",
          "_Alignas", "_Alignof", "_Atomic", "_Bool", "_Complex", "_Generic", "_Imaginary", "_Noreturn",
          "_Static_assert", "_Thread_local"}
  }

  predicate CppKeyword(s: string)
  {
    s in {"bool", "class", "template", "typename", "namespace", "new", "delete", "this", "operator", "private",
          "public", "protected", "virtual", "override", "final", "constexpr", "nullptr", "true", "false", "catch",
          "try", "throw", "using", "friend", "explicit", "export", "mutable", "wchar_t", "char16_t", "char32_t",
          "char8_t", "noexcept", "static_assert", "thread_local", "alignas", "alignof", "decltype", "consteval",
          "constinit", "concept", "requires", "co_await", "co_return", "co_yield"}
  }

  predicate OperatorOrRuntimeName(s: string)
  {
    s in {"and", "or", "not", "xor", "bitand", "bitor", "compl", "and_eq", "or_eq", "xor_eq", "not_eq", "CVar",
          "VarType", "VarTable", "VarClosure", "State", "stdin", "stdout", "stderr", "_S", "_CL", "kNil", "kTrue",
          "kFalse"}
  }

  predicate Reserved(s: string) { CKeyword(s) || CppKeyword(s) || OperatorOrRuntimeName(s) }

  predicate Digit(c: char) { '0' <= c <= '9' }

  /** SanitizeCIdent. */
  function Sanitize(lua: string): string { if Reserved(lua) then "flua_id_" + lua else lua }

  function Base(lua: string): string { if Sanitize(lua) == "" then "flua_id" else Sanitize(lua) }

  /** Decimal text of a counter. */
  function Dec(n: nat): (s: string)
    ensures |s| >= 1 && forall i :: 0 <= i < |s| ==> Digit(s[i])
  {
    var digit := [('0' as int + n % 10) as char];
    if n < 10 then digit else Dec(n / 10) + digit
  }

  /** The n-th name tried for a base. */
  function Candidate(base: string, n: nat): string { if n == 0 then base else base + "_" + Dec(n) }

  /** `c` is the first candidate that is not in use. */
  ghost predicate FirstFree(base: string, used: set<string>, c: string)
  {
    exists n: nat :: c == Candidate(base, n) && c !in used && forall m: nat | m < n :: Candidate(base, m) in used
  }

  // ----- facts about the texts -----

  /** How the texts the generator prefixes begin: `flu` or `__`. */
  predicate Generated(s: string) { |s| >= 3 && ((s[0] == 'f' && s[2] == 'u') || (s[0] == '_' && s[1] == '_')) }

  predicate Plain(s: string) { s != "" && !Digit(s[|s| - 1]) && !Generated(s) }

  /** No reserved word ends in a digit or begins like a text with a prefix of the generator's. */
  lemma ReservedShape(s: string)
    requires Reserved(s)
    ensures Plain(s)
  {
    if CKeyword(s) { CKeywordShape(s); }
    if CppKeyword(s) { CppKeywordShape(s); }
    if OperatorOrRuntimeName(s) { OperatorOrRuntimeNameShape(s); }
  }

  lemma CKeywordShape(s: string)
    requires CKeyword(s)
    ensures Plain(s)
  {
  }

  lemma CppKeywordShape(s: string)
    requires CppKeyword(s)
    ensures Plain(s)
  {
  }

  lemma OperatorOrRuntimeNameShape(s: string)
    requires OperatorOrRuntimeName(s)
    ensures Plain(s)
  {
  }

  lemma {:induction false} DecInjective(m: nat, n: nat)
    requires Dec(m) == Dec(n)
    ensures m == n
  {
    var s, t := Dec(m), Dec(n);
    assert (m >= 10 ==> |s| == |Dec(m / 10)| + 1) && (n >= 10 ==> |t| == |Dec(n / 10)| + 1);
    assert s[|s| - 1] as int - '0' as int == m % 10 && t[|t| - 1] as int - '0' as int == n % 10;
    if m >= 10 && n >= 10 {
      assert s[..|s| - 1] == Dec(m / 10) && t[..|t| - 1] == Dec(n / 10);
      DecInjective(m / 10, n / 10);
    }
  }

  lemma CandidateInjective(base: string, m: nat, n: nat)
    requires Candidate(base, m) == Candidate(base, n)
    ensures m == n
  {
    var k := |base| + 1;
    assert (m > 0 ==> |Candidate(base, m)| > |base|) && (n > 0 ==> |Candidate(base, n)| > |base|);
    if m > 0 && n > 0 {
      assert Candidate(base, m)[k..] == Dec(m) && Candidate(base, n)[k..] == Dec(n);
      DecInjective(m, n);
    }
  }

  /** At most one name can be the first free one. */
  lemma FirstFreeIsUnique(base: string, used: set<string>, c: string, d: string)
    requires FirstFree(base, used, c) && FirstFree(base, used, d)
    ensures c == d
  {
    var m: nat :| c == Candidate(base, m) && c !in used && forall i: nat | i < m :: Candidate(base, i) in used;
    var n: nat :| d == Candidate(base, n) && d !in used && forall i: nat | i < n :: Candidate(base, i) in used;
    assert !(m < n) && !(n < m);
  }

  lemma CandidateIsNotReserved(base: string, n: nat)
    requires !Reserved(base)
    ensures !Reserved(Candidate(base, n))
  {
    if n > 0 {
      var c := Candidate(base, n);
      assert c[|c| - 1] == Dec(n)[|Dec(n)| - 1];
      if Reserved(c) { ReservedShape(c); }
    }
  }

  lemma PrefixedIsNotReserved(prefix: string, s: string)
    requires Generated(prefix)
    ensures !Reserved(prefix + s)
  {
    assert Generated(prefix + s);
    if Reserved(prefix + s) { ReservedShape(prefix + s); }
  }

  lemma BaseIsNotReserved(lua: string)
    ensures !Reserved(Base(lua))
  {
    PrefixedIsNotReserved("flua_id_", lua);
  }

  /** The keywords of section 6.4.1 of ISO C11. */
  const C11_KEYWORDS: set<string> :=
    {"_Alignas", "_Alignof", "_Atomic", "_Bool", "_Complex", "_Generic", "_Imaginary", "_Noreturn", "_Static_assert",
     "_Thread_local", "auto", "break", "case", "char", "const", "continue", "default", "do", "double", "else", "enum",
     "extern", "float", "for", "goto", "if", "inline", "int", "long", "register", "restrict", "return", "short",
     "signed", "sizeof", "static", "struct", "switch", "typedef", "union", "unsigned", "void", "volatile", "while"}

  /** No Lua name becomes a keyword of C, with whatever suffix. */
  lemma NoNameIsAKeyword(lua: string, n: nat)
    ensures Candidate(Base(lua), n) !in C11_KEYWORDS
  {
    BaseIsNotReserved(lua);
    CandidateIsNotReserved(Base(lua), n);
    forall k | k in C11_KEYWORDS ensures Reserved(k) { KeywordsAreReserved(k); }
  }

  lemma KeywordsAreReserved(k: string)
    requires k in C11_KEYWORDS
    ensures Reserved(k)
  {
  }

  /** Two Lua names start from the same C name only when one is reserved and the other is its escaped spelling. Within
      one map the suffix keeps them apart. */
  lemma SameBaseIff(a: string, b: string)
    ensures Base(a) == Base(b) <==>
            a == b || (Reserved(a) && b == "flua_id_" + a) || (Reserved(b) && a == "flua_id_" + b)
            || (a == "" && b == "flua_id") || (b == "" && a == "flua_id")
  {
    EscapedSpelling(a);
    EscapedSpelling(b);
    if Reserved(a) && Reserved(b) && Base(a) == Base(b) {
      assert a == Base(a)[8..] == Base(b)[8..] == b;
    }
  }

  lemma EscapedSpelling(a: string)
    ensures !Reserved("flua_id_" + a) && |"flua_id_" + a| == 8 + |a| && !Reserved("") && !Reserved("flua_id")
  {
    if Reserved("") { ReservedShape(""); }
    PrefixedIsNotReserved("flua_id_", a);
    PrefixedIsNotReserved("flua_id", "");
    assert "flua_id" + "" == "flua_id";
  }

  // ----- names of pass temporaries -----

  function Text(n: Name): string
  {
    match n
    case User(x) => x
    case Tmp(c, i) => "__fakelua_tmp_" + Dec(c) + "_" + Dec(i)
    case LhsBase(c, i) => "__fakelua_lhs_base_" + Dec(c) + "_" + Dec(i)
    case LhsKey(c, i) => "__fakelua_lhs_key_" + Dec(c) + "_" + Dec(i)
  }

  lemma SplitAtUnderscore(x: string, u: string, y: string, v: string)
    requires (forall i :: 0 <= i < |x| ==> x[i] != '_') && forall i :: 0 <= i < |y| ==> y[i] != '_'
    requires x + "_" + u == y + "_" + v
    ensures x == y && u == v
  {
    var t := x + "_" + u;
    assert t[|x|] == '_' && forall i :: 0 <= i < |x| ==> t[i] == x[i];
    assert t == y + "_" + v;
    assert t[|y|] == '_' && forall i :: 0 <= i < |y| ==> t[i] == y[i];
    assert |x| == |y|;
    assert x == t[..|x|] == y && u == t[|x| + 1..] == v;
  }

  lemma DropPrefix(p: string, x: string, u: string)
    ensures (p + x + "_" + u)[|p|..] == x + "_" + u
  {
  }

  lemma NumberedInjective(p: string, c: nat, i: nat, d: nat, j: nat)
    requires p + Dec(c) + "_" + Dec(i) == p + Dec(d) + "_" + Dec(j)
    ensures c == d && i == j
  {
    DropPrefix(p, Dec(c), Dec(i));
    DropPrefix(p, Dec(d), Dec(j));
    SplitAtUnderscore(Dec(c), Dec(i), Dec(d), Dec(j));
    DecInjective(c, d);
    DecInjective(i, j);
  }

  /** Different temporaries of the assignment pass have different texts. */
  lemma TemporariesHaveDistinctTexts(a: Name, b: Name)
    requires !a.User? && !b.User? && Text(a) == Text(b)
    ensures a == b
  {
    assert Text(a)[10] == if a.Tmp? then 't' else 'l';
    assert Text(b)[10] == if b.Tmp? then 't' else 'l';
    if a.Tmp? {
      NumberedInjective("__fakelua_tmp_", a.c, a.i, b.c, b.i);
    } else {
      assert Text(a)[14] == if a.LhsBase? then 'b' else 'k';
      assert Text(b)[14] == if b.LhsBase? then 'b' else 'k';
      if a.LhsBase? {
        NumberedInjective("__fakelua_lhs_base_", a.c, a.i, b.c, b.i);
      } else {
        NumberedInjective("__fakelua_lhs_key_", a.c, a.i, b.c, b.i);
      }
    }
  }

  // ----- the search -----

  /** The suffix search; it ends because each name it rejects is another name in use. */
  method FindFree(base: string, used: set<string>) returns (cand: string)
    ensures FirstFree(base, used, cand)
  {
    cand := base;
    var n: nat := 0;
    ghost var left := used;
    while cand in used
      invariant cand == Candidate(base, n)
      invariant forall m: nat | m < n :: Candidate(base, m) in used
      invariant left <= used && forall m: nat | n <= m && Candidate(base, m) in used :: Candidate(base, m) in left
      decreases left
    {
      left := left - {cand};
      n := n + 1;
      cand := base + "_" + Dec(n);
      forall m: nat | n <= m && Candidate(base, m) in used ensures Candidate(base, m) in left {
        if Candidate(base, m) == Candidate(base, n - 1) { CandidateInjective(base, m, n - 1); }
      }
    }
  }

  /** Every answer given before still stands, and only requested names were added, with names not in use. */
  predicate Grown(before: map<string, string>, after: map<string, string>, requests: seq<string>, used: set<string>)
  {
    (forall k <- before :: k in after && after[k] == before[k])
    && forall k <- after :: k in before || (k in requests && after[k] !in used)
  }

  /** Distinct Lua names have distinct C names, all of them in use and none reserved. */
  ghost predicate Distinct(names: map<string, string>, used: set<string>)
  {
    (forall k <- names :: names[k] in used && !Reserved(names[k]))
    && forall j, k | j in names && k in names && names[j] == names[k] :: j == k
  }

  /** The first n requests are answered from the map. */
  predicate Answers(names: map<string, string>, requests: seq<string>, out: seq<string>, n: nat)
  {
    n <= |requests| && n == |out| && forall i :: 0 <= i < n ==> requests[i] in names && out[i] == names[requests[i]]
  }

  lemma AnswersDiffer(names: map<string, string>, used: set<string>, requests: seq<string>, out: seq<string>)
    requires Distinct(names, used) && Answers(names, requests, out, |requests|)
    ensures forall i :: 0 <= i < |out| ==> !Reserved(out[i])
    ensures forall i, j :: 0 <= i < |out| && 0 <= j < |out| ==> (out[i] == out[j] <==> requests[i] == requests[j])
  {
  }

  lemma StillAnswered(before: map<string, string>, after: map<string, string>, requests: seq<string>,
                      out: seq<string>, i: nat, c: string, start: map<string, string>, taken: set<string>,
                      used: set<string>)
    requires i < |requests| && Answers(before, requests, out, i) && Grown(start, before, requests, taken)
    requires taken <= used && requests[i] in after && after[requests[i]] == c
    requires if requests[i] in before then after == before else after == before[requests[i] := c] && c !in used
    ensures Answers(after, requests, out + [c], i + 1) && Grown(start, after, requests, taken)
  {
  }

  /** One map of identifiers: a function's, or the file's. */
  class IdentMap {
    var names: map<string, string>
    var used: set<string>

    ghost predicate Valid()
      reads this
    {
      Distinct(names, used)
    }

    constructor (taken: set<string>)
      ensures Valid() && names == map[] && used == taken
    {
      names, used := map[], taken;
    }

    method CIdent(lua: string) returns (c: string)
      requires Valid()
      modifies this
      ensures Valid() && lua in names && c == names[lua]
      ensures lua in old(names) ==> names == old(names) && used == old(used)
      ensures lua !in old(names) ==> FirstFree(Base(lua), old(used), c)
      ensures lua !in old(names) ==> names == old(names)[lua := c] && used == old(used) + {c}
    {
      if lua in names { return names[lua]; }
      c := FindFree(Base(lua), used);
      BaseIsNotReserved(lua);
      var n: nat :| c == Candidate(Base(lua), n);
      CandidateIsNotReserved(Base(lua), n);
      names, used := names[lua := c], used + {c};
    }

    /** A list of requests: equal answers exactly for equal names, and no reserved word among them. */
    method CIdents(requests: seq<string>) returns (out: seq<string>)
      requires Valid()
      modifies this
      ensures Valid() && Answers(names, requests, out, |requests|) && |out| == |requests|
      ensures Grown(old(names), names, requests, old(used))
      ensures forall i :: 0 <= i < |out| ==> !Reserved(out[i])
      ensures forall i, j :: 0 <= i < |out| && 0 <= j < |out| ==> (out[i] == out[j] <==> requests[i] == requests[j])
    {
      out := [];
      var i := 0;
      while i < |requests|
        invariant Valid() && 0 <= i <= |requests| && Answers(names, requests, out, i)
        invariant old(used) <= used && Grown(old(names), names, requests, old(used))
      {
        ghost var before, inUse := names, used;
        var c := CIdent(requests[i]);
        StillAnswered(before, names, requests, out, i, c, old(names), old(used), inUse);
        out := out + [c];
        i := i + 1;
      }
      AnswersDiffer(names, used, requests, out);
    }
  }

  // ----- a function's map against the file's -----

  /** The maps do not look at each other: a new local gets the name `fc` of a file-level variable, and hides it, exactly
      when `fc` is the first free name for the local in its own map. */
  lemma LocalHidesIff(local: string, used: set<string>, c: string, fc: string)
    requires FirstFree(Base(local), used, c)
    ensures c == fc <==> FirstFree(Base(local), used, fc)
  {
    if FirstFree(Base(local), used, fc) { FirstFreeIsUnique(Base(local), used, c, fc); }
  }

  /** For the first name of a function: exactly when `fc` is what the local's own name sanitises to. */
  lemma FirstLocalHidesIff(local: string, c: string, fc: string)
    requires FirstFree(Base(local), {}, c)
    ensures c == fc <==> Base(local) == fc
  {
    assert Candidate(Base(local), 0) == Base(local);
    assert FirstFree(Base(local), {}, Base(local));
    FirstFreeIsUnique(Base(local), {}, c, Base(local));
  }

  /** File-level `int` and `fl_temp_heap`, a function with locals `flua_id_int` and `fl_temp_heap_1`: in that function
      the file-level variables are out of reach. */
  method FileVariablesHidden() returns (file: seq<string>, locals: seq<string>)
    ensures file == locals == ["flua_id_int", "fl_temp_heap_1"]
  {
    var fileMap := new IdentMap(RUNTIME_SYMBOLS);
    var fnMap := new IdentMap({});
    var a := fileMap.CIdent("int");
    var b := fileMap.CIdent("fl_temp_heap");
    var c := fnMap.CIdent("flua_id_int");
    var d := fnMap.CIdent("fl_temp_heap_1");
    SpellingsOfWitness();
    FirstFreeIsUnique("flua_id_int", RUNTIME_SYMBOLS, a, "flua_id_int");
    FirstFreeIsUnique("fl_temp_heap", RUNTIME_SYMBOLS + {"flua_id_int"}, b, "fl_temp_heap_1");
    FirstFreeIsUnique("flua_id_int", {}, c, "flua_id_int");
    FirstFreeIsUnique("fl_temp_heap_1", {"flua_id_int"}, d, "fl_temp_heap_1");
    file, locals := [a, b], [c, d];
  }

  lemma SpellingsOfWitness()
    ensures Base("int") == Base("flua_id_int") == "flua_id_int"
    ensures Base("fl_temp_heap") == "fl_temp_heap" && Base("fl_temp_heap_1") == "fl_temp_heap_1"
    ensures FirstFree("flua_id_int", RUNTIME_SYMBOLS, "flua_id_int") && FirstFree("flua_id_int", {}, "flua_id_int")
    ensures FirstFree("fl_temp_heap", RUNTIME_SYMBOLS + {"flua_id_int"}, "fl_temp_heap_1")
    ensures FirstFree("fl_temp_heap_1", {"flua_id_int"}, "fl_temp_heap_1")
  {
    assert Reserved("int") && "flua_id_" + "int" == "flua_id_int";
    assert Generated("flua_id_int") && "flua_id_int" + "" == "flua_id_int";
    PrefixedIsNotReserved("flua_id_int", "");
    HeapIsNotReserved("fl_temp_heap");
    HeapIsNotReserved("fl_temp_heap_1");
    FirstIsFree("flua_id_int", RUNTIME_SYMBOLS);
    FirstIsFree("flua_id_int", {});
    FirstIsFree("fl_temp_heap_1", {"flua_id_int"});
    assert Dec(1) == "1" && "fl_temp_heap" + "_" + "1" == "fl_temp_heap_1";
    assert Candidate("fl_temp_heap", 1) == "fl_temp_heap_1" && Candidate("fl_temp_heap", 0) == "fl_temp_heap";
  }

  lemma FirstIsFree(base: string, used: set<string>)
    requires base !in used
    ensures FirstFree(base, used, base)
  {
    assert Candidate(base, 0) == base;
  }

  lemma HeapIsNotReserved(s: string)
    requires s == "fl_temp_heap" || s == "fl_temp_heap_1"
    ensures !Reserved(s)
  {
    assert s[0] == 'f' && s[1] == 'l' && s[2] == '_';
  }

  // ----- symbols of functions -----

  /** A function as scope resolution leaves it: its Lua name, whether it is at file level, and its first C name. */
  datatype Func = Func(name: string, top: bool, cname: string)

  /** The C name scope resolution gives the k-th function. */
  function FirstCName(name: string, top: bool, k: nat): string
  {
    if top then Sanitize(name) else "__fl_func_" + Dec(k)
  }

  function SymbolBase(f: Func): string
  {
    var base := if f.cname == "" then "flua_fn" else if f.top then "flua_fn_" + f.cname else f.cname;
    if base == INIT then "flua_id_" + INIT else base
  }

  const RUNTIME_SYMBOLS: set<string> :=
    {"_S", "__fakelua_init_flag__", "fl_temp_heap", "fl_const_heap", "fl_lua_loc", "fl_lua_file", "kNil", "kTrue",
     "kFalse", INIT}

  predicate IsInit(f: Func) { f.top && f.name == INIT }

  /** The last file-level function with the init name; -1 when there is none. */
  function RealInit(fs: seq<Func>): (i: int)
    ensures -1 <= i < |fs|
    ensures i >= 0 ==> IsInit(fs[i])
    ensures forall j :: i < j < |fs| ==> !IsInit(fs[j])
  {
    if fs == [] then -1 else if IsInit(fs[|fs| - 1]) then |fs| - 1 else RealInit(fs[..|fs| - 1])
  }

  /** No symbol search starts at the init name or at a reserved word, so no symbol is one. */
  lemma SymbolBaseIsClean(f: Func, k: nat)
    requires f.cname == FirstCName(f.name, f.top, k)
    ensures SymbolBase(f) != INIT && !Reserved(SymbolBase(f))
  {
    if f.top {
      PrefixedIsNotReserved("flua_fn_", f.cname);
      PrefixedIsNotReserved("flua_fn", "");
      assert "flua_fn" + "" == "flua_fn";
      assert ("flua_fn_" + f.cname)[0] == 'f' && INIT[0] == '_';
    } else {
      PrefixedIsNotReserved("__fl_func_", Dec(k));
      assert f.cname[3] == 'l' && INIT[3] == 'a';
    }
  }

  function Symbols(fs: seq<Func>): set<string> { set f <- fs :: f.cname }

  lemma SymbolsConcat(fs: seq<Func>, f: Func)
    ensures Symbols(fs + [f]) == Symbols(fs) + {f.cname}
  {
    assert (fs + [f])[|fs|] == f;
    forall c | c in Symbols(fs) ensures c in Symbols(fs + [f]) {
      var i :| 0 <= i < |fs| && fs[i].cname == c;
      assert (fs + [f])[i] == fs[i];
    }
  }

  /** The first `n` functions have their symbols: `last` keeps its own, the others have the first free one. */
  ghost predicate Renamed(start: seq<Func>, fs: seq<Func>, n: nat, last: int, taken: set<string>)
  {
    |fs| == |start| && n <= |fs|
    && (forall j :: n <= j < |fs| ==> fs[j] == start[j])
    && (forall j :: 0 <= j < n ==> fs[j] == start[j].(cname := fs[j].cname))
    && (0 <= last < |fs| ==> fs[last] == start[last])
    && forall j :: 0 <= j < n && j != last ==>
         FirstFree(SymbolBase(start[j]), taken + Symbols(fs[..j]), fs[j].cname)
  }

  lemma RenamedStep(start: seq<Func>, before: seq<Func>, fs: seq<Func>, i: nat, last: int, taken: set<string>)
    requires Renamed(start, before, i, last, taken) && i < |before|
    requires |fs| == |before| && fs == before[i := before[i].(cname := fs[i].cname)]
    requires if i == last then fs == before
             else FirstFree(SymbolBase(before[i]), taken + Symbols(before[..i]), fs[i].cname)
    ensures Renamed(start, fs, i + 1, last, taken)
    ensures Symbols(fs[..i + 1]) == Symbols(before[..i]) + {fs[i].cname}
  {
    assert forall j :: 0 <= j <= i ==> fs[..j] == before[..j];
    assert fs[..i + 1] == fs[..i] + [fs[i]];
    SymbolsConcat(fs[..i], fs[i]);
  }

  /** All symbols differ from each other and from the ones taken; only the real init function has the init name;
      every other function has the first free name for its base. */
  ghost predicate Uniquified(before: seq<Func>, fs: seq<Func>, taken: set<string>)
  {
    |fs| == |before|
    && (forall i :: 0 <= i < |fs| ==> fs[i] == before[i].(cname := fs[i].cname))
    && (forall i, j :: 0 <= i < j < |fs| ==> fs[i].cname != fs[j].cname)
    && (forall i :: 0 <= i < |fs| ==> (fs[i].cname == INIT <==> i == RealInit(before)))
    && forall i :: 0 <= i < |fs| && i != RealInit(before) ==>
         fs[i].cname !in taken
         && FirstFree(SymbolBase(before[i]), taken + Symbols(fs[..i]), fs[i].cname)
  }

  function WithInit(fs: seq<Func>): seq<Func>
  {
    var last := RealInit(fs);
    if last >= 0 then fs[last := fs[last].(cname := INIT)] else fs
  }

  lemma RenamedIsUniquified(before: seq<Func>, fs: seq<Func>, taken: set<string>)
    requires Renamed(WithInit(before), fs, |fs|, RealInit(before), taken)
    requires INIT in taken
    ensures Uniquified(before, fs, taken)
  {
    forall i, j | 0 <= i < j < |fs| ensures fs[i].cname != fs[j].cname {
      assert fs[..j][i] == fs[i];
      assert fs[i] in fs[..j];
    }
  }

  class SymbolTable {
    var funcs: seq<Func>
    var used: set<string>

    constructor (fs: seq<Func>)
      ensures funcs == fs && used == {}
    {
      funcs, used := fs, {};
    }

    method MarkInit(last: nat)
      requires last < |funcs| && last == RealInit(funcs)
      modifies this`funcs
      ensures funcs == WithInit(old(funcs))
    {
      funcs := funcs[last := funcs[last].(cname := INIT)];
    }

    method Rename(i: nat)
      requires i < |funcs|
      modifies this
      ensures |funcs| == |old(funcs)| && funcs == old(funcs)[i := old(funcs)[i].(cname := funcs[i].cname)]
      ensures FirstFree(SymbolBase(old(funcs)[i]), old(used), funcs[i].cname)
      ensures used == old(used) + {funcs[i].cname}
    {
      var c := FindFree(SymbolBase(funcs[i]), used);
      funcs, used := funcs[i := funcs[i].(cname := c)], used + {c};
    }

    /** Every function but `last`, in order. */
    method RenameOthers(last: int)
      requires 0 <= last < |funcs| ==> funcs[last].cname in used
      modifies this
      ensures Renamed(old(funcs), funcs, |funcs|, last, old(used)) && used == old(used) + Symbols(funcs)
    {
      var i := 0;
      while i < |funcs|
        invariant 0 <= i <= |funcs| && Renamed(old(funcs), funcs, i, last, old(used))
        invariant used == old(used) + Symbols(funcs[..i])
      {
        ghost var before := funcs;
        if i != last { Rename(i); }
        RenamedStep(old(funcs), before, funcs, i, last, old(used));
        i := i + 1;
      }
      assert funcs[..i] == funcs;
    }

    method Uniquify()
      modifies this
      ensures Uniquified(old(funcs), funcs, old(used) + RUNTIME_SYMBOLS)
      ensures used == old(used) + RUNTIME_SYMBOLS + Symbols(funcs)
    {
      used := used + RUNTIME_SYMBOLS;
      var last := RealInit(funcs);
      if last >= 0 { MarkInit(last); }
      RenameOthers(last);
      RenamedIsUniquified(old(funcs), funcs, old(used) + RUNTIME_SYMBOLS);
    }
  }

  predicate HasPrefix(s: string, prefix: string) { |prefix| <= |s| && s[..|prefix|] == prefix }

  lemma CandidateHasPrefix(base: string, n: nat, prefix: string)
    requires HasPrefix(base, prefix)
    ensures HasPrefix(Candidate(base, n), prefix)
  {
    if n > 0 { assert (base + "_" + Dec(n))[..|prefix|] == base[..|prefix|]; }
  }

  lemma SymbolBaseHasPrefix(f: Func, k: nat)
    requires f.name != "" && f.cname == FirstCName(f.name, f.top, k)
    ensures HasPrefix(SymbolBase(f), if f.top then "flua_fn_" else "__fl_func_")
  {
    SymbolBaseIsClean(f, k);
    if f.top {
      assert ("flua_fn_" + f.cname)[..8] == "flua_fn_" && ("flua_fn_" + f.cname)[0] == 'f' && INIT[0] == '_';
    } else {
      assert f.cname[3] == 'l' && INIT[3] == 'a';
      assert SymbolBase(f) == f.cname && f.cname[..10] == "__fl_func_";
    }
  }

  lemma PrefixedIsNoLibraryName(s: string)
    requires HasPrefix(s, "flua_fn_") || HasPrefix(s, "__fl_func_")
    ensures s != "main" && s != "sin" && s != "printf"
  {
  }

  /** However the search ends, a file-level function's symbol begins with `flua_fn_` and an inner function's with
      `__fl_func_`: a function named `main`, `sin` or `printf` never gets that name of the C library. */
  lemma SymbolsStayInTheirNamespace(before: seq<Func>, fs: seq<Func>, taken: set<string>, i: nat, k: nat)
    requires Uniquified(before, fs, taken) && i < |fs| && i != RealInit(before)
    requires before[i].name != "" && before[i].cname == FirstCName(before[i].name, before[i].top, k)
    ensures HasPrefix(fs[i].cname, if before[i].top then "flua_fn_" else "__fl_func_")
    ensures fs[i].cname != "main" && fs[i].cname != "sin" && fs[i].cname != "printf"
  {
    var f := before[i];
    SymbolBaseHasPrefix(f, k);
    assert FirstFree(SymbolBase(f), taken + Symbols(fs[..i]), fs[i].cname);
    var n: nat :| fs[i].cname == Candidate(SymbolBase(f), n);
    CandidateHasPrefix(SymbolBase(f), n, if f.top then "flua_fn_" else "__fl_func_");
    PrefixedIsNoLibraryName(fs[i].cname);
  }

  /** Together: symbols made by scope resolution end up as no reserved word. */
  lemma SymbolIsNotReserved(f: Func, k: nat, n: nat)
    requires f.cname == FirstCName(f.name, f.top, k)
    ensures !Reserved(Candidate(SymbolBase(f), n))
  {
    SymbolBaseIsClean(f, k);
    CandidateIsNotReserved(SymbolBase(f), n);
  }
}
