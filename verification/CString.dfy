/** String literals in the generated C: escaping, and reading them back by C's rules (sections 6.4.4.4 and 6.4.5
    of ISO C11, trigraphs off). */
module CString {
  import opened Options

  type Byte = b: int | 0 <= b < 256

  const NEWLINE: Byte := 10
  const RETURN: Byte := 13
  const TAB: Byte := 9
  const QUOTE: Byte := 34
  const BACKSLASH: Byte := 92
  const ZERO: Byte := 48

  predicate Octal(b: Byte) { ZERO <= b < ZERO + 8 }

  /** `\ooo`, always three digits. */
  function OctalEscape(b: Byte): seq<Byte> { [BACKSLASH, ZERO + b / 64, ZERO + b / 8 % 8, ZERO + b % 8] }

  function EscapeByte(b: Byte): (r: seq<Byte>)
    ensures r != []
  {
    if b == BACKSLASH then [BACKSLASH, BACKSLASH]
    else if b == QUOTE then [BACKSLASH, QUOTE]
    else if b == NEWLINE then [BACKSLASH, 110]
    else if b == RETURN then [BACKSLASH, 114]
    else if b == TAB then [BACKSLASH, 116]
    else if b < 32 || b >= 127 then OctalEscape(b)
    else [b]
  }

  function Escape(s: seq<Byte>): seq<Byte>
  {
    if s == [] then [] else EscapeByte(s[0]) + Escape(s[1..])
  }

  /** EscapeCStringLiteral: one growing buffer. */
  method EscapeLiteral(s: seq<Byte>) returns (out: seq<Byte>)
    ensures out == Escape(s)
  {
    out := [];
    var i := 0;
    while i < |s|
      invariant 0 <= i <= |s| && out + Escape(s[i..]) == Escape(s)
    {
      assert s[i..][0] == s[i] && s[i..][1..] == s[i + 1..];
      out := out + EscapeByte(s[i]);
      i := i + 1;
    }
  }

  // ----- reading a literal -----

  /** The one-letter escapes. */
  function SimpleEscape(b: Byte): Option<Byte>
  {
    if b == BACKSLASH || b == QUOTE || b == 39 || b == 63 then Some(b)
    else if b == 97 then Some(7) else if b == 98 then Some(8) else if b == 102 then Some(12)
    else if b == 110 then Some(NEWLINE) else if b == 114 then Some(RETURN)
    else if b == 116 then Some(TAB) else if b == 118 then Some(11)
    else None
  }

  /** How many of the first three characters are octal digits, without a gap. */
  function OctalRun(t: seq<Byte>): (n: nat)
    ensures n <= 3 && n <= |t|
  {
    if t == [] || !Octal(t[0]) then 0
    else if |t| == 1 || !Octal(t[1]) then 1
    else if |t| == 2 || !Octal(t[2]) then 2
    else 3
  }

  function OctalValue(t: seq<Byte>, n: nat): nat
    requires n <= |t| && forall i :: 0 <= i < n ==> Octal(t[i])
  {
    if n == 0 then 0 else assert Octal(t[n - 1]); 8 * OctalValue(t, n - 1) + (t[n - 1] - ZERO)
  }

  /** The bytes between the quotes; None for an unescaped quote or newline, an unknown escape, or a value that
      does not fit a byte. */
  function Decode(t: seq<Byte>): Option<seq<Byte>>
    decreases |t|
  {
    if t == [] then Some([])
    else if t[0] == QUOTE || t[0] == NEWLINE then None
    else if t[0] != BACKSLASH then Prepend(t[0], Decode(t[1..]))
    else if |t| == 1 then None
    else
      var n := OctalRun(t[1..]);
      if n > 0 then
        (if OctalValue(t[1..], n) < 256 then Prepend(OctalValue(t[1..], n), Decode(t[1 + n..])) else None)
      else match SimpleEscape(t[1])
        case None => None
        case Some(b) => Prepend(b, Decode(t[2..]))
  }

  function Prepend(b: Byte, r: Option<seq<Byte>>): Option<seq<Byte>>
  {
    match r case None => None case Some(s) => Some([b] + s)
  }

  /** One escaped byte in front of any text: an octal escape is complete, whatever digit follows it. */
  lemma DecodeByte(b: Byte, rest: seq<Byte>)
    ensures Decode(EscapeByte(b) + rest) == Prepend(b, Decode(rest))
  {
    var e := EscapeByte(b);
    var t := e + rest;
    assert t[|e|..] == rest;
    assert forall i :: 0 <= i < |e| ==> t[i] == e[i];
    if e == OctalEscape(b) && |e| == 4 {
      var d := t[1..];
      assert d[0] == ZERO + b / 64 && d[1] == ZERO + b / 8 % 8 && d[2] == ZERO + b % 8;
      assert OctalRun(d) == 3;
      assert OctalValue(d, 1) == b / 64;
      assert OctalValue(d, 2) == 8 * (b / 64) + b / 8 % 8 == b / 8;
      assert OctalValue(d, 3) == 8 * (b / 8) + b % 8 == b;
    }
  }

  /** Reading the escaped text gives back the bytes, for every byte string. */
  lemma {:induction false} RoundTrip(s: seq<Byte>)
    ensures Decode(Escape(s)) == Some(s)
  {
    if s != [] {
      RoundTrip(s[1..]);
      DecodeByte(s[0], Escape(s[1..]));
      assert [s[0]] + s[1..] == s;
    }
  }

  /** The text is printable ASCII, so no raw newline or control character reaches the C source. */
  lemma {:induction false} EscapedIsPrintable(s: seq<Byte>)
    ensures forall b <- Escape(s) :: 32 <= b < 127
  {
    if s != [] { EscapedIsPrintable(s[1..]); }
  }

  /** No unescaped quote or newline, and no escape cut off at the end. */
  predicate Closed(t: seq<Byte>, escaped: bool)
  {
    if t == [] then !escaped
    else if escaped then Closed(t[1..], false)
    else t[0] != QUOTE && t[0] != NEWLINE && Closed(t[1..], t[0] == BACKSLASH)
  }

  lemma ClosedByte(b: Byte, rest: seq<Byte>)
    requires Closed(rest, false)
    ensures Closed(EscapeByte(b) + rest, false)
  {
    var e := EscapeByte(b);
    var t := e + rest;
    assert t[|e|..] == rest;
    assert forall i :: 0 <= i < |e| ==> t[i] == e[i];
    assert Closed(t[|e|..], false);
    if |e| == 1 {
      assert t[1..] == rest;
    } else {
      assert t[1..][0] == t[1] && t[1..][1..] == t[2..];
      if |e| == 4 {
        assert Closed(t[3..], false) by { assert t[3..][1..] == t[4..] && t[3..][0] == t[3]; }
        assert Closed(t[2..], false) by { assert t[2..][1..] == t[3..] && t[2..][0] == t[2]; }
      }
    }
  }

  /** Every quote and newline of the text is escaped, and the text does not end inside an escape: the literal ends
      where the generator writes its closing quote. */
  lemma {:induction false} EscapedIsClosed(s: seq<Byte>)
    ensures Closed(Escape(s), false)
  {
    if s != [] {
      EscapedIsClosed(s[1..]);
      ClosedByte(s[0], Escape(s[1..]));
    }
  }
}
