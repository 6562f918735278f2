/**
Undoing escapes (string_unescape in compat/support/string_helpers.c), in place or into another buffer, and
when it gives back what was escaped.
*/
module StringUnescape {
  import opened Common
  import opened StringEscape

  /** The UNESCAPE_ flags. */
  datatype Undo = Undo(space: bool, octal: bool, hex: bool, special: bool)

  const ANY := Undo(true, true, true, true)

  function SpaceOf(c: Byte): Option<Byte> {
    if c == 110 then Some(10) else if c == 114 then Some(13) else if c == 116 then Some(9)
    else if c == 118 then Some(11) else if c == 102 then Some(12) else None
  }

  function SpecialOf(c: Byte): Option<Byte> {
    if c == 34 then Some(34) else if c == BACKSLASH then Some(BACKSLASH)
    else if c == 97 then Some(7) else if c == 101 then Some(27) else None
  }

  function HexValue(c: Byte): (r: Option<nat>)
    ensures r.Some? ==> r.value < 16
  {
    if 48 <= c < 58 then Some(c - 48)
    else if 97 <= c < 103 then Some(c - 87)
    else if 65 <= c < 71 then Some(c - 55)
    else None
  }

  /** A letter stands for the byte that is escaped with it, and a quotation mark for itself. */
  lemma LettersUndone(l: Byte, c: Byte)
    ensures SpaceOf(l) == Some(c) <==> SpaceLetter(c) == Some(l)
    ensures SpecialOf(l) == Some(c) <==> SpecialLetter(c) == Some(l) || (l == c && c as char == '\"')
  {
  }

  /** Hexadecimal digits are those of both cases. */
  lemma HexMeans(c: Byte, n: nat)
    requires n < 16
    ensures HexValue(c) == Some(n) <==> c as char == "0123456789abcdef"[n] || c as char == "0123456789ABCDEF"[n]
    ensures HexDigit(n) as char == "0123456789abcdef"[n]
  {
  }

  /** A byte and how many characters stood for it. */
  datatype Code = Code(byte: Byte, used: nat)

  /** Octal digits, three at most, while another one still fits. */
  function OctalCode(t: seq<Byte>): Option<Code> {
    if t == [] || !IsOctal(t[0]) then None
    else if |t| == 1 || !IsOctal(t[1]) then Some(Code(t[0] % 8, 1))
    else
      var n := (t[0] % 8) * 8 + t[1] % 8;
      if |t| == 2 || !IsOctal(t[2]) || n >= 32 then Some(Code(n, 2))
      else Some(Code(n * 8 + t[2] % 8, 3))
  }

  /** An x and one or two hexadecimal digits. */
  function HexCode(t: seq<Byte>): Option<Code> {
    if |t| < 2 || t[0] != LOWER_X || HexValue(t[1]).None? then None
    else if |t| == 2 || HexValue(t[2]).None? then Some(Code(HexValue(t[1]).value, 2))
    else Some(Code(HexValue(t[1]).value * 16 + HexValue(t[2]).value, 3))
  }

  /** What the characters after a backslash stand for; the classes are tried in this order. */
  function Decoded(t: seq<Byte>, u: Undo): (r: Option<Code>)
    ensures r.Some? ==> 1 <= r.value.used <= |t|
  {
    if t == [] then None
    else if u.space && SpaceOf(t[0]).Some? then Some(Code(SpaceOf(t[0]).value, 1))
    else if u.octal && OctalCode(t).Some? then OctalCode(t)
    else if u.hex && HexCode(t).Some? then HexCode(t)
    else if u.special && SpecialOf(t[0]).Some? then Some(Code(SpecialOf(t[0]).value, 1))
    else None
  }

  /** The output for s with room for size bytes, the final NUL among them; an escape counts twice. */
  function Unescaped(s: seq<Byte>, size: nat, u: Undo): seq<Byte>
    decreases |s|
  {
    if s == [] || size <= 1 then []
    else if s[0] == BACKSLASH && |s| > 1 && size > 2 then
      match Decoded(s[1..], u)
      case Some(c) => [c.byte] + Unescaped(s[1 + c.used..], size - 2, u)
      case None => [BACKSLASH, s[1]] + Unescaped(s[2..], size - 2, u)
    else [s[0]] + Unescaped(s[1..], size - 1, u)
  }

  /** The output is no longer than the input, and with its NUL it fits. */
  lemma {:induction false} UnescapedFits(s: seq<Byte>, size: nat, u: Undo)
    ensures |Unescaped(s, size, u)| <= |s| && (size > 0 ==> |Unescaped(s, size, u)| < size)
    decreases |s|
  {
    if s != [] && size > 1 {
      if s[0] == BACKSLASH && |s| > 1 && size > 2 {
        match Decoded(s[1..], u)
        case Some(c) => UnescapedFits(s[1 + c.used..], size - 2, u);
        case None => UnescapedFits(s[2..], size - 2, u);
      } else {
        UnescapedFits(s[1..], size - 1, u);
      }
    }
  }

  // ------------------------------------------------------------ the buffers

  /** The C string t starts at q. */
  ghost predicate StringAt(a: array<Byte>, q: nat, t: seq<Byte>)
    reads a
  {
    q + |t| < a.Length && a[q..q + |t|] == t && 0 !in t && a[q + |t|] == 0
  }

  /** unescape_octal. */
  method OctalAt(src: array<Byte>, q: nat, ghost t: seq<Byte>) returns (r: Option<Code>)
    requires StringAt(src, q, t)
    ensures r == OctalCode(t)
  {
    if !IsOctal(src[q]) {
      return None;
    }
    var num, k := src[q] % 8, 1;
    while num < 32 && IsOctal(src[q + k]) && k < 3
      invariant 1 <= k <= 3 && k <= |t| && num < 256
      invariant k == 1 ==> num == t[0] % 8
      invariant k == 2 ==> IsOctal(t[1]) && num == t[0] % 8 * 8 + t[1] % 8
      invariant k == 3 ==> OctalCode(t) == Some(Code(num, 3))
      decreases 3 - k
    {
      num, k := num * 8 + src[q + k] % 8, k + 1;
    }
    return Some(Code(num, k));
  }

  /** unescape_hex. */
  method HexAt(src: array<Byte>, q: nat, ghost t: seq<Byte>) returns (r: Option<Code>)
    requires StringAt(src, q, t)
    ensures r == HexCode(t)
  {
    if src[q] != LOWER_X {
      return None;
    }
    assert t[0] == src[q];
    var hi := HexValue(src[q + 1]);
    if hi.None? {
      return None;
    }
    assert t[1] == src[q + 1];
    var lo := HexValue(src[q + 2]);
    if lo.None? {
      return Some(Code(hi.value, 2));
    }
    assert t[2] == src[q + 2];
    return Some(Code(hi.value * 16 + lo.value, 3));
  }

  /** The helpers in their order. */
  method DecodeAt(src: array<Byte>, q: nat, u: Undo, ghost t: seq<Byte>) returns (r: Option<Code>)
    requires StringAt(src, q, t) && t != []
    ensures r == Decoded(t, u)
  {
    if u.space && SpaceOf(src[q]).Some? {
      return Some(Code(SpaceOf(src[q]).value, 1));
    }
    if u.octal {
      r := OctalAt(src, q, t);
      if r.Some? { return; }
    }
    if u.hex {
      r := HexAt(src, q, t);
      if r.Some? { return; }
    }
    if u.special && SpecialOf(src[q]).Some? {
      return Some(Code(SpecialOf(src[q]).value, 1));
    }
    return None;
  }

  /** A size of zero wraps round in the loop's decrement. */
  function Budget(size: nat): nat {
    if size == 0 then U64 else size
  }

  /**
  string_unescape; dst may be src itself. Either way it leaves the same bytes and a NUL in dst, within the given size,
  and nothing behind them.
  */
  method Unescape(src: array<Byte>, dst: array<Byte>, size: nat, u: Undo, ghost s: seq<Byte>) returns (n: nat)
    requires StringAt(src, 0, s) && |s| < U64 && (dst.Length > |s| || 0 < size <= dst.Length)
    modifies dst
    ensures n == |Unescaped(s, Budget(size), u)| < dst.Length && (size > 0 ==> n < size)
    ensures dst[..n] == Unescaped(s, Budget(size), u) && dst[n] == 0 && dst[n + 1..] == old(dst[n + 1..])
  {
    var q, left := 0, Budget(size);
    n := 0;
    UnescapedFits(s, Budget(size), u);
    assert s[0..] == s;
    while src[q] != 0 && left > 1
      invariant q <= |s| && n <= q && StringAt(src, q, s[q..]) && left >= 1
      invariant n + |Unescaped(s[q..], left, u)| == |Unescaped(s, Budget(size), u)| < dst.Length
      invariant dst[..n] + Unescaped(s[q..], left, u) == Unescaped(s, Budget(size), u)
      invariant dst[n..] == old(dst[n..])
      decreases |s| - q
    {
      q, n, left := Step(src, dst, q, n, left, u, s[q..]);
    }
    assert Unescaped(s[q..], left, u) == [];
    dst[n] := 0;
  }

  /** Bytes go out at n, none of them past where the string is read on. */
  method Write(src: array<Byte>, dst: array<Byte>, q: nat, n: nat, b: seq<Byte>, ghost t: seq<Byte>)
    requires StringAt(src, q, t) && n + |b| <= q && n + |b| <= dst.Length
    modifies dst
    ensures StringAt(src, q, t) && dst[..n + |b|] == old(dst[..n]) + b && dst[n + |b|..] == old(dst[n + |b|..])
  {
    var i := 0;
    while i < |b|
      invariant i <= |b| && StringAt(src, q, t)
      invariant dst[..n + i] == old(dst[..n]) + b[..i] && dst[n + i..] == old(dst[n + i..])
    {
      ghost var was := dst[..];
      assert b[..i + 1] == b[..i] + [b[i]];
      dst[n + i] := b[i];
      assert dst[..n + i] == was[..n + i] && dst[n + i + 1..] == was[n + i + 1..];
      i := i + 1;
    }
    assert b[..i] == b;
  }

  /** One turn of the loop. */
  method Step(src: array<Byte>, dst: array<Byte>, q: nat, n: nat, left: nat, u: Undo, ghost t: seq<Byte>)
    returns (q': nat, n': nat, left': nat)
    requires StringAt(src, q, t) && t != [] && left > 1 && n <= q && n + |Unescaped(t, left, u)| < dst.Length
    modifies dst
    ensures q < q' <= q + |t| && n <= n' <= q' && left' >= 1 && n' <= dst.Length && StringAt(src, q', t[q' - q..])
    ensures dst[..n'] + Unescaped(t[q' - q..], left', u) == old(dst[..n]) + Unescaped(t, left, u)
    ensures dst[n'..] == old(dst[n'..])
  {
    var b;
    b, q', left' := Next(src, q, left, u, t);
    n' := n + |b|;
    Write(src, dst, q', n, b, t[q' - q..]);
  }

  /** What one turn puts out, where it goes on reading, and the room it leaves. */
  method Next(src: array<Byte>, q: nat, left: nat, u: Undo, ghost t: seq<Byte>)
    returns (b: seq<Byte>, q': nat, left': nat)
    requires StringAt(src, q, t) && t != [] && left > 1
    ensures q + |b| <= q' <= q + |t| && b != [] && left' >= 1 && StringAt(src, q', t[q' - q..])
    ensures Unescaped(t, left, u) == b + Unescaped(t[q' - q..], left', u)
  {
    left' := left - 1;
    assert src[q] == t[0] && (|t| > 1 ==> src[q + 1] == t[1]) && (|t| == 1 ==> src[q + 1] == 0);
    if src[q] == BACKSLASH && src[q + 1] != 0 && left' > 1 {
      left' := left' - 1;
      b, q' := NextCode(src, q, u, t);
    } else {
      b, q' := [src[q]], q + 1;
    }
  }

  /** After a backslash that is not the last character. */
  method NextCode(src: array<Byte>, q: nat, u: Undo, ghost t: seq<Byte>) returns (b: seq<Byte>, q': nat)
    requires StringAt(src, q, t) && |t| > 1 && t[0] == BACKSLASH
    ensures q + |b| <= q' <= q + |t| && b != [] && StringAt(src, q', t[q' - q..])
    ensures forall left :: left > 2 ==> Unescaped(t, left, u) == b + Unescaped(t[q' - q..], left - 2, u)
  {
    var c := DecodeAt(src, q + 1, u, t[1..]);
    if c.Some? {
      b, q' := [c.value.byte], q + 1 + c.value.used;
    } else {
      assert src[q + 1] == t[1];
      b, q' := [BACKSLASH, src[q + 1]], q + 2;
    }
  }

  // ------------------------------------------------------------ round trips

  lemma {:induction false} EscapedFront(s: seq<Byte>, f: Flags, only: seq<Byte>)
    requires s != []
    ensures Escaped(s, f, only) == Form(s[0], f, only) + Escaped(s[1..], f, only)
  {
    if |s| > 1 {
      EscapedFront(s[..|s| - 1], f, only);
      assert s[1..][..|s| - 2] == s[..|s| - 1][1..];
    } else {
      assert s[..0] == [] && s[1..] == [];
    }
  }

  lemma HexFormDecodes(c: Byte, t: seq<Byte>, u: Undo)
    requires u.hex
    ensures Decoded((HexForm(c) + t)[1..], u) == Some(Code(c, 3))
  {
    var r := (HexForm(c) + t)[1..];
    assert r[0] == LOWER_X && r[1] == HexDigit(c / 16) && r[2] == HexDigit(c % 16);
  }

  lemma OctalDigits(a: nat, b: nat, d: nat, r: seq<Byte>, u: Undo)
    requires u.octal && a < 4 && b < 8 && d < 8 && |r| >= 3 && r[0] == 48 + a && r[1] == 48 + b && r[2] == 48 + d
    ensures Decoded(r, u) == Some(Code(a * 64 + b * 8 + d, 3))
  {
    assert (48 + a) % 8 == a && (48 + b) % 8 == b && (48 + d) % 8 == d;
  }

  lemma OctalFormDecodes(c: Byte, t: seq<Byte>, u: Undo)
    requires u.octal
    ensures Decoded((OctalForm(c) + t)[1..], u) == Some(Code(c, 3))
  {
    var r := (OctalForm(c) + t)[1..];
    var a, b, d := c / 64, c / 8 % 8, c % 8;
    assert c == a * 64 + b * 8 + d;
    OctalDigits(a, b, d, r, u);
  }

  /**
  One escaped byte is read back as that byte, if what follows cannot be taken for more digits of a short octal
  code.
  */
  lemma FormDecodes(c: Byte, f: Flags, only: seq<Byte>, t: seq<Byte>)
    requires Form(c, f, only) != [c] && (Form(c, f, only) == [BACKSLASH, ZERO] && t != [] ==> !IsOctal(t[0]))
    ensures var b := Form(c, f, only);
            |b| >= 2 && b[0] == BACKSLASH && Decoded((b + t)[1..], ANY) == Some(Code(c, |b| - 1))
  {
    var b := Form(c, f, only);
    var r := (b + t)[1..];
    if b == OctalForm(c) {
      OctalFormDecodes(c, t, ANY);
    } else if b == HexForm(c) {
      HexFormDecodes(c, t, ANY);
    } else {
      assert r[0] == b[1] && (t != [] ==> r[1] == t[0]) && r[1..] == t;
    }
  }

  /** The escaping leaves no backslash and no NUL alone, nor a short NUL code in front of a bare octal digit. */
  ghost predicate Unambiguous(f: Flags, only: seq<Byte>) {
    && Form(BACKSLASH, f, only) != [BACKSLASH] && Form(0, f, only) != [0]
    && (Form(0, f, only) == [BACKSLASH, ZERO] ==> forall d: Byte :: IsOctal(d) ==> Form(d, f, only) != [d])
  }

  /** Unescaping gives back what was escaped, as a string that has no NUL in it. */
  ghost predicate ComesBack(s: seq<Byte>, f: Flags, only: seq<Byte>) {
    0 !in Escaped(s, f, only) && Unescaped(Escaped(s, f, only), |Escaped(s, f, only)| + 1, ANY) == s
  }

  lemma FormHead(c: Byte, f: Flags, only: seq<Byte>)
    ensures var b := Form(c, f, only); |b| >= 1 && (b[0] == BACKSLASH || b == [c])
  {
  }

  lemma FormHasNoNul(c: Byte, f: Flags, only: seq<Byte>)
    requires Form(0, f, only) != [0]
    ensures 0 !in Form(c, f, only)
  {
  }

  lemma {:induction false} EscapedHasNoNul(s: seq<Byte>, f: Flags, only: seq<Byte>)
    requires Form(0, f, only) != [0]
    ensures 0 !in Escaped(s, f, only)
  {
    if s != [] {
      EscapedHasNoNul(s[..|s| - 1], f, only);
      FormHasNoNul(s[|s| - 1], f, only);
    }
  }

  /** A code in front is read, and the rest left. */
  lemma UnescapeCode(b: seq<Byte>, t: seq<Byte>, c: Byte, size: nat, u: Undo)
    requires |b| >= 2 && b[0] == BACKSLASH && Decoded((b + t)[1..], u) == Some(Code(c, |b| - 1)) && size > 2
    ensures Unescaped(b + t, size, u) == [c] + Unescaped(t, size - 2, u)
  {
    assert (b + t)[1 + (|b| - 1)..] == t;
  }

  lemma UnescapePlain(c: Byte, t: seq<Byte>, size: nat, u: Undo)
    requires c != BACKSLASH && size > 1
    ensures Unescaped([c] + t, size, u) == [c] + Unescaped(t, size - 1, u)
  {
    assert ([c] + t)[1..] == t;
  }

  /** What follows a short NUL code does not start with an octal digit. */
  lemma NoDigitFollows(s: seq<Byte>, f: Flags, only: seq<Byte>)
    requires Unambiguous(f, only) && Form(0, f, only) == [BACKSLASH, ZERO]
    ensures Escaped(s, f, only) != [] ==> !IsOctal(Escaped(s, f, only)[0])
  {
    if s != [] {
      EscapedFront(s, f, only);
      FormHead(s[0], f, only);
    }
  }

  lemma ShortCodeIsNul(c: Byte, f: Flags, only: seq<Byte>)
    requires Form(c, f, only) == [BACKSLASH, ZERO]
    ensures c == 0
  {
  }

  /** The form of a byte in front of t is read back as that byte, and t is left. */
  lemma FormComesBack(c: Byte, f: Flags, only: seq<Byte>, t: seq<Byte>, size: nat) returns (k: nat)
    requires Form(BACKSLASH, f, only) != [BACKSLASH] && size > |Form(c, f, only)| + |t|
    requires Form(c, f, only) == [BACKSLASH, ZERO] && t != [] ==> !IsOctal(t[0])
    ensures size > k + |t| && Unescaped(Form(c, f, only) + t, size, ANY) == [c] + Unescaped(t, size - k, ANY)
  {
    if Form(c, f, only) == [c] {
      k := 1;
      UnescapePlain(c, t, size, ANY);
    } else {
      k := 2;
      FormDecodes(c, f, only, t);
      UnescapeCode(Form(c, f, only), t, c, size, ANY);
    }
  }

  /** The first byte comes back, and what is left is the escaped rest. */
  lemma FirstComesBack(s: seq<Byte>, f: Flags, only: seq<Byte>, size: nat) returns (k: nat)
    requires Unambiguous(f, only) && s != [] && size > |Escaped(s, f, only)|
    ensures size > k + |Escaped(s[1..], f, only)|
    ensures Unescaped(Escaped(s, f, only), size, ANY) == [s[0]] + Unescaped(Escaped(s[1..], f, only), size - k, ANY)
  {
    EscapedFront(s, f, only);
    if Form(s[0], f, only) == [BACKSLASH, ZERO] {
      ShortCodeIsNul(s[0], f, only);
      NoDigitFollows(s[1..], f, only);
    }
    k := FormComesBack(s[0], f, only, Escaped(s[1..], f, only), size);
  }

  lemma {:induction false} RoundTrip(s: seq<Byte>, f: Flags, only: seq<Byte>, size: nat)
    requires Unambiguous(f, only) && size > |Escaped(s, f, only)|
    ensures Unescaped(Escaped(s, f, only), size, ANY) == s
    decreases |s|
  {
    if s != [] {
      var k := FirstComesBack(s, f, only, size);
      var rest := s[1..];
      RoundTrip(rest, f, only, size - k);
      assert s == [s[0]] + rest;
    }
  }

  lemma Escaped1(a: Byte, f: Flags, only: seq<Byte>)
    ensures Escaped([a], f, only) == Form(a, f, only)
  {
    assert [a][..0] == [];
  }

  lemma Escaped2(a: Byte, b: Byte, f: Flags, only: seq<Byte>)
    ensures Escaped([a, b], f, only) == Form(a, f, only) + Form(b, f, only)
  {
    assert [a, b][..1] == [a];
    Escaped1(a, f, only);
  }

  /** Two bare backslashes come back as one; a NUL ends the string; "\\0" before a digit swallows it. */
  lemma AmbiguousLoses(f: Flags, only: seq<Byte>) returns (s: seq<Byte>)
    requires !Unambiguous(f, only)
    ensures !ComesBack(s, f, only)
  {
    if Form(BACKSLASH, f, only) == [BACKSLASH] {
      s := [BACKSLASH, BACKSLASH];
      Escaped2(BACKSLASH, BACKSLASH, f, only);
      var e := [BACKSLASH] + [BACKSLASH];
      assert e[1..] == [BACKSLASH] && Decoded(e[1..], ANY) == Some(Code(BACKSLASH, 1)) && e[2..] == [];
      assert Unescaped(e, 3, ANY) == [BACKSLASH];
    } else if Form(0, f, only) == [0] {
      s := [0];
      Escaped1(0, f, only);
    } else {
      var d: Byte :| IsOctal(d) && Form(d, f, only) == [d];
      s := [0, d];
      Escaped2(0, d, f, only);
      var e := [BACKSLASH, ZERO] + [d];
      assert e == [BACKSLASH, ZERO, d];
      assert e[1..] == [ZERO, d] && Decoded(e[1..], ANY) == Some(Code(d % 8, 2)) && e[3..] == [];
      assert Unescaped(e, 4, ANY) == [d % 8];
    }
  }

  /** Every string comes back exactly when the escaping is unambiguous. */
  lemma RoundTripIff(f: Flags, only: seq<Byte>)
    ensures (forall s :: ComesBack(s, f, only)) <==> Unambiguous(f, only)
  {
    if Unambiguous(f, only) {
      forall s ensures ComesBack(s, f, only) {
        RoundTrip(s, f, only, |Escaped(s, f, only)| + 1);
        EscapedHasNoNul(s, f, only);
      }
    } else {
      var s := AmbiguousLoses(f, only);
    }
  }

  // ------------------------------------------------------------ kstrdup_quotable

  const QUOTABLE_FLAGS := Flags(false, false, false, false, true, false, false, false, false)

  /** \f \n \r \t \v \a \e, the backslash and the double quote. */
  const QUOTABLE: seq<Byte> := [12, 10, 13, 9, 11, 7, 27, BACKSLASH, 34]

  /** kstrdup_quotable: once for the length, once for the bytes. */
  method Quotable(src: seq<Byte>) returns (dst: array<Byte>)
    ensures fresh(dst) && dst.Length == |Escaped(src, QUOTABLE_FLAGS, QUOTABLE)| + 1
    ensures dst[..] == Escaped(src, QUOTABLE_FLAGS, QUOTABLE) + [0]
  {
    var none := new Byte[0];
    var n := EscapeMem(src, none, 0, QUOTABLE_FLAGS, QUOTABLE);
    dst := new Byte[n + 1];
    var m := EscapeMem(src, dst, n, QUOTABLE_FLAGS, QUOTABLE);
    dst[n] := 0;
  }

  lemma QuotableForm(c: Byte)
    ensures Form(c, QUOTABLE_FLAGS, QUOTABLE) == if c in QUOTABLE || c == 0 then HexForm(c) else [c]
  {
  }

  /** The escaped string is the form of its first byte and the escaped rest. */
  lemma QuotableFront(s: seq<Byte>)
    requires s != []
    ensures Escaped(s, QUOTABLE_FLAGS, QUOTABLE) ==
            (if s[0] in QUOTABLE || s[0] == 0 then HexForm(s[0]) else [s[0]])
            + Escaped(s[1..], QUOTABLE_FLAGS, QUOTABLE)
  {
    EscapedFront(s, QUOTABLE_FLAGS, QUOTABLE);
    QuotableForm(s[0]);
  }

  lemma FirstQuotableComesBack(c: Byte, t: seq<Byte>, u: Undo, size: nat) returns (k: nat)
    requires u.hex
    requires size > |if c in QUOTABLE || c == 0 then HexForm(c) else [c]| + |t|
    ensures size > k + |t|
    ensures var b := if c in QUOTABLE || c == 0 then HexForm(c) else [c];
            Unescaped(b + t, size, u) == [c] + Unescaped(t, size - k, u)
  {
    if c in QUOTABLE || c == 0 {
      k := 2;
      HexFormDecodes(c, t, u);
      UnescapeCode(HexForm(c), t, c, size, u);
    } else {
      k := 1;
      UnescapePlain(c, t, size, u);
    }
  }

  /** Unescaping a quotable string, by hexadecimal codes and whatever else, gives the string it was made from. */
  lemma {:induction false} QuotableRoundTrip(s: seq<Byte>, u: Undo, size: nat)
    requires u.hex && size > |Escaped(s, QUOTABLE_FLAGS, QUOTABLE)|
    ensures Unescaped(Escaped(s, QUOTABLE_FLAGS, QUOTABLE), size, u) == s
    decreases |s|
  {
    if s != [] {
      QuotableFront(s);
      var k := FirstQuotableComesBack(s[0], Escaped(s[1..], QUOTABLE_FLAGS, QUOTABLE), u, size);
      QuotableRoundTrip(s[1..], u, size - k);
    }
  }
}
