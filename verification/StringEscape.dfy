/** Escaping of strings (string_escape_mem and kstrdup_quotable in compat/support/string_helpers.c). */
module StringEscape {
  import opened Common

  const BACKSLASH: Byte := 92
  const ZERO: Byte := 48
  const LOWER_X: Byte := 120

  /** The ESCAPE_ flags. */
  datatype Flags = Flags(space: bool, special: bool, nul: bool, octal: bool, hex: bool,
                         np: bool, na: bool, nap: bool, append: bool)

  predicate IsAscii(c: Byte) {
    c < 128
  }

  predicate IsPrint(c: Byte) {
    32 <= c < 127 || 160 <= c
  }

  predicate IsOctal(c: Byte) {
    48 <= c < 56
  }

  /** The letter that stands for a special white space after a backslash. */
  function SpaceLetter(c: Byte): Option<Byte> {
    if c == 10 then Some(110) else if c == 13 then Some(114) else if c == 9 then Some(116)
    else if c == 11 then Some(118) else if c == 12 then Some(102) else None
  }

  /** The letter that stands for backslash, bell or escape. */
  function SpecialLetter(c: Byte): Option<Byte> {
    if c == BACKSLASH then Some(BACKSLASH) else if c == 7 then Some(97) else if c == 27 then Some(101) else None
  }

  /** The classes and letters in characters: ISO 8859-1, and the letters of C. */
  lemma ClassesMean(c: Byte)
    ensures IsAscii(c) <==> c as char <= '\U{7F}'
    ensures IsPrint(c) <==> ' ' <= c as char <= '~' || '\U{A0}' <= c as char
    ensures IsOctal(c) <==> c as char in "01234567"
  {
  }

  const LETTERS := map['\n' := 'n', '\r' := 'r', '\t' := 't', '\U{B}' := 'v', '\U{C}' := 'f']
  const SPECIALS := map['\\' := '\\', '\U{7}' := 'a', '\U{1B}' := 'e']

  lemma LettersMean(c: Byte, l: Byte)
    ensures SpaceLetter(c) == Some(l) <==> c as char in LETTERS && LETTERS[c as char] == l as char
    ensures SpecialLetter(c) == Some(l) <==> c as char in SPECIALS && SPECIALS[c as char] == l as char
  {
  }

  function HexDigit(n: nat): Byte
    requires n < 16
  {
    if n < 10 then 48 + n else 87 + n
  }

  function OctalForm(c: Byte): seq<Byte> {
    [BACKSLASH, 48 + c / 64, 48 + c / 8 % 8, 48 + c % 8]
  }

  function HexForm(c: Byte): seq<Byte> {
    [BACKSLASH, LOWER_X, HexDigit(c / 16), HexDigit(c % 16)]
  }

  /** An empty dictionary is none; looking for NUL in one finds its end. */
  predicate InDict(c: Byte, only: seq<Byte>) {
    only != [] && (c in only || c == 0)
  }

  predicate PassesThrough(c: Byte, f: Flags, only: seq<Byte>) {
    || (only != [] && !f.append && !InDict(c, only))
    || (&& !(f.append && InDict(c, only))
        && ((f.nap && IsAscii(c) && IsPrint(c)) || (f.np && IsPrint(c)) || (f.na && IsAscii(c))))
  }

  /** What one byte becomes. */
  function Form(c: Byte, f: Flags, only: seq<Byte>): seq<Byte> {
    if PassesThrough(c, f, only) then [c]
    else if f.space && SpaceLetter(c).Some? then [BACKSLASH, SpaceLetter(c).value]
    else if f.special && SpecialLetter(c).Some? then [BACKSLASH, SpecialLetter(c).value]
    else if f.nul && c == 0 then [BACKSLASH, ZERO]
    else if f.octal then OctalForm(c)
    else if f.hex then HexForm(c)
    else [c]
  }

  /**
  Which bytes are escaped when a byte code is asked for: with a dictionary the bytes in it and no other; with classes
  those outside the class; and with both and "append" those outside the class or in the dictionary.
  */
  lemma EscapedBytes(c: Byte, f: Flags, only: seq<Byte>)
    requires (f.octal || f.hex) && c != 0
    ensures only != [] && !f.append && !f.np && !f.na && !f.nap ==> (Form(c, f, only) == [c] <==> c !in only)
    ensures (only == [] || f.append) && f.np && !f.na ==> (Form(c, f, only) == [c] <==> IsPrint(c) && c !in only)
    ensures (only == [] || f.append) && f.na && !f.np ==> (Form(c, f, only) == [c] <==> IsAscii(c) && c !in only)
    ensures (only == [] || f.append) && f.nap && !f.np && !f.na ==>
              (Form(c, f, only) == [c] <==> IsAscii(c) && IsPrint(c) && c !in only)
    ensures only == [] && !f.np && !f.na && !f.nap ==> Form(c, f, only) != [c]
  {
  }

  /** The whole output, whatever the buffer. */
  function Escaped(s: seq<Byte>, f: Flags, only: seq<Byte>): seq<Byte> {
    if s == [] then [] else Escaped(s[..|s| - 1], f, only) + Form(s[|s| - 1], f, only)
  }

  /** The first bytes of dst, up to its limit, are those of t. */
  ghost predicate Holds(dst: array<Byte>, end: nat, t: seq<Byte>)
    requires end <= dst.Length
    reads dst
  {
    dst[..Min(end, |t|)] == t[..Min(end, |t|)]
  }

  /** The buffer beyond p is as it was at first. */
  ghost predicate Untouched(dst: array<Byte>, end: nat, p: nat, first: seq<Byte>)
    requires end <= dst.Length
    reads dst
  {
    |first| == dst.Length && forall k :: Min(end, p) <= k < dst.Length ==> dst[k] == first[k]
  }

  /** One byte, if there is room. */
  method Put(dst: array<Byte>, p: nat, end: nat, c: Byte, ghost t: seq<Byte>, ghost first: seq<Byte>)
    requires end <= dst.Length && p == |t| && Holds(dst, end, t) && Untouched(dst, end, p, first)
    modifies dst
    ensures Holds(dst, end, t + [c]) && Untouched(dst, end, p + 1, first)
  {
    if p < end {
      ghost var before := dst[..p];
      dst[p] := c;
      assert dst[..p] == before == t;
      assert dst[..p + 1] == t + [c];
    } else {
      assert (t + [c])[..end] == t[..end];
    }
  }

  /** The writes of one escape_ helper: each byte only while there is room, the pointer always. */
  method Emit(dst: array<Byte>, p: nat, end: nat, b: seq<Byte>, ghost t: seq<Byte>, ghost first: seq<Byte>)
    returns (p': nat)
    requires end <= dst.Length && p == |t| && Holds(dst, end, t) && Untouched(dst, end, p, first)
    modifies dst
    ensures p' == p + |b| && Holds(dst, end, t + b) && Untouched(dst, end, p', first)
  {
    p' := p;
    assert t + b[..0] == t;
    for i := 0 to |b|
      invariant p' == p + i && Holds(dst, end, t + b[..i]) && Untouched(dst, end, p', first)
    {
      assert t + b[..i + 1] == t + b[..i] + [b[i]];
      Put(dst, p', end, b[i], t + b[..i], first);
      p' := p' + 1;
    }
    assert b[..|b|] == b;
  }

  lemma EscapedMore(s: seq<Byte>, i: nat, f: Flags, only: seq<Byte>)
    requires i < |s|
    ensures Escaped(s[..i + 1], f, only) == Escaped(s[..i], f, only) + Form(s[i], f, only)
  {
    assert s[..i + 1][..i] == s[..i];
  }

  /**
  string_escape_mem. Whatever room there is, the result is the length of the whole output, and the buffer gets as much
  of its front as fits, and nothing else.
  */
  method EscapeMem(src: seq<Byte>, dst: array<Byte>, osz: nat, f: Flags, only: seq<Byte>) returns (ret: nat)
    requires osz <= dst.Length
    modifies dst
    ensures ret == |Escaped(src, f, only)| && dst[..Min(osz, ret)] == Escaped(src, f, only)[..Min(osz, ret)]
    ensures dst[Min(osz, ret)..] == old(dst[Min(osz, ret)..])
  {
    var i := 0;
    ret := 0;
    while i < |src|
      invariant i <= |src| && ret == |Escaped(src[..i], f, only)| && Holds(dst, osz, Escaped(src[..i], f, only))
      invariant Untouched(dst, osz, ret, old(dst[..]))
    {
      EscapedMore(src, i, f, only);
      ret := Emit(dst, ret, osz, Form(src[i], f, only), Escaped(src[..i], f, only), old(dst[..]));
      i := i + 1;
    }
    assert src[..i] == src;
  }
}
