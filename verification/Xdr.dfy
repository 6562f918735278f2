/**
External data representation as the NLM codecs use it (RFC 4506): words, hypers, booleans, variable-length
opaques.
*/
module Xdr {
  import opened Common

  function Word(x: nat): (r: seq<Byte>)
    ensures |r| == 4
  {
    [x / 0x100_0000 % 256, x / 0x1_0000 % 256, x / 0x100 % 256, x % 256]
  }

  function FromWord(b: seq<Byte>): (r: nat)
    requires |b| == 4
    ensures r < U32
  {
    (b[0] as nat) * 0x100_0000 + (b[1] as nat) * 0x1_0000 + (b[2] as nat) * 0x100 + b[3] as nat
  }

  lemma WordBack(x: nat)
    requires x < U32
    ensures FromWord(Word(x)) == x
  {
    var y := x / 0x100;
    var z := y / 0x100;
    assert x / 0x1_0000 == z && x / 0x100_0000 == z / 0x100;
    assert x == y * 0x100 + x % 256 && y == z * 0x100 + y % 256 && z == z / 0x100 * 0x100 + z % 256;
  }

  function Hyper(x: nat): seq<Byte> {
    Word(x / U32) + Word(x % U32)
  }

  /** What is missing to the next multiple of four. */
  function Padding(n: nat): (r: nat)
    ensures r < 4 && (n + r) % 4 == 0
  {
    (4 - n % 4) % 4
  }

  /** A variable-length opaque: length, contents, zeros up to a multiple of four. */
  function Opaque(x: seq<Byte>): seq<Byte> {
    Word(|x|) + x + seq(Padding(|x|), _ => 0)
  }

  /** Appending piece by piece is appending the whole, and reading takes the pieces off again. */
  lemma Pieces(o: seq<Byte>, a: seq<Byte>, b: seq<Byte>, c: seq<Byte>, d: seq<Byte>)
    ensures o + a + b + c + d == o + (a + b + c + d)
    ensures a + b + c + d + o == a + (b + (c + (d + o)))
  {
  }

  // ------------------------------------------------------------ reading

  /** What reading the front of s gives: the value and what is left, or nothing when s is too short or wrong. */
  datatype Read<+T> = Fail | Got(value: T, rest: seq<Byte>)

  function ReadWord(s: seq<Byte>): Read<nat> {
    if |s| < 4 then Fail else Got(FromWord(s[..4]), s[4..])
  }

  function ReadHyper(s: seq<Byte>): Read<nat> {
    if |s| < 8 then Fail else Got(FromWord(s[..4]) * U32 + FromWord(s[4..8]), s[8..])
  }

  function ReadBool(s: seq<Byte>): Read<bool> {
    match ReadWord(s)
    case Fail => Fail
    case Got(x, rest) => Got(x != 0, rest)
  }

  /** n bytes and their padding. */
  function ReadBytes(s: seq<Byte>, n: nat): Read<seq<Byte>> {
    if |s| < n + Padding(n) then Fail else Got(s[..n], s[n + Padding(n)..])
  }

  /** An opaque of at most max bytes. */
  function ReadOpaque(s: seq<Byte>, max: nat): Read<seq<Byte>> {
    match ReadWord(s)
    case Fail => Fail
    case Got(n, rest) => if n > max then Fail else ReadBytes(rest, n)
  }

  lemma WordRoundTrip(x: nat, t: seq<Byte>)
    requires x < U32
    ensures ReadWord(Word(x) + t) == Got(x, t)
  {
    WordBack(x);
    assert (Word(x) + t)[..4] == Word(x) && (Word(x) + t)[4..] == t;
  }

  lemma BoolRoundTrip(b: bool, t: seq<Byte>)
    ensures ReadBool(Word(if b then 1 else 0) + t) == Got(b, t)
  {
    WordRoundTrip(if b then 1 else 0, t);
  }

  lemma HyperRoundTrip(x: nat, t: seq<Byte>)
    requires x < U64
    ensures ReadHyper(Hyper(x) + t) == Got(x, t)
  {
    var s := Hyper(x) + t;
    assert s[..4] == Word(x / U32) && s[4..8] == Word(x % U32) && s[8..] == t;
    WordBack(x / U32);
    WordBack(x % U32);
  }

  /** An opaque is read back exactly when it is within the limit. */
  lemma OpaqueRoundTrip(x: seq<Byte>, max: nat, t: seq<Byte>)
    requires |x| < U32
    ensures ReadOpaque(Opaque(x) + t, max) == if |x| <= max then Got(x, t) else Fail
  {
    var body := x + seq(Padding(|x|), _ => 0) + t;
    assert Opaque(x) + t == Word(|x|) + body;
    WordRoundTrip(|x|, body);
    assert body[..|x|] == x && body[|x| + Padding(|x|)..] == t;
  }

  // ------------------------------------------------------------ streams

  class Writer {
    var out: seq<Byte>

    constructor ()
      ensures out == []
    {
      out := [];
    }

    method PutWord(x: nat)
      modifies this
      ensures out == old(out) + Word(x)
    {
      out := out + Word(x);
    }

    method PutBool(b: bool)
      modifies this
      ensures out == old(out) + Word(if b then 1 else 0)
    {
      PutWord(if b then 1 else 0);
    }

    method PutHyper(x: nat)
      modifies this
      ensures out == old(out) + Hyper(x)
    {
      PutWord(x / U32);
      PutWord(x % U32);
    }

    /** xdr_encode_opaque: word by word, the last one padded. */
    method PutOpaque(x: seq<Byte>)
      modifies this
      ensures out == old(out) + Opaque(x)
    {
      PutWord(|x|);
      out := out + x;
      PutZeros(Padding(|x|));
    }

    method PutZeros(n: nat)
      modifies this
      ensures out == old(out) + seq(n, _ => 0)
    {
      for i := 0 to n
        invariant out == old(out) + seq(i, _ => 0)
      {
        assert seq(i + 1, _ => 0) == seq(i, _ => 0) + [0];
        out := out + [0];
      }
    }
  }

  class Reader {
    const buf: seq<Byte>
    var pos: nat

    ghost predicate Valid()
      reads this
    {
      pos <= |buf|
    }

    function Rest(): seq<Byte>
      requires Valid()
      reads this
    {
      buf[pos..]
    }

    constructor (buf: seq<Byte>)
      ensures Valid() && Rest() == buf && this.buf == buf
    {
      this.buf, pos := buf, 0;
    }

    /** What a call returned and where it left the stream is what Read describes. */
    ghost predicate Is<T>(r: Read<T>, ok: bool, x: T)
      requires Valid()
      reads this
    {
      match r
      case Fail => !ok
      case Got(y, rest) => ok && x == y && Rest() == rest
    }

    /** xdr_inline_decode: n bytes and their padding. */
    method Inline(n: nat) returns (ok: bool, x: seq<Byte>)
      requires Valid()
      modifies this
      ensures Valid() && Is(ReadBytes(old(Rest()), n), ok, x)
    {
      if n + Padding(n) > |buf| - pos {
        return false, [];
      }
      x := buf[pos..pos + n];
      assert x == Rest()[..n];
      pos := pos + n + Padding(n);
      return true, x;
    }

    method U32() returns (ok: bool, x: nat)
      requires Valid()
      modifies this
      ensures Valid() && Is(ReadWord(old(Rest())), ok, x)
    {
      var b;
      ok, b := Inline(4);
      return ok, if ok then FromWord(b) else 0;
    }

    method U64() returns (ok: bool, x: nat)
      requires Valid()
      modifies this
      ensures Valid() && Is(ReadHyper(old(Rest())), ok, x)
    {
      var b;
      ok, b := Inline(8);
      return ok, if ok then FromWord(b[..4]) * Common.U32 + FromWord(b[4..]) else 0;
    }

    method Bool() returns (ok: bool, x: bool)
      requires Valid()
      modifies this
      ensures Valid() && Is(ReadBool(old(Rest())), ok, x)
    {
      var n;
      ok, n := U32();
      return ok, n != 0;
    }

    method Opaque(max: nat) returns (ok: bool, x: seq<Byte>)
      requires Valid()
      modifies this
      ensures Valid() && Is(ReadOpaque(old(Rest()), max), ok, x)
    {
      var n;
      ok, n := U32();
      if !ok || n > max {
        return false, [];
      }
      ok, x := Inline(n);
    }
  }
}
