/**
NLMv4 requests as the client writes them (bundle/fs/lockd/clnt4xdr.c) and the server reads them (xdr4.c, svcxdr.h), the
byte range they carry, and the holder that goes the other way (Appendix II of RFC 1813).
*/
module NlmCodec {
  import opened Common
  import opened Xdr

  const MAXCOOKIELEN := 32
  const MAXSTRLEN := 1024
  const MAXNETOBJ := 1024
  const MAXFHSIZE := 128

  const OFFSET_MAX: int := 0x7fff_ffff_ffff_ffff

  /** The part of struct nlm_lock that the client sends. */
  datatype Lock = Lock(caller: seq<Byte>, fh: seq<Byte>, oh: seq<Byte>, svid: nat, start: int, end: int)

  /** The part that the server fills in: the words of the range, and the range it makes of them. */
  datatype Decoded = Decoded(caller: seq<Byte>, fh: seq<Byte>, oh: seq<Byte>, svid: nat,
                             lockStart: nat, lockLen: nat, start: int, end: int)

  // ------------------------------------------------------------ byte ranges

  function LoffToS64(x: int): int {
    if x >= OFFSET_MAX then OFFSET_MAX else if x <= -OFFSET_MAX then -OFFSET_MAX else x
  }

  /** nlm4_compute_offsets: offset and length as unsigned 64-bit words. */
  function Offset(start: int): (r: nat)
    ensures r < U64
  {
    LoffToS64(start) % U64
  }

  function Length(start: int, end: int): (r: nat)
    ensures r < U64
  {
    if end == OFFSET_MAX then 0 else LoffToS64(end - start + 1) % U64
  }

  /** A 64-bit word taken as signed: the one number of the signed range that has the same bits. */
  function Signed(x: int): (r: int)
    ensures -OFFSET_MAX - 1 <= r <= OFFSET_MAX && (r - x) % U64 == 0
  {
    var w := x % U64;
    if w > OFFSET_MAX then w - U64 else w
  }

  /** nlm4svc_set_file_lock_range. */
  function RangeStart(off: nat): int {
    Signed(off)
  }

  function RangeEnd(off: nat, len: nat): int {
    var end := Signed(off + len - 1);
    if len == 0 || end < 0 then OFFSET_MAX else end
  }

  /** The check in nlm4svc_retrieve_args before the range is set up once more. */
  predicate TooBig(off: nat, len: nat) {
    off > OFFSET_MAX || (len != 0 && len - 1 > OFFSET_MAX - off)
  }

  /** What the client computes is undone by what the server computes, and passes the check. */
  lemma RangeRoundTrip(start: int, end: int)
    requires 0 <= start <= end <= OFFSET_MAX
    ensures RangeStart(Offset(start)) == start && RangeEnd(Offset(start), Length(start, end)) == end
    ensures !TooBig(Offset(start), Length(start, end))
  {
    assert Offset(start) == start;
    if end != OFFSET_MAX {
      assert Length(start, end) == end - start + 1;
    }
  }

  /** A range of words is let through exactly when its last byte is within the limit, and then nothing wraps. */
  lemma CheckedRange(off: nat, len: nat)
    requires off < U64 && len < U64
    ensures TooBig(off, len) <==> off > OFFSET_MAX || (len > 0 && off + len - 1 > OFFSET_MAX)
    ensures !TooBig(off, len) ==>
              RangeStart(off) == off && RangeEnd(off, len) == if len == 0 then OFFSET_MAX else off + len - 1
  {
  }

  /** Without the check a range can wrap: its end can come before its start. */
  lemma UncheckedRangeWraps(off: nat, len: nat)
    requires 0 < off <= OFFSET_MAX && len < U64 && off + len > U64
    ensures TooBig(off, len) && 0 <= RangeEnd(off, len) < off
  {
    assert (off + len - 1) % U64 == off + len - 1 - U64;
  }

  // ------------------------------------------------------------ what the client writes

  function RangeBytes(start: int, end: int): seq<Byte> {
    Hyper(Offset(start)) + Hyper(Length(start, end))
  }

  function LockBytes(l: Lock): seq<Byte> {
    Opaque(l.caller) + Opaque(l.fh) + Opaque(l.oh) + (Word(l.svid) + RangeBytes(l.start, l.end))
  }

  function BoolBytes(b: bool): seq<Byte> {
    Word(if b then 1 else 0)
  }

  /** A request: TEST, LOCK, CANCEL or UNLOCK, with the lock as sent or as received. */
  datatype Request<+L> =
    | Test(cookie: seq<Byte>, exclusive: bool, lock: L)
    | SetLock(cookie: seq<Byte>, block: bool, exclusive: bool, lock: L, reclaim: bool, state: nat)
    | Cancel(cookie: seq<Byte>, block: bool, exclusive: bool, lock: L)
    | Unlock(cookie: seq<Byte>, lock: L)

  /** The booleans that stand before the lock, and what stands behind it. */
  function Front(r: Request<Lock>): seq<Byte> {
    match r
    case Test(_, x, _) => BoolBytes(x)
    case SetLock(_, b, x, _, _, _) => BoolBytes(b) + BoolBytes(x)
    case Cancel(_, b, x, _) => BoolBytes(b) + BoolBytes(x)
    case Unlock(_, _) => []
  }

  function Back(r: Request<Lock>): seq<Byte> {
    if r.SetLock? then BoolBytes(r.reclaim) + Word(r.state) else []
  }

  function RequestBytes(r: Request<Lock>): seq<Byte> {
    Opaque(r.cookie) + Front(r) + LockBytes(r.lock) + Back(r)
  }

  method EncodeLock(w: Writer, l: Lock)
    modifies w
    ensures w.out == old(w.out) + LockBytes(l)
  {
    w.PutOpaque(l.caller);
    w.PutOpaque(l.fh);
    w.PutOpaque(l.oh);
    w.PutWord(l.svid);
    EncodeRange(w, l.start, l.end);
  }

  method EncodeRange(w: Writer, start: int, end: int)
    modifies w
    ensures w.out == old(w.out) + RangeBytes(start, end)
  {
    w.PutHyper(Offset(start));
    w.PutHyper(Length(start, end));
  }

  method EncodeFront(w: Writer, r: Request<Lock>)
    modifies w
    ensures w.out == old(w.out) + Front(r)
  {
    if r.SetLock? || r.Cancel? {
      w.PutBool(r.block);
    }
    if !r.Unlock? {
      w.PutBool(r.exclusive);
    }
  }

  /** nlm4_xdr_enc_testargs, _lockargs, _cancargs and _unlockargs. */
  method Encode(w: Writer, r: Request<Lock>)
    modifies w
    ensures w.out == old(w.out) + RequestBytes(r)
  {
    w.PutOpaque(r.cookie);
    EncodeFront(w, r);
    EncodeLock(w, r.lock);
    EncodeBack(w, r);
    Pieces(old(w.out), Opaque(r.cookie), Front(r), LockBytes(r.lock), Back(r));
  }

  method EncodeBack(w: Writer, r: Request<Lock>)
    modifies w
    ensures w.out == old(w.out) + Back(r)
  {
    if r.SetLock? {
      w.PutBool(r.reclaim);
      w.PutWord(r.state);
    }
  }

  // ------------------------------------------------------------ what the server reads

  /** svcxdr_decode_cookie: an empty cookie is read as four zeros. */
  function ReadCookie(s: seq<Byte>): Read<seq<Byte>> {
    match ReadWord(s)
    case Fail => Fail
    case Got(n, rest) =>
      if n > MAXCOOKIELEN then Fail
      else if n == 0 then Got([0, 0, 0, 0], rest)
      else ReadBytes(rest, n)
  }

  function ReadRange(s: seq<Byte>, caller: seq<Byte>, fh: seq<Byte>, oh: seq<Byte>, svid: nat): Read<Decoded> {
    match ReadHyper(s)
    case Fail => Fail
    case Got(off, s1) =>
      match ReadHyper(s1)
      case Fail => Fail
      case Got(len, s2) => Got(Decoded(caller, fh, oh, svid, off, len, RangeStart(off), RangeEnd(off, len)), s2)
  }

  /** svcxdr_decode_lock. */
  function ReadLock(s: seq<Byte>): Read<Decoded> {
    match ReadOpaque(s, MAXSTRLEN)
    case Fail => Fail
    case Got(caller, s1) =>
      match ReadOpaque(s1, MAXFHSIZE)
      case Fail => Fail
      case Got(fh, s2) =>
        match ReadOpaque(s2, MAXNETOBJ)
        case Fail => Fail
        case Got(oh, s3) =>
          match ReadWord(s3)
          case Fail => Fail
          case Got(svid, s4) => ReadRange(s4, caller, fh, oh, svid)
  }

  predicate InLimits(l: Lock) {
    |l.caller| <= MAXSTRLEN && |l.fh| <= MAXFHSIZE && |l.oh| <= MAXNETOBJ
  }

  /** What can be put into the words of a message at all. */
  predicate Representable(l: Lock) {
    |l.caller| < U32 && |l.fh| < U32 && |l.oh| < U32 && l.svid < U32 && 0 <= l.start <= l.end <= OFFSET_MAX
  }

  function AsDecoded(l: Lock): Decoded {
    Decoded(l.caller, l.fh, l.oh, l.svid, Offset(l.start), Length(l.start, l.end), l.start, l.end)
  }

  lemma CookieRoundTrip(c: seq<Byte>, t: seq<Byte>)
    requires |c| < U32
    ensures ReadCookie(Opaque(c) + t) ==
            if |c| > MAXCOOKIELEN then Fail else if c == [] then Got([0, 0, 0, 0], t) else Got(c, t)
  {
    var body := c + seq(Padding(|c|), _ => 0) + t;
    assert Opaque(c) + t == Word(|c|) + body;
    WordRoundTrip(|c|, body);
    assert body[..|c|] == c && body[|c| + Padding(|c|)..] == t;
  }

  /** A lock comes back whole, range and all, exactly when its strings and handle are within the server's limits. */
  lemma LockRoundTrip(l: Lock, t: seq<Byte>)
    requires Representable(l)
    ensures ReadLock(LockBytes(l) + t) == if InLimits(l) then Got(AsDecoded(l), t) else Fail
  {
    var s4 := RangeBytes(l.start, l.end) + t;
    var s3 := Word(l.svid) + s4;
    var s2 := Opaque(l.oh) + s3;
    var s1 := Opaque(l.fh) + s2;
    Pieces(t, Opaque(l.caller), Opaque(l.fh), Opaque(l.oh), Word(l.svid) + RangeBytes(l.start, l.end));
    assert (Word(l.svid) + RangeBytes(l.start, l.end)) + t == s3;
    OpaqueRoundTrip(l.caller, MAXSTRLEN, s1);
    OpaqueRoundTrip(l.fh, MAXFHSIZE, s2);
    OpaqueRoundTrip(l.oh, MAXNETOBJ, s3);
    WordRoundTrip(l.svid, s4);
    RangeBack(l, t);
  }

  lemma RangeBack(l: Lock, t: seq<Byte>)
    requires 0 <= l.start <= l.end <= OFFSET_MAX
    ensures ReadRange(RangeBytes(l.start, l.end) + t, l.caller, l.fh, l.oh, l.svid) == Got(AsDecoded(l), t)
  {
    var s := Hyper(Length(l.start, l.end)) + t;
    assert RangeBytes(l.start, l.end) + t == Hyper(Offset(l.start)) + s;
    HyperRoundTrip(Offset(l.start), s);
    HyperRoundTrip(Length(l.start, l.end), t);
    RangeRoundTrip(l.start, l.end);
  }

  /** The NLM procedure called. */
  datatype Procedure = TestProc | LockProc | CancelProc | UnlockProc

  function Proc<L>(r: Request<L>): Procedure {
    match r
    case Test(_, _, _) => TestProc
    case SetLock(_, _, _, _, _, _) => LockProc
    case Cancel(_, _, _, _) => CancelProc
    case Unlock(_, _) => UnlockProc
  }

  /** The booleans in front of the lock: block, where the procedure has it, and exclusive. */
  function ReadFront(p: Procedure, s: seq<Byte>): Read<(bool, bool)> {
    match p
    case UnlockProc => Got((false, false), s)
    case TestProc => (match ReadBool(s) case Fail => Fail case Got(x, s1) => Got((false, x), s1))
    case _ =>
      match ReadBool(s)
      case Fail => Fail
      case Got(b, s1) => match ReadBool(s1) case Fail => Fail case Got(x, s2) => Got((b, x), s2)
  }

  function ReadBack(p: Procedure, s: seq<Byte>): Read<(bool, nat)> {
    if p != LockProc then Got((false, 0), s)
    else
      match ReadBool(s)
      case Fail => Fail
      case Got(c, s1) => match ReadWord(s1) case Fail => Fail case Got(n, s2) => Got((c, n), s2)
  }

  function Received(p: Procedure, cookie: seq<Byte>, front: (bool, bool), lock: Decoded,
                    back: (bool, nat)): Request<Decoded> {
    match p
    case TestProc => Test(cookie, front.1, lock)
    case LockProc => SetLock(cookie, front.0, front.1, lock, back.0, back.1)
    case CancelProc => Cancel(cookie, front.0, front.1, lock)
    case UnlockProc => Unlock(cookie, lock)
  }

  /** nlm4svc_decode_testargs, _lockargs, _cancargs and _unlockargs. */
  function ReadRequest(p: Procedure, s: seq<Byte>): Read<Request<Decoded>> {
    match ReadCookie(s)
    case Fail => Fail
    case Got(cookie, s1) =>
      match ReadFront(p, s1)
      case Fail => Fail
      case Got(front, s2) =>
        match ReadLock(s2)
        case Fail => Fail
        case Got(lock, s3) =>
          match ReadBack(p, s3)
          case Fail => Fail
          case Got(back, s4) => Got(Received(p, cookie, front, lock, back), s4)
  }

  lemma FrontRoundTrip(r: Request<Lock>, t: seq<Byte>)
    ensures ReadFront(Proc(r), Front(r) + t) ==
            Got((if r.SetLock? || r.Cancel? then r.block else false, if r.Unlock? then false else r.exclusive), t)
  {
    if r.SetLock? || r.Cancel? {
      assert Front(r) + t == BoolBytes(r.block) + (BoolBytes(r.exclusive) + t);
      BoolRoundTrip(r.block, BoolBytes(r.exclusive) + t);
      BoolRoundTrip(r.exclusive, t);
    } else if r.Test? {
      BoolRoundTrip(r.exclusive, t);
    } else {
      assert Front(r) + t == t;
    }
  }

  lemma BackRoundTrip(r: Request<Lock>, t: seq<Byte>)
    requires r.SetLock? ==> r.state < U32
    ensures ReadBack(Proc(r), Back(r) + t) == Got(if r.SetLock? then (r.reclaim, r.state) else (false, 0), t)
  {
    if r.SetLock? {
      assert Back(r) + t == BoolBytes(r.reclaim) + (Word(r.state) + t);
      BoolRoundTrip(r.reclaim, Word(r.state) + t);
      WordRoundTrip(r.state, t);
    } else {
      assert Back(r) + t == t;
    }
  }

  /** The request as it arrives; only an empty cookie does not come through as it was. */
  function AsReceived(r: Request<Lock>): Request<Decoded> {
    Received(Proc(r), if r.cookie == [] then [0, 0, 0, 0] else r.cookie,
             (if r.SetLock? || r.Cancel? then r.block else false, if r.Unlock? then false else r.exclusive),
             AsDecoded(r.lock), if r.SetLock? then (r.reclaim, r.state) else (false, 0))
  }

  predicate RepresentableRequest(r: Request<Lock>) {
    |r.cookie| < U32 && Representable(r.lock) && (r.SetLock? ==> r.state < U32)
  }

  /**
  The server reads back every field of every request the client writes, and all of its bytes, exactly when cookie,
  strings and handle are within the limits; beyond them it refuses the message.
  */
  lemma RequestRoundTrip(r: Request<Lock>, t: seq<Byte>)
    requires RepresentableRequest(r)
    ensures ReadRequest(Proc(r), RequestBytes(r) + t) ==
            if |r.cookie| <= MAXCOOKIELEN && InLimits(r.lock) then Got(AsReceived(r), t) else Fail
  {
    Pieces(t, Opaque(r.cookie), Front(r), LockBytes(r.lock), Back(r));
    CookieRoundTrip(r.cookie, Front(r) + (LockBytes(r.lock) + (Back(r) + t)));
    FrontRoundTrip(r, LockBytes(r.lock) + (Back(r) + t));
    LockRoundTrip(r.lock, Back(r) + t);
    BackRoundTrip(r, t);
  }

  /** The fields come back as they were exactly when the cookie is not empty. */
  lemma SameFieldsIff(r: Request<Lock>)
    ensures AsReceived(r).cookie == r.cookie <==> r.cookie != []
    ensures AsReceived(r).lock == AsDecoded(r.lock) && Proc(AsReceived(r)) == Proc(r)
    ensures !r.Unlock? ==> AsReceived(r).exclusive == r.exclusive
    ensures r.SetLock? || r.Cancel? ==> AsReceived(r).block == r.block
    ensures r.SetLock? ==> AsReceived(r).reclaim == r.reclaim && AsReceived(r).state == r.state
  {
  }

  method DecodeCookie(s: Reader) returns (ok: bool, c: seq<Byte>)
    requires s.Valid()
    modifies s
    ensures s.Valid() && s.Is(ReadCookie(old(s.Rest())), ok, c)
  {
    var n;
    ok, n := s.U32();
    if !ok || n > MAXCOOKIELEN {
      return false, [];
    }
    if n == 0 {
      return true, [0, 0, 0, 0];
    }
    ok, c := s.Inline(n);
  }

  method DecodeLock(s: Reader) returns (ok: bool, l: Decoded)
    requires s.Valid()
    modifies s
    ensures s.Valid() && s.Is(ReadLock(old(s.Rest())), ok, l)
  {
    l := Decoded([], [], [], 0, 0, 0, 0, 0);
    var caller, fh, oh, svid;
    ok, caller := s.Opaque(MAXSTRLEN);
    if !ok { return; }
    ok, fh := s.Opaque(MAXFHSIZE);
    if !ok { return; }
    ok, oh := s.Opaque(MAXNETOBJ);
    if !ok { return; }
    ok, svid := s.U32();
    if !ok { return; }
    ok, l := DecodeRange(s, caller, fh, oh, svid);
  }

  method DecodeRange(s: Reader, caller: seq<Byte>, fh: seq<Byte>, oh: seq<Byte>, svid: nat)
    returns (ok: bool, l: Decoded)
    requires s.Valid()
    modifies s
    ensures s.Valid() && s.Is(ReadRange(old(s.Rest()), caller, fh, oh, svid), ok, l)
  {
    l := Decoded([], [], [], 0, 0, 0, 0, 0);
    var off, len;
    ok, off := s.U64();
    if !ok { return; }
    ok, len := s.U64();
    if !ok { return; }
    l := Decoded(caller, fh, oh, svid, off, len, RangeStart(off), RangeEnd(off, len));
  }

  method DecodeFront(s: Reader, p: Procedure) returns (ok: bool, f: (bool, bool))
    requires s.Valid()
    modifies s
    ensures s.Valid() && s.Is(ReadFront(p, old(s.Rest())), ok, f)
  {
    ok, f := true, (false, false);
    var block, exclusive := false, false;
    if p == LockProc || p == CancelProc {
      ok, block := s.Bool();
      if !ok { return; }
    }
    if p != UnlockProc {
      ok, exclusive := s.Bool();
    }
    f := (block, exclusive);
  }

  method DecodeBack(s: Reader, p: Procedure) returns (ok: bool, b: (bool, nat))
    requires s.Valid()
    modifies s
    ensures s.Valid() && s.Is(ReadBack(p, old(s.Rest())), ok, b)
  {
    ok, b := true, (false, 0);
    if p == LockProc {
      var reclaim, state;
      ok, reclaim := s.Bool();
      if !ok { return; }
      ok, state := s.U32();
      b := (reclaim, state);
    }
  }

  /** The four decoders: they read what ReadRequest describes. */
  method Decode(s: Reader, p: Procedure) returns (ok: bool, r: Request<Decoded>)
    requires s.Valid()
    modifies s
    ensures s.Valid() && s.Is(ReadRequest(p, old(s.Rest())), ok, r)
  {
    var cookie, front, lock, back;
    r := Unlock([], Decoded([], [], [], 0, 0, 0, 0, 0));
    ghost var s0 := s.Rest();
    ok, cookie := DecodeCookie(s);
    if !ok { return; }
    ghost var s1 := s.Rest();
    assert ReadCookie(s0) == Got(cookie, s1);
    ok, front := DecodeFront(s, p);
    if !ok { return; }
    ghost var s2 := s.Rest();
    assert ReadFront(p, s1) == Got(front, s2);
    ok, lock := DecodeLock(s);
    if !ok { return; }
    ghost var s3 := s.Rest();
    assert ReadLock(s2) == Got(lock, s3);
    ok, back := DecodeBack(s, p);
    if !ok { return; }
    r := Received(p, cookie, front, lock, back);
  }

  /** Client and server back to back. */
  method Transmit(r: Request<Lock>) returns (ok: bool, r': Request<Decoded>)
    requires RepresentableRequest(r)
    ensures ok <==> |r.cookie| <= MAXCOOKIELEN && InLimits(r.lock)
    ensures ok ==> r' == AsReceived(r)
  {
    var w := new Writer();
    Encode(w, r);
    var s := new Reader(w.out);
    assert w.out == RequestBytes(r) + [];
    RequestRoundTrip(r, []);
    ok, r' := Decode(s, Proc(r));
  }

  // ------------------------------------------------------------ the holder in a reply to TEST

  datatype Holder = Holder(exclusive: bool, svid: nat, oh: seq<Byte>, start: int, end: int)

  function HolderBytes(h: Holder): seq<Byte> {
    BoolBytes(h.exclusive) + Word(h.svid) + Opaque(h.oh) + RangeBytes(h.start, h.end)
  }

  /** svcxdr_encode_holder; it refuses an owner that is too long. */
  method EncodeHolder(w: Writer, h: Holder) returns (ok: bool)
    modifies w
    ensures ok <==> |h.oh| <= MAXNETOBJ
    ensures ok ==> w.out == old(w.out) + HolderBytes(h)
  {
    w.PutBool(h.exclusive);
    w.PutWord(h.svid);
    if |h.oh| > MAXNETOBJ {
      return false;
    }
    w.PutOpaque(h.oh);
    EncodeRange(w, h.start, h.end);
    return true;
  }

  /** decode_nlm4_holder in the client. */
  function ReadHolder(s: seq<Byte>): Read<Holder> {
    match ReadBool(s)
    case Fail => Fail
    case Got(x, s1) =>
      match ReadWord(s1)
      case Fail => Fail
      case Got(svid, s2) =>
        match ReadOpaque(s2, MAXNETOBJ)
        case Fail => Fail
        case Got(oh, s3) =>
          match ReadRange(s3, [], [], oh, svid)
          case Fail => Fail
          case Got(l, s4) => Got(Holder(x, svid, oh, l.start, l.end), s4)
  }

  /** The client reads the holder that the server wrote. */
  lemma HolderRoundTrip(h: Holder, t: seq<Byte>)
    requires h.svid < U32 && |h.oh| <= MAXNETOBJ && 0 <= h.start <= h.end <= OFFSET_MAX
    ensures ReadHolder(HolderBytes(h) + t) == Got(h, t)
  {
    Pieces(t, BoolBytes(h.exclusive), Word(h.svid), Opaque(h.oh), RangeBytes(h.start, h.end));
    var s3 := RangeBytes(h.start, h.end) + t;
    BoolRoundTrip(h.exclusive, Word(h.svid) + (Opaque(h.oh) + s3));
    WordRoundTrip(h.svid, Opaque(h.oh) + s3);
    OpaqueRoundTrip(h.oh, MAXNETOBJ, s3);
    RangeBack(Lock([], [], h.oh, h.svid, h.start, h.end), t);
  }

  /** encode_nlm4_holder in the client: the flag it writes says that the lock is shared. */
  function OwnHolderBytes(h: Holder): seq<Byte> {
    BoolBytes(!h.exclusive) + Word(h.svid) + Opaque(h.oh) + RangeBytes(h.start, h.end)
  }

  method EncodeOwnHolder(w: Writer, h: Holder)
    modifies w
    ensures w.out == old(w.out) + OwnHolderBytes(h)
  {
    w.PutBool(!h.exclusive);
    w.PutWord(h.svid);
    w.PutOpaque(h.oh);
    EncodeRange(w, h.start, h.end);
  }

  /** So the client's own decoder turns every holder its encoder wrote from exclusive to shared and back. */
  lemma OwnHolderTurned(h: Holder, t: seq<Byte>)
    requires h.svid < U32 && |h.oh| <= MAXNETOBJ && 0 <= h.start <= h.end <= OFFSET_MAX
    ensures ReadHolder(OwnHolderBytes(h) + t) == Got(h.(exclusive := !h.exclusive), t)
    ensures ReadHolder(OwnHolderBytes(h) + t) != Got(h, t)
  {
    HolderRoundTrip(h.(exclusive := !h.exclusive), t);
  }
}
