/**
The NFSv4 callback service: one CB_COMPOUND at a time on the back channel of a session
(bundle/fs/nfs/callback_xdr.c and callback_proc.c; section 20.9.3 of RFC 5661).
*/
module Callback {
  import opened Common

  const OK: nat := 0
  const NOTSUPP: nat := 10004
  const DELAY: nat := 10008
  const RESOURCE: nat := 10018
  const MINOR_VERS_MISMATCH: nat := 10021
  const OP_ILLEGAL: nat := 10044
  const BADSESSION: nat := 10052
  const BADSLOT: nat := 10053
  const SEQ_MISORDERED: nat := 10063
  const SEQUENCE_POS: nat := 10064
  const REP_TOO_BIG_TO_CACHE: nat := 10067
  const RETRY_UNCACHED_REP: nat := 10068
  const OP_NOT_IN_SESSION: nat := 10071
  const SEQ_FALSE_RETRY: nat := 10076

  /** Internal: an operation's header could not be read or written. No operation returns it. */
  const RESOURCE_HDR: nat := 11050

  type Status = n: nat | n != RESOURCE_HDR

  const CB_GETATTR: nat := 3
  const CB_RECALL: nat := 4
  const CB_LAYOUTRECALL: nat := 5
  const CB_NOTIFY: nat := 6
  const CB_PUSH_DELEG: nat := 7
  const CB_RECALL_ANY: nat := 8
  const CB_RECALLABLE_OBJ_AVAIL: nat := 9
  const CB_RECALL_SLOT: nat := 10
  const CB_SEQUENCE: nat := 11
  const CB_WANTS_CANCELLED: nat := 12
  const CB_NOTIFY_LOCK: nat := 13
  const CB_NOTIFY_DEVICEID: nat := 14
  const CB_OFFLOAD: nat := 15
  const CB_ILLEGAL: nat := 10044

  /** CB_SEQUENCE's arguments, and what the client finds: the session, its back channel, memory for more slots. */
  datatype SeqArgs = SeqArgs(slotid: nat, seqid: nat, cacheThis: bool, found: bool, backChannel: bool, memory: nat)

  /**
  One operation on the wire, with what the rest of the client makes of it: whether its header can be read, whether
  there is room for the reply, the status of decoding, of execution, of encoding the result, and room for the header.
  */
  datatype Operation = Operation(readable: bool, nr: nat, args: SeqArgs, room: bool,
                                 decoded: Status, result: Status, encoded: Status, hdrRoom: bool)

  /**
  The compound's header status, minor version, for minor version 0 what the client identifier led to, and the
  operations.
  */
  datatype Request = Request(header: Status, minor: nat, identified: bool, principal: bool,
                             hdrRoom: bool, ops: seq<Operation>)

  datatype Answer =
    | Garbage | SystemError | BadCredential
    | Reply(status: nat, nops: nat, ops: seq<(nat, nat)>)

  // ------------------------------------------------------------ which operations are allowed where

  function Preprocess40(nr: nat): nat {
    if nr == CB_GETATTR || nr == CB_RECALL then OK else OP_ILLEGAL
  }

  function Preprocess41(nop: nat, nr: nat): nat {
    if nr == CB_SEQUENCE && nop != 0 then SEQUENCE_POS
    else if nr != CB_SEQUENCE && nop == 0 then OP_NOT_IN_SESSION
    else if nr in {CB_GETATTR, CB_RECALL, CB_SEQUENCE, CB_RECALL_ANY, CB_RECALL_SLOT,
                   CB_LAYOUTRECALL, CB_NOTIFY_DEVICEID, CB_NOTIFY_LOCK} then OK
    else if nr in {CB_NOTIFY, CB_PUSH_DELEG, CB_RECALLABLE_OBJ_AVAIL, CB_WANTS_CANCELLED} then NOTSUPP
    else OP_ILLEGAL
  }

  function Preprocess42(nop: nat, nr: nat): nat {
    var status := Preprocess41(nop, nr);
    if status != OP_ILLEGAL then status else if nr == CB_OFFLOAD then OK else NOTSUPP
  }

  function Preprocess(minor: nat, nop: nat, nr: nat): (status: nat)
    ensures status != RESOURCE_HDR
    ensures status == OK && minor > 0 ==> (nr == CB_SEQUENCE <==> nop == 0)
    ensures status == OK && minor == 0 ==> nr != CB_SEQUENCE
  {
    if minor == 0 then Preprocess40(nr)
    else if minor == 1 then Preprocess41(nop, nr)
    else if minor == 2 then Preprocess42(nop, nr)
    else MINOR_VERS_MISMATCH
  }

  /** The operations that minor versions 0 and 1 know, and those of them that the client carries out. */
  predicate Known(minor: nat, nr: nat) {
    if minor == 0 then nr == CB_GETATTR || nr == CB_RECALL else CB_GETATTR <= nr <= CB_NOTIFY_DEVICEID
  }

  predicate Served(minor: nat, nr: nat) {
    || (Known(minor, nr) && nr !in {CB_NOTIFY, CB_PUSH_DELEG, CB_RECALLABLE_OBJ_AVAIL, CB_WANTS_CANCELLED})
    || (minor == 2 && nr == CB_OFFLOAD)
  }

  /**
  What is let through: in minor version 0 the two operations there are; in the later ones CB_SEQUENCE first and only
  first, and behind it what the client serves. What is not supported is told from what is unknown.
  */
  lemma PreprocessMeans(minor: nat, nop: nat, nr: nat)
    ensures var status := Preprocess(minor, nop, nr);
            && (status == OK <==> minor <= 2 && Served(minor, nr) && (minor > 0 ==> (nr == CB_SEQUENCE <==> nop == 0)))
            && (status == MINOR_VERS_MISMATCH <==> minor > 2)
            && (status == SEQUENCE_POS <==> 1 <= minor <= 2 && nr == CB_SEQUENCE && nop != 0)
            && (status == OP_NOT_IN_SESSION <==> 1 <= minor <= 2 && nr != CB_SEQUENCE && nop == 0)
            && (status == OP_ILLEGAL <==> !Known(minor, nr) && (minor == 0 || (minor == 1 && nop > 0)))
            && (status == NOTSUPP <==>
                  1 <= minor <= 2 && nop > 0 && !Served(minor, nr) && (Known(minor, nr) || minor == 2))
  {
  }

  /** struct cb_process_state. */
  datatype Process = Process(drc: nat, client: bool, slot: Option<nat>)

  /** The sequence numbers are as before, except that there may be more slots, starting at 0. */
  ghost predicate Grown(a: seq<nat>, b: seq<nat>) {
    a <= b && forall i :: |a| <= i < |b| ==> b[i] == 0
  }

  /** A slot's sequence number; slots not yet made start at 0. */
  function SeqOf(a: seq<nat>, i: nat): nat {
    if i < |a| then a[i] else 0
  }

  /** One slot, or none, went one step on; the others are as before. */
  ghost predicate Moved(a: seq<nat>, b: seq<nat>, slot: Option<nat>) {
    match slot
    case None => Grown(a, b)
    case Some(i) => i < |b| && Grown(a, b[i := SeqOf(a, i)]) && b[i] == (SeqOf(a, i) + 1) % U32
  }

  /** The reply answers the operations in order, and goes on after an operation only if that succeeded. */
  ghost predicate Orderly(minor: nat, ops: seq<Operation>, answers: seq<(nat, nat)>) {
    && |answers| <= |ops|
    && (forall i :: 0 <= i < |answers| ==>
          answers[i].0 == if Preprocess(minor, i, ops[i].nr) == OP_ILLEGAL then CB_ILLEGAL else ops[i].nr)
    && (forall i :: 0 <= i < |answers| - 1 ==> answers[i].1 == OK)
  }

  /** Sequence numbers on the wire are 32-bit words. */
  ghost predicate Sequenced(r: Request) {
    forall i :: 0 <= i < |r.ops| ==> r.ops[i].args.seqid < U32
  }

  /** The back channel as a CB_SEQUENCE finds it. */
  datatype Channel = Channel(seqNr: seq<nat>, used: set<nat>, draining: bool, resetting: bool, maxSlotid: nat,
                             serverHighest: nat)

  /** The session is there, is not being drained, and has the slot or can make it. */
  predicate Reaches(c: Channel, args: SeqArgs) {
    && args.found && args.backChannel && !c.draining
    && args.slotid <= c.maxSlotid && args.slotid < |c.seqNr| + args.memory && args.slotid <= c.serverHighest
  }

  /** A request that takes its slot one step on. */
  predicate Accepts(c: Channel, args: SeqArgs) {
    && Reaches(c, args) && args.seqid == (SeqOf(c.seqNr, args.slotid) + 1) % U32
    && args.slotid !in c.used && !args.cacheThis
  }

  /** The last request on its slot once more. */
  predicate Repeats(c: Channel, args: SeqArgs) {
    && Reaches(c, args) && args.seqid == SeqOf(c.seqNr, args.slotid) && args.slotid !in c.used && !args.cacheThis
  }

  /** A first operation that gets as far as nfs4_callback_sequence. */
  predicate Sequencing(minor: nat, op: Operation) {
    1 <= minor <= 2 && op.readable && op.nr == CB_SEQUENCE && op.room && op.decoded == OK
  }

  /**
  Which slot a compound moved, and whether it was a replay, against what was asked and answered: only the CB_SEQUENCE at
  the front moves its slot, when it succeeds; and one that succeeds moves its slot or is a replay.
  */
  ghost predicate Accounted(r: Request, answer: Answer, moved: Option<nat>, replay: bool) {
    && (moved.Some? || replay ==> r.minor > 0 && |r.ops| > 0 && r.ops[0].nr == CB_SEQUENCE && answer.Reply?)
    && (moved.Some? ==> moved == Some(r.ops[0].args.slotid) && !replay)
    && (moved.Some? && answer.ops != [] ==> answer.ops[0] == (CB_SEQUENCE, OK))
    && (answer.Reply? && answer.ops != [] && answer.ops[0] == (CB_SEQUENCE, OK) ==> moved.Some? || replay)
  }

  /** Operation i is carried out, if it is reached and no replay. */
  predicate Runs(r: Request, i: nat)
    requires i < |r.ops|
  {
    var op := r.ops[i];
    op.readable && Preprocess(r.minor, i, op.nr) == OK && op.nr != CB_SEQUENCE && op.room && op.decoded == OK
  }

  /** The operations carried out among the first n. */
  function Ran(r: Request, n: nat): seq<nat>
    requires n <= |r.ops|
  {
    if n == 0 then [] else Ran(r, n - 1) + if Runs(r, n - 1) then [r.ops[n - 1].nr] else []
  }

  /** The compound gets as far as its first operation, a CB_SEQUENCE that the session takes in the given way. */
  predicate Opens(r: Request) {
    r.header == OK && r.hdrRoom && |r.ops| > 0 && Sequencing(r.minor, r.ops[0])
  }

  /** What has happened once n operations of the compound have been tried, since the channel was c. */
  datatype Progress = Progress(n: nat, status: nat, ops: seq<(nat, nat)>, p: Process, moved: Option<nat>)

  /** The answers so far are those of the operations tried, in order, and the last alone may have failed. */
  ghost predicate Answered(r: Request, g: Progress) {
    && g.n <= |r.ops| && g.n == |g.ops| + (if g.status == RESOURCE_HDR then 1 else 0)
    && Orderly(r.minor, r.ops, g.ops) && (g.status == OK && g.ops != [] ==> g.ops[|g.ops| - 1].1 == OK)
    && (g.n == 0 ==> g.status == r.header)
    && (g.n > 0 && g.status != RESOURCE_HDR ==> g.status == Final(r, g.ops))
  }

  /** The status of the last operation answered: that of its execution, and if it succeeded of encoding its result. */
  function Final(r: Request, ops: seq<(nat, nat)>): nat
    requires 0 < |ops| <= |r.ops|
  {
    var status := ops[|ops| - 1].1;
    if status == OK then r.ops[|ops| - 1].encoded else status
  }

  /** The first operation of a session's compound moved its slot, or was a replay, or failed. */
  ghost predicate First(r: Request, c: Channel, g: Progress)
    requires g.n <= |r.ops|
  {
    && (g.n == 0 ==> g.p == Process(OK, r.minor == 0, None) && g.moved.None? && g.ops == [])
    && (r.minor == 0 ==> g.moved.None? && g.p.drc == OK)
    && (r.minor > 0 && g.n > 0 ==>
          && (g.moved.Some? <==> Sequencing(r.minor, r.ops[0]) && Accepts(c, r.ops[0].args))
          && (g.p.drc != OK <==> Sequencing(r.minor, r.ops[0]) && Repeats(c, r.ops[0].args))
          && (g.moved.Some? ==> g.moved == Some(r.ops[0].args.slotid))
          && (g.moved.Some? && g.ops != [] ==> g.ops[0] == (CB_SEQUENCE, OK))
          && (g.ops != [] && g.ops[0] == (CB_SEQUENCE, OK) ==> g.moved.Some? || g.p.drc != OK)
          && (g.moved.None? ==> g.status != OK || g.p.drc != OK)
          && (g.p.drc != OK ==> g.p.drc == RETRY_UNCACHED_REP))
  }

  /** What was carried out: nothing without a move in a session, and otherwise each operation tried that can be. */
  ghost predicate Executed(r: Request, g: Progress, before: seq<nat>, after: seq<nat>)
    requires g.n <= |r.ops|
  {
    after == before + if r.minor == 0 || g.moved.Some? then Ran(r, g.n) else []
  }

  /** What a compound holds besides what was held before: its slot, and in a session its client. */
  ghost predicate Lent(used: set<nat>, used': set<nat>, refs: nat, refs': nat, p: Process, minor: nat) {
    && refs' == refs + (if p.client && minor > 0 then 1 else 0) && (minor == 0 ==> p.client)
    && match p.slot
       case None => used' == used
       case Some(i) => i !in used && used' == used + {i}
  }

  lemma AnsweredMore(r: Request, g: Progress, g': Progress, header: Option<(nat, nat)>)
    requires Answered(r, g) && g.status == OK && g.n < |r.ops| && g'.n == g.n + 1
    requires g'.ops == if header.Some? then g.ops + [header.value] else g.ops
    requires header.None? <==> g'.status == RESOURCE_HDR
    requires var nr := r.ops[g.n].nr;
             header.Some? ==> header.value.0 == if Preprocess(r.minor, g.n, nr) == OP_ILLEGAL then CB_ILLEGAL else nr
    requires g'.status == OK ==> header.Some? && header.value.1 == OK
    requires header.Some? ==> g'.status == if header.value.1 == OK then r.ops[g.n].encoded else header.value.1
    ensures Answered(r, g')
  {
  }

  lemma FirstKept(r: Request, c: Channel, g: Progress, g': Progress)
    requires 0 < g.n < |r.ops| && First(r, c, g) && g.status == OK && g'.n == g.n + 1
    requires g'.moved == g.moved && g'.p == g.p && g.ops != [] && g.ops <= g'.ops
    requires g.p.drc != OK ==> g'.status != OK
    ensures First(r, c, g')
  {
  }

  lemma ExecutedMore(r: Request, g: Progress, g': Progress, before: seq<nat>, a: seq<nat>, b: seq<nat>, c: Channel)
    requires g.n < |r.ops| && g'.n == g.n + 1 && Executed(r, g, before, a) && First(r, c, g) && First(r, c, g')
    requires g.n > 0 ==> g'.moved == g.moved && g.status == OK
    requires b == a + if g.p.drc == OK && Runs(r, g.n) then [r.ops[g.n].nr] else []
    ensures Executed(r, g', before, b)
  {
    assert Ran(r, g.n + 1) == Ran(r, g.n) + if Runs(r, g.n) then [r.ops[g.n].nr] else [];
    assert a + [] == a;
  }

  class BackChannel {
    /** seq_nr of the slots there are. */
    var seqNr: seq<nat>
    /** used_slots. */
    var used: set<nat>
    /** References on clients that callbacks hold. */
    var refs: nat
    var draining: bool
    var resetting: bool
    const maxSlotid: nat
    const serverHighest: nat

    /** Ghost: every operation but CB_SEQUENCE that was executed. */
    ghost var executed: seq<nat>

    ghost predicate Valid()
      reads this
    {
      forall i :: 0 <= i < |seqNr| ==> seqNr[i] < U32
    }

    ghost function State(): Channel
      reads this
    {
      Channel(seqNr, used, draining, resetting, maxSlotid, serverHighest)
    }

    /** validate_seqid. */
    method ValidateSeqid(args: SeqArgs) returns (status: nat)
      requires Valid() && args.slotid < |seqNr| && args.seqid < U32
      ensures status != RESOURCE_HDR
      ensures status == OK <==> args.slotid <= serverHighest && args.seqid == (seqNr[args.slotid] + 1) % U32
      ensures status == RETRY_UNCACHED_REP <==>
                && args.slotid <= serverHighest && args.seqid == seqNr[args.slotid]
                && args.slotid !in used && !args.cacheThis
      ensures status == BADSLOT <==> args.slotid > serverHighest
      ensures status == DELAY <==>
                args.slotid <= serverHighest && args.seqid == seqNr[args.slotid] && args.slotid in used
      ensures status == SEQ_FALSE_RETRY <==>
                && args.slotid <= serverHighest && args.seqid == seqNr[args.slotid]
                && args.slotid !in used && args.cacheThis
      ensures status in {OK, RETRY_UNCACHED_REP, BADSLOT, DELAY, SEQ_FALSE_RETRY, SEQ_MISORDERED}
    {
      if args.slotid > serverHighest {
        return BADSLOT;
      }
      if args.seqid == seqNr[args.slotid] {
        if args.slotid in used {
          return DELAY;
        }
        if !args.cacheThis {
          return RETRY_UNCACHED_REP;
        }
        return SEQ_FALSE_RETRY;
      }
      if args.seqid != (seqNr[args.slotid] + 1) % U32 {
        return SEQ_MISORDERED;
      }
      return OK;
    }

    /** nfs4_lookup_slot: slots are made as needed, while there is memory. */
    method LookupSlot(slotid: nat, memory: nat) returns (ok: bool)
      requires Valid()
      modifies `seqNr
      ensures Valid() && Grown(old(seqNr), seqNr) && (ok ==> slotid < |seqNr|)
      ensures ok <==> slotid <= maxSlotid && slotid < |old(seqNr)| + memory
    {
      if slotid > maxSlotid {
        return false;
      }
      var left := memory;
      while |seqNr| <= slotid
        invariant Valid() && Grown(old(seqNr), seqNr) && |seqNr| + left == |old(seqNr)| + memory
        decreases slotid - |seqNr|
      {
        if left == 0 {
          return false;
        }
        seqNr, left := seqNr + [0], left - 1;
      }
      return true;
    }

    /**
    nfs4_callback_sequence. The slot's number moves, by one, exactly for the next request on a slot that is free and
    can be reached; the last request once more succeeds as a replay; everything else has its error. Whatever the
    outcome, the caller owes back the client and the slot it is handed.
    */
    method Sequence(args: SeqArgs) returns (status: nat, p: Process, ghost moved: Option<nat>)
      requires Valid() && args.seqid < U32
      modifies `seqNr, `used, `refs
      ensures Valid() && Moved(old(seqNr), seqNr, moved) && status != RESOURCE_HDR
      ensures moved == if status == OK && p.drc == OK then Some(args.slotid) else None
      ensures moved.Some? ==> seqNr[args.slotid] == args.seqid && p.slot == Some(args.slotid)
      ensures p.drc != OK ==>
                && status == OK && p.drc == RETRY_UNCACHED_REP
                && args.seqid == SeqOf(old(seqNr), args.slotid) && p.slot.None?
      ensures moved.Some? <==> Accepts(old(State()), args)
      ensures p.drc != OK <==> Repeats(old(State()), args)
      ensures status == BADSESSION <==> !args.found || !args.backChannel || (draining && resetting)
      ensures status == BADSLOT <==>
                args.found && args.backChannel && !draining && !Reaches(old(State()), args)
      ensures status == DELAY <==>
                || (args.found && args.backChannel && draining && !resetting)
                || (&& Reaches(old(State()), args) && args.slotid in old(used)
                    && var n := SeqOf(old(seqNr), args.slotid); args.seqid == n || args.seqid == (n + 1) % U32)
      ensures Reaches(old(State()), args) && args.slotid !in old(used) && args.cacheThis ==>
                && (args.seqid == SeqOf(old(seqNr), args.slotid) ==> status == SEQ_FALSE_RETRY)
                && (args.seqid == (SeqOf(old(seqNr), args.slotid) + 1) % U32 ==> status == REP_TOO_BIG_TO_CACHE)
      ensures status == SEQ_MISORDERED <==>
                && Reaches(old(State()), args)
                && var n := SeqOf(old(seqNr), args.slotid); args.seqid != n && args.seqid != (n + 1) % U32
      ensures p.client == args.found && refs == old(refs) + if p.client then 1 else 0
      ensures match p.slot case None => used == old(used) case Some(i) => i !in old(used) && used == old(used) + {i}
    {
      status, p, moved := BADSESSION, Process(OK, args.found, None), None;
      if !args.found {
        return;
      }
      refs := refs + 1;
      if !args.backChannel {
        return;
      }
      if draining {
        status := if resetting then BADSESSION else DELAY;
        return;
      }
      var ok := LookupSlot(args.slotid, args.memory);
      if !ok {
        status := BADSLOT;
        return;
      }
      status := ValidateSeqid(args);
      if status != OK {
        if status == RETRY_UNCACHED_REP {
          p, status := p.(drc := RETRY_UNCACHED_REP), OK;
        }
        return;
      }
      if args.slotid in used {
        status := DELAY;
        return;
      }
      used := used + {args.slotid};
      p := p.(slot := Some(args.slotid));
      if args.cacheThis {
        status := REP_TOO_BIG_TO_CACHE;
        return;
      }
      seqNr := seqNr[args.slotid := args.seqid];
      moved := Some(args.slotid);
    }

    /** process_op: the status it returns, and the operation header it wrote, if it could. */
    method ProcessOp(nop: nat, minor: nat, op: Operation, p: Process)
      returns (status: nat, p': Process, header: Option<(nat, nat)>, ghost moved: Option<nat>)
      requires Valid() && op.args.seqid < U32
      requires minor > 0 && nop == 0 ==> p == Process(OK, false, None)
      requires p.drc == OK || p.drc == RETRY_UNCACHED_REP
      modifies `seqNr, `used, `refs, `executed
      ensures Valid() && Moved(old(seqNr), seqNr, moved)
      ensures header.None? <==> status == RESOURCE_HDR
      ensures moved.Some? ==>
                && minor > 0 && nop == 0 && op.nr == CB_SEQUENCE && moved == Some(op.args.slotid)
                && seqNr[op.args.slotid] == op.args.seqid && (header.Some? ==> header.value == (CB_SEQUENCE, OK))
      ensures header == Some((CB_SEQUENCE, OK)) ==> moved.Some? || p'.drc != OK
      ensures minor > 0 && nop == 0 ==>
                && (moved.Some? <==> Sequencing(minor, op) && Accepts(old(State()), op.args))
                && (p'.drc != OK <==> Sequencing(minor, op) && Repeats(old(State()), op.args))
      ensures header.None? <==> !op.readable || !op.hdrRoom
      ensures header.Some? ==>
                && (Preprocess(minor, nop, op.nr) != OK ==> header.value.1 == Preprocess(minor, nop, op.nr))
                && (Preprocess(minor, nop, op.nr) == OK && p.drc != OK ==> header.value.1 == p.drc)
                && (Preprocess(minor, nop, op.nr) == OK && p.drc == OK && !op.room ==> header.value.1 == RESOURCE)
                && (Preprocess(minor, nop, op.nr) == OK && p.drc == OK && op.room && op.decoded != OK ==>
                      header.value.1 == op.decoded)
                && status == if header.value.1 == OK then op.encoded else header.value.1
      ensures minor > 0 && nop == 0 && status == OK ==> moved.Some? || p'.drc != OK
      ensures p'.drc != p.drc ==>
                && minor > 0 && nop == 0 && op.nr == CB_SEQUENCE && p'.drc == RETRY_UNCACHED_REP
                && op.args.seqid == SeqOf(old(seqNr), op.args.slotid)
      ensures p.drc != OK || (minor > 0 && nop == 0) ==> executed == old(executed)
      ensures p.drc != OK ==> status != OK
      ensures header.Some? ==>
                header.value.0 == if Preprocess(minor, nop, op.nr) == OP_ILLEGAL then CB_ILLEGAL else op.nr
      ensures status == OK ==> header.Some? && header.value.1 == OK
      ensures var runs := && p.drc == OK && op.readable && Preprocess(minor, nop, op.nr) == OK && op.nr != CB_SEQUENCE
                          && op.room && op.decoded == OK;
              && executed == old(executed) + (if runs then [op.nr] else [])
              && (runs && header.Some? ==> header.value.1 == op.result)
      ensures !(minor > 0 && nop == 0) ==> p' == p && seqNr == old(seqNr) && used == old(used) && refs == old(refs)
      ensures minor > 0 && nop == 0 ==>
                && refs == old(refs) + (if p'.client then 1 else 0)
                && match p'.slot
                   case None => used == old(used)
                   case Some(i) => i !in old(used) && used == old(used) + {i}
    {
      p', moved, header := p, None, None;
      if !op.readable {
        status := RESOURCE_HDR;
        return;
      }
      status := Preprocess(minor, nop, op.nr);
      var nr := if status == OP_ILLEGAL then CB_ILLEGAL else op.nr;
      if status == OK {
        if p.drc != OK {
          status := p.drc;
        } else if !op.room {
          status := RESOURCE;
        } else if op.decoded != OK {
          status := op.decoded;
        } else if op.nr == CB_SEQUENCE {
          status, p', moved := Sequence(op.args);
        } else {
          executed := executed + [op.nr];
          status := op.result;
        }
      }
      if !op.hdrRoom {
        status := RESOURCE_HDR;
        return;
      }
      header := Some((nr, status));
      if status == OK {
        status := op.encoded;
      }
    }

    /** The loop over the operations. */
    method Operations(r: Request) returns (ghost g: Progress, status: nat, nops: nat, ops: seq<(nat, nat)>, p: Process)
      requires Valid() && Sequenced(r)
      modifies `seqNr, `used, `refs, `executed
      ensures Valid() && g == Progress(nops, status, ops, p, g.moved) && Answered(r, g)
      ensures First(r, old(State()), g) && Executed(r, g, old(executed), executed)
      ensures (status == OK ==> nops == |r.ops|) && (nops == 0 <==> r.header != OK || r.ops == [])
      ensures Moved(old(seqNr), seqNr, g.moved) && (g.moved.Some? ==> seqNr[g.moved.value] == r.ops[0].args.seqid)
      ensures Lent(old(used), used, old(refs), refs, p, r.minor)
    {
      status, nops, ops, p := r.header as nat, 0, [], Process(OK, r.minor == 0, None);
      g := Progress(nops, status, ops, p, None);
      while status == OK && nops != |r.ops|
        invariant Valid() && g == Progress(nops, status, ops, p, g.moved) && Answered(r, g)
        invariant First(r, old(State()), g) && Executed(r, g, old(executed), executed)
        invariant (nops == 0 ==> status == r.header) && (nops > 0 ==> r.header == OK)
        invariant nops == 0 ==> seqNr == old(seqNr)
        invariant Moved(old(seqNr), seqNr, g.moved) && (g.moved.Some? ==> seqNr[g.moved.value] == r.ops[0].args.seqid)
        invariant Lent(old(used), used, old(refs), refs, p, r.minor)
      {
        ghost var moved;
        status, p, ops, moved := Operation1(r, nops, ops, p, g, old(State()), old(executed));
        nops := nops + 1;
        g := Progress(nops, status, ops, p, if nops == 1 then moved else g.moved);
      }
    }

    /** One turn of the loop. */
    method Operation1(r: Request, n: nat, ops: seq<(nat, nat)>, p: Process, ghost g: Progress, ghost c: Channel,
                      ghost before: seq<nat>)
      returns (status: nat, p': Process, ops': seq<(nat, nat)>, ghost moved: Option<nat>)
      requires Valid() && Sequenced(r) && n < |r.ops| && g == Progress(n, OK, ops, p, g.moved) && Answered(r, g)
      requires First(r, c, g) && Executed(r, g, before, executed)
      requires n == 0 ==> State() == c
      requires p.drc == OK || p.drc == RETRY_UNCACHED_REP
      modifies `seqNr, `used, `refs, `executed
      ensures Valid() && Moved(old(seqNr), seqNr, if n == 0 then moved else None)
      ensures n == 0 && moved.Some? ==> moved == Some(r.ops[0].args.slotid) && seqNr[moved.value] == r.ops[0].args.seqid
      ensures var g' := Progress(n + 1, status, ops', p', if n == 0 then moved else g.moved);
              Answered(r, g') && First(r, c, g') && Executed(r, g', before, executed)
      ensures n > 0 || r.minor == 0 ==> p' == p && seqNr == old(seqNr) && used == old(used) && refs == old(refs)
      ensures n == 0 ==> Lent(old(used), used, old(refs), refs, p', r.minor)
    {
      var header;
      status, p', header, moved := ProcessOp(n, r.minor, r.ops[n], p);
      ops' := if header.Some? then ops + [header.value] else ops;
      ghost var g' := Progress(n + 1, status, ops', p', if n == 0 then moved else g.moved);
      AnsweredMore(r, g, g', header);
      if n > 0 {
        FirstKept(r, c, g, g');
      }
      ExecutedMore(r, g, g', before, old(executed), executed, c);
    }

    /**
    nfs4_callback_compound. However it ends, slots and clients are given back and the reply counts the operations in it;
    a slot's number moves by one exactly when the first operation is a CB_SEQUENCE that the session accepts; a replay
    executes nothing, and everything else executes what it answers for.
    */
    method Compound(r: Request)
      returns (answer: Answer, ghost moved: Option<nat>, ghost replay: bool, ghost tried: nat)
      requires Valid() && Sequenced(r)
      modifies `seqNr, `used, `refs, `executed
      ensures Valid() && used == old(used) && refs == old(refs)
      ensures answer == Garbage <==> r.header == RESOURCE
      ensures answer == BadCredential <==> r.header != RESOURCE && r.minor == 0 && !(r.identified && r.principal)
      ensures answer == SystemError <==>
                r.header != RESOURCE && (r.minor == 0 ==> r.identified && r.principal) && !r.hdrRoom
      ensures answer.Reply? ==> answer.nops == |answer.ops| <= |r.ops| && Orderly(r.minor, r.ops, answer.ops)
      ensures answer.Reply? && answer.status == OK ==> answer.nops == |r.ops|
      ensures !answer.Reply? ==> seqNr == old(seqNr) && executed == old(executed)
      ensures Moved(old(seqNr), seqNr, moved)
      ensures Accounted(r, answer, moved, replay) && (moved.Some? ==> seqNr[moved.value] == r.ops[0].args.seqid)
      ensures moved.Some? <==> Opens(r) && Accepts(old(State()), r.ops[0].args)
      ensures replay <==> Opens(r) && Repeats(old(State()), r.ops[0].args)
      ensures answer.Reply? ==> tried <= |r.ops| && (tried == answer.nops || tried == answer.nops + 1)
      ensures answer.Reply? && r.header == OK && r.ops != [] ==> tried > 0
      ensures answer.Reply? ==>
                answer.status == if tried == 0 then r.header else if tried > answer.nops then RESOURCE
                                 else Final(r, answer.ops)
      ensures answer.Reply? && (r.minor == 0 || moved.Some?) ==> executed == old(executed) + Ran(r, tried)
      ensures r.minor > 0 && moved.None? ==> executed == old(executed)
    {
      moved, replay, tried := None, false, 0;
      if r.header == RESOURCE {
        answer := Garbage;
        return;
      }
      if r.minor == 0 {
        if !r.identified {
          answer := BadCredential;
          return;
        }
        refs := refs + 1;
        if !r.principal {
          refs, answer := refs - 1, BadCredential;
          return;
        }
      }
      if !r.hdrRoom {
        if r.minor == 0 {
          refs := refs - 1;
        }
        answer := SystemError;
        return;
      }
      ghost var g;
      var status, nops, ops, p;
      g, status, nops, ops, p := Operations(r);
      moved, replay, tried := g.moved, p.drc != OK, g.n;
      if status == RESOURCE_HDR {
        status, nops := RESOURCE, nops - 1;
      }
      if p.slot.Some? {
        used := used - {p.slot.value};
      }
      if p.client {
        refs := refs - 1;
      }
      answer := Reply(status, nops, ops);
    }

    /**
    Any run of compounds, while the state manager drains the session at will: each slot's number has gone on by the
    number of CB_SEQUENCEs on it that succeeded and were no replays, modulo 2^32; these are exactly the ones that the
    channel as they found it accepts; and all slots and clients are given back.
    */
    method Serve(rs: seq<Request>, drains: seq<(bool, bool)>) returns (answers: seq<Answer>, ghost turns: seq<Turn>)
      requires Valid() && |drains| == |rs| && forall k :: 0 <= k < |rs| ==> Sequenced(rs[k])
      modifies this
      ensures Valid() && used == old(used) && refs == old(refs) && |answers| == |turns| == |rs|
      ensures Advanced(old(seqNr), seqNr, turns)
      ensures forall k :: 0 <= k < |rs| ==> Accounted(rs[k], answers[k], turns[k].moved, turns[k].replay)
      ensures forall k :: 0 <= k < |rs| ==> Taken(rs[k], answers[k], turns[k])
      ensures forall k :: 0 <= k < |rs| ==>
                && Advanced(old(seqNr), turns[k].channel.seqNr, turns[..k]) && turns[k].channel.used == old(used)
                && (turns[k].channel.draining, turns[k].channel.resetting) == drains[k]
    {
      answers, turns := [], [];
      while |answers| < |rs|
        invariant Valid() && used == old(used) && refs == old(refs) && |answers| == |turns| <= |rs|
        invariant Advanced(old(seqNr), seqNr, turns)
        invariant forall k :: 0 <= k < |answers| ==> Accounted(rs[k], answers[k], turns[k].moved, turns[k].replay)
        invariant forall k :: 0 <= k < |answers| ==> Taken(rs[k], answers[k], turns[k])
        invariant forall k :: 0 <= k < |answers| ==>
                    && Advanced(old(seqNr), turns[k].channel.seqNr, turns[..k]) && turns[k].channel.used == old(used)
                    && (turns[k].channel.draining, turns[k].channel.resetting) == drains[k]
      {
        var answer;
        ghost var turn;
        answer, turn := Serve1(rs[|answers|], drains[|answers|]);
        AdvancedMore(old(seqNr), turn.channel.seqNr, seqNr, turns, turn);
        assert forall k :: 0 <= k <= |turns| ==> (turns + [turn])[..k] == turns[..k];
        answers, turns := answers + [answer], turns + [turn];
      }
    }

    /** One of them. */
    method Serve1(r: Request, drain: (bool, bool)) returns (answer: Answer, ghost turn: Turn)
      requires Valid() && Sequenced(r)
      modifies this
      ensures Valid() && used == old(used) && refs == old(refs)
      ensures Moved(old(seqNr), seqNr, turn.moved) && turn.channel.seqNr == old(seqNr) && turn.channel.used == used
      ensures (turn.channel.draining, turn.channel.resetting) == drain
      ensures Accounted(r, answer, turn.moved, turn.replay) && Taken(r, answer, turn)
    {
      draining, resetting := drain.0, drain.1;
      ghost var channel, moved, replay, tried := State(), None, false, 0;
      answer, moved, replay, tried := Compound(r);
      turn := Turn(channel, moved, replay);
    }
  }

  /** A compound: the channel as it found it, the slot it moved, and whether it was a replay. */
  datatype Turn = Turn(channel: Channel, moved: Option<nat>, replay: bool)

  /** A slot is moved, and a replay told, exactly as the channel has it; and only a broken request gets no reply. */
  ghost predicate Taken(r: Request, answer: Answer, turn: Turn) {
    && (turn.moved.Some? <==> Opens(r) && Accepts(turn.channel, r.ops[0].args))
    && (turn.replay <==> Opens(r) && Repeats(turn.channel, r.ops[0].args))
    && (answer.Reply? <==> r.header != RESOURCE && (r.minor == 0 ==> r.identified && r.principal) && r.hdrRoom)
  }

  /** Each slot's number has gone on by the number of its moves. */
  ghost predicate Advanced(start: seq<nat>, seqNr: seq<nat>, turns: seq<Turn>) {
    forall i: nat :: SeqOf(seqNr, i) == (SeqOf(start, i) + Count(turns, i)) % U32
  }

  lemma AdvancedMore(start: seq<nat>, before: seq<nat>, seqNr: seq<nat>, turns: seq<Turn>, turn: Turn)
    requires Advanced(start, before, turns) && Moved(before, seqNr, turn.moved)
    ensures Advanced(start, seqNr, turns + [turn])
  {
    forall i: nat ensures SeqOf(seqNr, i) == (SeqOf(start, i) + Count(turns + [turn], i)) % U32 {
      MovedBy(before, seqNr, turn.moved, i);
      CountMore(turns, turn, i);
      AddOne(SeqOf(start, i) + Count(turns, i));
    }
  }

  /** How often slot i moved. */
  ghost function Count(turns: seq<Turn>, i: nat): nat {
    if turns == [] then 0 else Count(turns[..|turns| - 1], i) + if turns[|turns| - 1].moved == Some(i) then 1 else 0
  }

  lemma CountMore(turns: seq<Turn>, turn: Turn, i: nat)
    ensures Count(turns + [turn], i) == Count(turns, i) + if turn.moved == Some(i) then 1 else 0
  {
    assert (turns + [turn])[..|turns|] == turns;
  }

  lemma MovedBy(a: seq<nat>, b: seq<nat>, moved: Option<nat>, i: nat)
    requires Moved(a, b, moved)
    ensures SeqOf(b, i) == if moved == Some(i) then (SeqOf(a, i) + 1) % U32 else SeqOf(a, i)
  {
    if moved.Some? && moved.value != i {
      var c := b[moved.value := SeqOf(a, moved.value)];
      assert i < |b| ==> c[i] == b[i];
    }
  }

  lemma AddOne(x: nat)
    ensures (x % U32 + 1) % U32 == (x + 1) % U32
  {
  }
}
