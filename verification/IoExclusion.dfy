/**
Exclusion of buffered and direct I/O on one inode (bundle/fs/nfs/io.c, with the in-flight count that
bundle/fs/nfs/direct.c keeps): any number of threads, one step at a time.
*/
module IoExclusion {

  type Tid = nat
  type Rid = nat

  /**
  Where a thread is.  Try: has the semaphore shared and will test the flag.  Slow: released it and will ask for it
  exclusively.  Held: has it exclusively.  Wait: has cleared the flag and waits for direct requests to end.
  In: inside the section.
  */
  datatype Place =
    | Out
    | ReadTry | ReadSlow | ReadHeld | ReadWait | ReadIn
    | WriteHeld | WriteWait | WriteIn
    | DirectTry | DirectSlow | DirectHeld | DirectIn

  /** A direct request: io_count, and whether it is a write, which may be committed or sent again when io_count is 0. */
  datatype Request = Request(io: nat, write: bool)

  /** places: i_rwsem is read off these; direct: NFS_INO_ODIRECT; live: requests counted in i_dio_count. */
  datatype State = State(places: map<Tid, Place>, direct: bool, live: map<Rid, Request>, dio: nat)

  predicate Shares(p: Place) {
    p in {ReadTry, ReadIn, DirectTry, DirectIn}
  }

  predicate Owns(p: Place) {
    p in {ReadHeld, ReadWait, WriteHeld, WriteWait, WriteIn, DirectHeld}
  }

  /** The semaphore can be taken shared, or exclusively. */
  ghost predicate NoOwner(s: State) {
    forall t :: t in s.places ==> !Owns(s.places[t])
  }

  ghost predicate NoHolder(s: State) {
    forall t :: t in s.places ==> !Owns(s.places[t]) && !Shares(s.places[t])
  }

  datatype Op =
    | StartRead(t: Tid) | StartWrite(t: Tid) | StartDirect(t: Tid)   // the first down_read or down_write
    | Test(t: Tid)                                                   // the optimistic test of the flag
    | DownWrite(t: Tid)                                              // the slow path
    | Block(t: Tid)                                       // nfs_block_o_direct up to its wait, nfs_block_buffered
    | Waited(t: Tid)                                                 // inode_dio_wait is over
    | End(t: Tid)
    | Submit(t: Tid, r: Rid, write: bool)                            // get_dreq and inode_dio_begin in a direct section
    | Send(r: Rid) | Complete(r: Rid)                                // get_dreq for a header; put_dreq
    | Resend(r: Rid) | Finish(r: Rid)                                // a write sent again, or done with

  ghost predicate Enabled(s: State, op: Op) {
    match op
    case StartRead(t) => (t in s.places ==> s.places[t] == Out) && NoOwner(s)
    case StartWrite(t) => (t in s.places ==> s.places[t] == Out) && NoHolder(s)
    case StartDirect(t) => (t in s.places ==> s.places[t] == Out) && NoOwner(s)
    case Test(t) => t in s.places && (s.places[t] == ReadTry || s.places[t] == DirectTry)
    case DownWrite(t) => t in s.places && (s.places[t] == ReadSlow || s.places[t] == DirectSlow) && NoHolder(s)
    case Block(t) => t in s.places && s.places[t] in {ReadHeld, WriteHeld, DirectHeld}
    case Waited(t) => t in s.places && s.places[t] in {ReadWait, WriteWait} && s.dio == 0
    case End(t) => t in s.places && s.places[t] in {ReadIn, WriteIn, DirectIn}
    case Submit(t, r, _) => t in s.places && s.places[t] == DirectIn && r !in s.live
    case Send(r) => r in s.live && s.live[r].io > 0
    case Complete(r) => r in s.live && s.live[r].io > 0
    case Resend(r) => r in s.live && s.live[r].io == 0 && s.live[r].write
    case Finish(r) => r in s.live && s.live[r].io == 0 && s.live[r].write
  }

  function Go(s: State, t: Tid, p: Place): State {
    s.(places := s.places[t := p])
  }

  /** nfs_direct_complete: the request is over, inode_dio_end. */
  function Over(s: State, r: Rid): State {
    s.(live := s.live - {r}, dio := if s.dio > 0 then s.dio - 1 else 0)
  }

  /** The place after the optimistic test; a shared hold is kept or given up. */
  function Tested(p: Place, direct: bool): Place {
    if p == ReadTry then (if direct then ReadSlow else ReadIn) else if direct then DirectIn else DirectSlow
  }

  function DoBlock(s: State, t: Tid, p: Place): State {
    if p == DirectHeld then Go(s, t, DirectIn).(direct := true)          // downgrade_write
    else if s.direct then Go(s, t, if p == ReadHeld then ReadWait else WriteWait).(direct := false)
    else Go(s, t, if p == ReadHeld then ReadIn else WriteIn)
  }

  function DoComplete(s: State, r: Rid): State
    requires r in s.live && s.live[r].io > 0
  {
    if s.live[r].io == 1 && !s.live[r].write then Over(s, r)
    else s.(live := s.live[r := s.live[r].(io := s.live[r].io - 1)])
  }

  ghost function Step(s: State, op: Op): State
    requires Enabled(s, op)
  {
    match op
    case StartRead(t) => Go(s, t, ReadTry)
    case StartWrite(t) => Go(s, t, WriteHeld)
    case StartDirect(t) => Go(s, t, DirectTry)
    case Test(t) => Go(s, t, Tested(s.places[t], s.direct))
    case DownWrite(t) => Go(s, t, if s.places[t] == ReadSlow then ReadHeld else DirectHeld)
    case Block(t) => DoBlock(s, t, s.places[t])
    case Waited(t) => Go(s, t, if s.places[t] == ReadWait then ReadIn else WriteIn)
    case End(t) => Go(s, t, Out)
    case Submit(t, r, write) => s.(live := s.live[r := Request(1, write)], dio := s.dio + 1)
    case Send(r) => s.(live := s.live[r := s.live[r].(io := s.live[r].io + 1)])
    case Complete(r) => DoComplete(s, r)
    case Resend(r) => s.(live := s.live[r := s.live[r].(io := 1)])
    case Finish(r) => Over(s, r)
  }

  // ------------------------------------------------------------ invariants

  /** One exclusive holder, or any number of shared ones. */
  ghost predicate Semaphore(s: State) {
    forall t, u :: t in s.places && u in s.places && Owns(s.places[t]) && (Owns(s.places[u]) || Shares(s.places[u])) ==>
      t == u
  }

  ghost predicate Waiting(s: State) {
    exists t :: t in s.places && (s.places[t] == ReadWait || s.places[t] == WriteWait)
  }

  /** i_dio_count counts the live requests; there are none while the flag is clear, but for those someone waits for. */
  ghost predicate Flag(s: State) {
    && s.dio == |s.live|
    && (forall t :: t in s.places && s.places[t] == DirectIn ==> s.direct)
    && (forall t :: t in s.places && s.places[t] in {ReadIn, ReadWait, WriteWait, WriteIn} ==> !s.direct)
    && (!s.direct ==> s.live == map[] || Waiting(s))
  }

  ghost predicate Inv(s: State) {
    Semaphore(s) && Flag(s)
  }

  lemma SemaphoreKept(s: State, op: Op)
    requires Semaphore(s) && Enabled(s, op)
    ensures Semaphore(Step(s, op))
  {
  }

  lemma RequestsKept(s: State, op: Op)
    requires Inv(s) && Enabled(s, op) && (op.Submit? || op.Send? || op.Complete? || op.Resend? || op.Finish?)
    ensures Flag(Step(s, op))
  {
    var s' := Step(s, op);
    if op.Submit? {
      assert s'.live.Keys == s.live.Keys + {op.r};
    } else {
      assert s'.live.Keys == s.live.Keys || s'.live.Keys == s.live.Keys - {op.r};
    }
    assert |s.live| == |s.live.Keys| && |s'.live| == |s'.live.Keys|;
    if t :| t in s.places && (s.places[t] == ReadWait || s.places[t] == WriteWait) {
      assert Waiting(s');
    } else {
      assert s.direct || s.live == map[];
    }
  }

  lemma ThreadsKept(s: State, op: Op)
    requires Inv(s) && Enabled(s, op) && !(op.Submit? || op.Send? || op.Complete? || op.Resend? || op.Finish?)
    ensures Flag(Step(s, op))
  {
    var s' := Step(s, op);
    if w :| w in s.places && (s.places[w] == ReadWait || s.places[w] == WriteWait) {
      assert Owns(s.places[w]);
      assert op == Waited(w);          // nobody else gets past the semaphore
      assert |s.live| == 0 && s.live == map[];
    } else if op.Block? && s.direct && s.places[op.t] != DirectHeld {
      assert s'.places[op.t] == ReadWait || s'.places[op.t] == WriteWait;
    }
  }

  lemma StepKeepsInv(s: State, op: Op)
    requires Inv(s) && Enabled(s, op)
    ensures Inv(Step(s, op))
  {
    SemaphoreKept(s, op);
    if op.Submit? || op.Send? || op.Complete? || op.Resend? || op.Finish? {
      RequestsKept(s, op);
    } else {
      ThreadsKept(s, op);
    }
  }

  /** Any interleaving; steps that cannot be taken are passed over. */
  ghost function Run(s: State, ops: seq<Op>): (s': State)
    requires Inv(s)
    ensures Inv(s')
    decreases |ops|
  {
    if ops == [] then s
    else if Enabled(s, ops[0]) then StepKeepsInv(s, ops[0]); Run(Step(s, ops[0]), ops[1..])
    else Run(s, ops[1..])
  }

  const START := State(map[], false, map[], 0)

  lemma StartHolds()
    ensures Inv(START) && !START.direct && START.places == map[] && START.live == map[]
  {
  }

  /**
  While a thread is inside a buffered section, no thread is inside a direct one, and no direct request is in flight,
  not even one whose submitter has long left; and a buffered writer is alone.
  */
  lemma BufferedExcludesDirect(s: State, ops: seq<Op>, t: Tid)
    requires Inv(s) && t in Run(s, ops).places && (Run(s, ops).places[t] == ReadIn || Run(s, ops).places[t] == WriteIn)
    ensures var s' := Run(s, ops);
            && s'.live == map[] && s'.dio == 0
            && (forall u :: u in s'.places ==> s'.places[u] != DirectIn)
            && (s'.places[t] == WriteIn ==>
                  forall u :: u in s'.places && u != t ==> !(s'.places[u] in {ReadIn, WriteIn, DirectIn}))
  {
    var s' := Run(s, ops);
    if u :| u in s'.places && (s'.places[u] == ReadWait || s'.places[u] == WriteWait) {
      assert Owns(s'.places[u]);
    }
  }

  // ------------------------------------------------------------ who gets in

  /** Only thread t has moved, and no request has come or gone. */
  predicate Moved(s: State, s': State, t: Tid, p: Place) {
    s'.places == s.places[t := p] && s'.live == s.live && s'.dio == s.dio
  }

  /** A thread may start, and nobody has the semaphore. */
  ghost predicate Free(s: State, t: Tid) {
    (t in s.places ==> s.places[t] == Out) && NoHolder(s)
  }

  /** The first test lets in exactly the threads of the kind that the flag is for; the flag stays. */
  lemma TestOutcome(s: State, t: Tid)
    requires Enabled(s, Test(t))
    ensures var s' := Step(s, Test(t));
            && Moved(s, s', t, s'.places[t]) && s'.direct == s.direct
            && (s'.places[t] == ReadIn <==> s.places[t] == ReadTry && !s.direct)
            && (s'.places[t] == DirectIn <==> s.places[t] == DirectTry && s.direct)
            && (s'.places[t] == ReadSlow <==> s.places[t] == ReadTry && s.direct)
            && (s'.places[t] == DirectSlow <==> s.places[t] == DirectTry && !s.direct)
  {
  }

  /** A buffered reader gets in at once, or after the slow path, when no direct request is left. */
  lemma ReaderGetsIn(s: State, t: Tid)
    requires Free(s, t)
    ensures Enabled(s, StartRead(t)) && Enabled(Step(s, StartRead(t)), Test(t))
    ensures var s1 := Step(Step(s, StartRead(t)), Test(t));
            if !s.direct then Moved(s, s1, t, ReadIn) && !s1.direct
            else
              Enabled(s1, DownWrite(t)) && Enabled(Step(s1, DownWrite(t)), Block(t)) &&
              var s2 := Step(Step(s1, DownWrite(t)), Block(t));
              && Moved(s, s2, t, ReadWait) && !s2.direct && (s.dio == 0 <==> Enabled(s2, Waited(t)))
              && (s.dio == 0 ==> Moved(s, Step(s2, Waited(t)), t, ReadIn) && !Step(s2, Waited(t)).direct)
  {
  }

  /** A buffered writer gets in when no direct request is left. */
  lemma WriterGetsIn(s: State, t: Tid)
    requires Free(s, t)
    ensures Enabled(s, StartWrite(t)) && Enabled(Step(s, StartWrite(t)), Block(t))
    ensures var s1 := Step(Step(s, StartWrite(t)), Block(t));
            if !s.direct then Moved(s, s1, t, WriteIn) && !s1.direct
            else
              && Moved(s, s1, t, WriteWait) && !s1.direct && (s.dio == 0 <==> Enabled(s1, Waited(t)))
              && (s.dio == 0 ==> Moved(s, Step(s1, Waited(t)), t, WriteIn) && !Step(s1, Waited(t)).direct)
  {
  }

  /** Direct I/O gets in at once, or after the slow path, which sets the flag. */
  lemma DirectGetsIn(s: State, t: Tid)
    requires Free(s, t)
    ensures Enabled(s, StartDirect(t)) && Enabled(Step(s, StartDirect(t)), Test(t))
    ensures var s1 := Step(Step(s, StartDirect(t)), Test(t));
            if s.direct then Moved(s, s1, t, DirectIn) && s1.direct
            else
              Enabled(s1, DownWrite(t)) && Enabled(Step(s1, DownWrite(t)), Block(t)) &&
              var s2 := Step(Step(s1, DownWrite(t)), Block(t));
              Moved(s, s2, t, DirectIn) && s2.direct
  {
  }

  /** Whoever leaves is out, and has left nothing behind. */
  lemma EndOutcome(s: State, t: Tid)
    requires Enabled(s, End(t))
    ensures Moved(s, Step(s, End(t)), t, Out) && Step(s, End(t)).direct == s.direct
  {
  }

  /** A request is counted from its submission to the end of its last I/O, and a write until it is finished. */
  lemma RequestOutcome(s: State, r: Rid, op: Op)
    requires Enabled(s, op) && s.dio == |s.live|
    requires op == Send(r) || op == Complete(r) || op == Resend(r) || op == Finish(r)
    ensures var s', x := Step(s, op), s.live[r];
            && s'.places == s.places && s'.direct == s.direct
            && (r !in s'.live <==> op == Finish(r) || (op == Complete(r) && x.io == 1 && !x.write))
            && s'.dio == s.dio - (if r in s'.live then 0 else 1)
            && (r in s'.live ==>
                  && s'.live == s.live[r := s'.live[r]] && s'.live[r].write == x.write
                  && s'.live[r].io == (if op == Complete(r) then x.io - 1 else x.io + 1))
            && (r !in s'.live ==> s'.live == s.live - {r})
  {
    assert r in s.live.Keys && |s.live| == |s.live.Keys|;
  }

  lemma SubmitOutcome(s: State, t: Tid, r: Rid, write: bool)
    requires Enabled(s, Submit(t, r, write))
    ensures var s' := Step(s, Submit(t, r, write));
            && s' == s.(live := s'.live, dio := s.dio + 1) && s'.live == s.live[r := Request(1, write)]
  {
  }
}
