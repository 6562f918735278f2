/**
Lifetime and outcome of the NLM server's blocks (bundle/fs/lockd/svclock.c): one step is what a thread
does between two points where another can get in.  Taking a block off the queue is two steps, because
the test that it is on the queue is made without the queue's lock.
*/
module BlockLifetime {
  import opened Common

  type BlockId = nat
  type FileId = nat

  /**
  count is b_count; listed: on nlm_blocked; inflight: GRANTED_MSG calls under way; holders: references of running
  threads; removers: holders that have seen it listed and will take it off; surplus: removals that found it gone.
  */
  datatype Block = Block(
    file: FileId, count: nat, listed: bool, inflight: nat, holders: nat, removers: nat, surplus: nat,
    queued: bool, gotCallback: bool, timedOut: bool, granted: bool)

  /** f_count of each file, the references on it that are not a block's, and those that nobody will give back. */
  datatype State = State(
    blocks: map<BlockId, Block>, used: set<BlockId>,
    fcount: map<FileId, nat>, refs: map<FileId, nat>, leaks: map<FileId, nat>)

  /** What is done to one block. */
  datatype Act =
    | Find                          // lookups that return the block with a reference
    | Insert                        // nlmsvc_insert_block by a holder
    | Move                          // re-insertion of a listed block, under the queue's lock
    | SeeListed | TakeOff           // nlmsvc_remove_block: the test, then the removal
    | Put                           // nlmsvc_release_block by a holder
    | Send | CallEnds               // a holder's reference goes to the call, and is dropped by it
    | Defer                         // nlmsvc_defer_lock_rqst
    | Callback(ok: bool)            // nlmsvc_grant_deferred
    | Expire                        // retry_deferred_block
    | Grant                         // nlmsvc_grant_blocked got the lock

  datatype Op =
    | OpenFile(f: FileId) | CloseFile(f: FileId)         // nlm_lookup_file, nlm_release_file
    | FailedOpen(f: FileId)                              // nlm_lookup_file of a known file whose open fails
    | Create(b: BlockId, f: FileId)                      // nlmsvc_create_block
    | Do(b: BlockId, act: Act)

  // ------------------------------------------------------------ one block

  predicate Allowed(x: Block, a: Act) {
    match a
    case Find => true
    case Insert => x.holders > 0
    case Move => x.listed
    case SeeListed => x.listed && x.holders > x.removers
    case TakeOff => x.removers > 0
    case Put => x.holders > x.removers
    case Send => x.holders > x.removers
    case CallEnds => x.inflight > 0
    case Defer => !x.queued && x.holders > 0
    case Callback(_) => x.listed
    case Expire => x.listed && x.queued
    case Grant => !x.queued && x.holders > 0
  }

  function Listed(x: Block): Block {
    x.(listed := true, count := if x.listed then x.count else x.count + 1)
  }

  /** nlmsvc_grant_deferred and nlmsvc_update_deferred_block. */
  function Called(x: Block, ok: bool): Block {
    if x.queued && x.timedOut then x
    else x.(gotCallback := x.gotCallback || x.queued,
            granted := x.granted || ok,
            timedOut := x.timedOut || (x.queued && !ok))
  }

  /** The block after the act, but for a reference that the act gives up. */
  function After(x: Block, a: Act): Block
    requires Allowed(x, a)
  {
    match a
    case Find => x.(count := x.count + 1, holders := x.holders + 1)
    case Insert => Listed(x)
    case Move => x
    case SeeListed => x.(removers := x.removers + 1)
    case TakeOff =>
      x.(listed := false, removers := x.removers - 1, surplus := if x.listed then x.surplus else x.surplus + 1)
    case Put => x.(holders := x.holders - 1)
    case Send => x.(holders := x.holders - 1, inflight := x.inflight + 1)
    case CallEnds => x.(inflight := x.inflight - 1)
    case Defer => Listed(x.(queued := true))
    case Callback(ok) => Called(x, ok)
    case Expire => x.(timedOut := x.timedOut || !x.gotCallback)
    case Grant => x.(granted := true)
  }

  /** Acts that end with kref_put. */
  predicate Releases(a: Act) {
    a.TakeOff? || a.Put? || a.CallEnds?
  }

  /** The last reference is given up. */
  predicate Frees(x: Block, a: Act) {
    Releases(a) && x.count <= 1
  }

  function Became(x: Block, a: Act): Block
    requires Allowed(x, a)
  {
    After(x, a).(count := if Releases(a) && x.count > 0 then x.count - 1 else After(x, a).count)
  }

  // ------------------------------------------------------------ all blocks

  predicate Enabled(s: State, op: Op) {
    match op
    case OpenFile(f) => true
    case FailedOpen(f) => f in s.fcount && f in s.leaks
    case CloseFile(f) => f in s.fcount && f in s.refs && s.fcount[f] > 0 && s.refs[f] > 0
    case Create(b, f) => b !in s.used && f in s.fcount && f in s.refs && s.refs[f] > 0
    case Do(b, a) => b in s.blocks && Allowed(s.blocks[b], a)
  }

  const NEW_BLOCK := Block(0, 1, false, 0, 1, 0, 0, false, false, false, false)

  function DoOpen(s: State, f: FileId): State {
    s.(fcount := s.fcount[f := (if f in s.fcount then s.fcount[f] else 0) + 1],
       refs := s.refs[f := (if f in s.refs then s.refs[f] else 0) + 1],
       leaks := s.leaks[f := if f in s.leaks then s.leaks[f] else 0])
  }

  function DoCreate(s: State, b: BlockId, f: FileId): State
    requires f in s.fcount
  {
    s.(blocks := s.blocks[b := NEW_BLOCK.(file := f)], used := s.used + {b}, fcount := s.fcount[f := s.fcount[f] + 1])
  }

  /** The last reference frees the block, and with it one reference on its file. */
  function DoAct(s: State, b: BlockId, a: Act): State
    requires b in s.blocks && Allowed(s.blocks[b], a)
  {
    var x := s.blocks[b];
    s.(blocks := if Frees(x, a) then s.blocks - {b} else s.blocks[b := Became(x, a)],
       fcount := if Frees(x, a) && x.file in s.fcount && s.fcount[x.file] > 0
                 then s.fcount[x.file := s.fcount[x.file] - 1] else s.fcount)
  }

  function Step(s: State, op: Op): State
    requires Enabled(s, op)
  {
    match op
    case OpenFile(f) => DoOpen(s, f)
    case FailedOpen(f) => s.(fcount := s.fcount[f := s.fcount[f] + 1], leaks := s.leaks[f := s.leaks[f] + 1])
    case CloseFile(f) => s.(fcount := s.fcount[f := s.fcount[f] - 1], refs := s.refs[f := s.refs[f] - 1])
    case Create(b, f) => DoCreate(s, b, f)
    case Do(b, a) => DoAct(s, b, a)
  }

  // ------------------------------------------------------------ reference counts

  /**
  b_count is the queue's reference, the calls' and the threads', short of one for every removal that came too
  late.
  */
  ghost predicate CountedBlock(x: Block) {
    x.count > 0 && x.count + x.surplus == Bit(x.listed) + x.inflight + x.holders && x.removers <= x.holders
  }

  /** The deferral flags are only ever set on deferred blocks. */
  ghost predicate FlaggedRight(x: Block) {
    !x.queued ==> !x.gotCallback && !x.timedOut
  }

  ghost predicate Good(x: Block) {
    CountedBlock(x) && FlaggedRight(x)
  }

  lemma ActKeepsGood(x: Block, a: Act)
    requires Good(x) && Allowed(x, a) && !Frees(x, a)
    ensures Good(Became(x, a)) && Became(x, a).file == x.file
  {
  }

  /** What an act makes of a block, field by field. */
  lemma ActOutcome(x: Block, a: Act)
    requires Allowed(x, a) && x.count > 0
    ensures var y := Became(x, a);
            var lists := (a == Insert || a == Defer) && !x.listed;
            && y.file == x.file
            && y.count == x.count + Bit(a == Find || lists) - Bit(a == TakeOff || a == Put || a == CallEnds)
            && y.holders == x.holders + Bit(a == Find) - Bit(a == Put || a == Send)
            && y.inflight == x.inflight + Bit(a == Send) - Bit(a == CallEnds)
            && y.removers == x.removers + Bit(a == SeeListed) - Bit(a == TakeOff)
            && (y.listed <==> lists || (x.listed && a != TakeOff))
            && y.surplus == x.surplus + Bit(a == TakeOff && !x.listed)
  {
  }

  /** And of its outcome. */
  lemma ActDecides(x: Block, a: Act)
    requires Allowed(x, a)
    ensures var y := Became(x, a);
            var heard := a.Callback? && !(x.queued && x.timedOut);
            && (y.queued <==> x.queued || a == Defer)
            && (y.granted <==> x.granted || a == Grant || (heard && a.ok))
            && (y.gotCallback <==> x.gotCallback || (heard && x.queued))
            && (y.timedOut <==> x.timedOut || (heard && x.queued && !a.ok) || (a == Expire && !x.gotCallback))
  {
  }

  /** The block is gone exactly with its last reference, and then a reference on its file as well. */
  lemma DoOutcome(s: State, b: BlockId, a: Act)
    requires Inv(s) && b in s.blocks && Allowed(s.blocks[b], a)
    ensures var s', x := DoAct(s, b, a), s.blocks[b];
            var freed := x.count == 1 && (a == TakeOff || a == Put || a == CallEnds);
            && (b !in s'.blocks <==> freed) && (b in s'.blocks ==> s'.blocks[b] == Became(x, a))
            && (forall c :: c != b ==>
                  (c in s'.blocks <==> c in s.blocks) && (c in s.blocks ==> s'.blocks[c] == s.blocks[c]))
            && x.file in s.fcount && x.file in s'.fcount && s'.fcount[x.file] == s.fcount[x.file] - Bit(freed)
            && forall f :: f != x.file && f in s.fcount ==> f in s'.fcount && s'.fcount[f] == s.fcount[f]
  {
    assert Good(s.blocks[b]);
    assert FileCount(s, s.blocks[b].file);
    assert b in Of(s, s.blocks[b].file);
  }

  /** A new block is one of its file's, held by its maker, on no list and undecided. */
  lemma CreateOutcome(s: State, b: BlockId, f: FileId)
    requires Enabled(s, Create(b, f))
    ensures var s' := DoCreate(s, b, f);
            && s'.blocks == s.blocks[b := s'.blocks[b]] && b in s'.used
            && s'.blocks[b] == Block(f, 1, false, 0, 1, 0, 0, false, false, false, false)
            && s'.fcount == s.fcount[f := s.fcount[f] + 1] && s'.refs == s.refs && s'.leaks == s.leaks
  {
  }

  ghost predicate AllGood(s: State) {
    forall b :: b in s.blocks ==> Good(s.blocks[b])
  }

  ghost function Of(s: State, f: FileId): set<BlockId> {
    set b | b in s.blocks && s.blocks[b].file == f
  }

  /** Every live block is one unit of its file's f_count, next to the other references and the leaked ones. */
  ghost predicate Files(s: State) {
    && s.blocks.Keys <= s.used
    && (forall b :: b in s.blocks ==> s.blocks[b].file in s.fcount)
    && s.fcount.Keys == s.refs.Keys == s.leaks.Keys
    && (forall f :: f in s.fcount ==> FileCount(s, f))
  }

  ghost predicate FileCount(s: State, f: FileId)
    requires f in s.fcount && f in s.refs && f in s.leaks
  {
    s.fcount[f] == |Of(s, f)| + s.refs[f] + s.leaks[f]
  }

  ghost predicate Inv(s: State) {
    AllGood(s) && Files(s)
  }

  lemma GoodKept(s: State, op: Op)
    requires AllGood(s) && Enabled(s, op)
    ensures AllGood(Step(s, op))
  {
    if op.Do? && !Frees(s.blocks[op.b], op.act) {
      ActKeepsGood(s.blocks[op.b], op.act);
    }
  }

  /** A step that neither makes nor frees a block leaves each file its blocks. */
  lemma SameBlocks(s: State, s': State, f: FileId)
    requires s'.blocks.Keys == s.blocks.Keys && forall b :: b in s.blocks ==> s'.blocks[b].file == s.blocks[b].file
    ensures Of(s', f) == Of(s, f)
  {
  }

  lemma FileOpsKeepFiles(s: State, op: Op)
    requires Files(s) && Enabled(s, op) && (op.OpenFile? || op.CloseFile? || op.FailedOpen?)
    ensures Files(Step(s, op))
  {
    var s' := Step(s, op);
    forall g | g in s'.fcount ensures FileCount(s', g) {
      SameBlocks(s, s', g);
      if g in s.fcount {
        assert FileCount(s, g);
      } else {
        assert Of(s, g) == {};
      }
    }
  }

  lemma CreateKeepsFiles(s: State, b: BlockId, f: FileId)
    requires Files(s) && Enabled(s, Create(b, f))
    ensures Files(DoCreate(s, b, f))
  {
    var s' := DoCreate(s, b, f);
    assert b !in s.blocks;
    forall g | g in s'.fcount ensures FileCount(s', g) {
      assert FileCount(s, g);
      OfCreated(s, s', b, f, g);
    }
  }

  lemma OfCreated(s: State, s': State, b: BlockId, f: FileId, g: FileId)
    requires b !in s.blocks && s'.blocks.Keys == s.blocks.Keys + {b} && s'.blocks[b].file == f
    requires forall c :: c in s.blocks ==> s'.blocks[c] == s.blocks[c]
    ensures |Of(s', g)| == |Of(s, g)| + Bit(g == f)
  {
    assert Of(s', g) == if g == f then Of(s, g) + {b} else Of(s, g);
  }

  lemma OfFreed(s: State, s': State, b: BlockId, g: FileId)
    requires b in s.blocks && s'.blocks == s.blocks - {b}
    ensures |Of(s', g)| == |Of(s, g)| - Bit(g == s.blocks[b].file)
  {
    assert Of(s', g) == if g == s.blocks[b].file then Of(s, g) - {b} else Of(s, g);
    assert b in Of(s, s.blocks[b].file);
  }

  lemma FreeingKeepsFiles(s: State, b: BlockId, a: Act)
    requires Files(s) && Enabled(s, Do(b, a)) && Frees(s.blocks[b], a)
    ensures Files(DoAct(s, b, a))
  {
    var s' := DoAct(s, b, a);
    var f := s.blocks[b].file;
    assert FileCount(s, f) && b in Of(s, f);
    forall g | g in s'.fcount ensures FileCount(s', g) {
      assert FileCount(s, g);
      OfFreed(s, s', b, g);
    }
  }

  lemma ChangeKeepsFiles(s: State, b: BlockId, a: Act)
    requires Files(s) && Enabled(s, Do(b, a)) && !Frees(s.blocks[b], a)
    ensures Files(DoAct(s, b, a))
  {
    var s' := DoAct(s, b, a);
    assert Became(s.blocks[b], a).file == s.blocks[b].file;
    forall g | g in s'.fcount ensures FileCount(s', g) {
      assert FileCount(s, g);
      SameBlocks(s, s', g);
    }
  }

  lemma StepKeepsInv(s: State, op: Op)
    requires Inv(s) && Enabled(s, op)
    ensures Inv(Step(s, op))
  {
    GoodKept(s, op);
    if op.Create? {
      CreateKeepsFiles(s, op.b, op.f);
    } else if !op.Do? {
      FileOpsKeepFiles(s, op);
    } else if Frees(s.blocks[op.b], op.act) {
      FreeingKeepsFiles(s, op.b, op.act);
    } else {
      ChangeKeepsFiles(s, op.b, op.act);
    }
  }

  /** Any interleaving; steps that cannot be taken are passed over. */
  ghost function Run(s: State, ops: seq<Op>): (s': State)
    requires Inv(s)
    ensures Inv(s')
    decreases |ops|
  {
    if ops == [] then s
    else if Enabled(s, ops[0]) then StepKeepsInv(s, ops[0]); Run(Step(s, ops[0]), ops[1..])
    else Run(s, ops[1..])
  }

  const START := State(map[], {}, map[], map[], map[])

  lemma StartHolds()
    ensures Inv(START)
  {
  }

  /** In every run f_count is at least the number of the file's live blocks. */
  lemma FileOutlivesBlocks(s: State, ops: seq<Op>, b: BlockId)
    requires Inv(s) && b in Run(s, ops).blocks
    ensures var s' := Run(s, ops);
            var f := s'.blocks[b].file;
            f in s'.fcount && s'.fcount[f] >= |Of(s', f)| >= 1
  {
    var s' := Run(s, ops);
    assert b in Of(s', s'.blocks[b].file) && FileCount(s', s'.blocks[b].file);
  }

  /**
  f_count is exact if and only if no lookup of the file failed to open it: such a lookup leaves its reference
  behind.
  */
  lemma FileCountExactIff(s: State, f: FileId)
    requires Inv(s) && f in s.fcount
    ensures s.fcount[f] == |Of(s, f)| + s.refs[f] <==> s.leaks[f] == 0
  {
    assert FileCount(s, f);
  }

  lemma FailedOpenLeaks(s: State, f: FileId)
    requires Inv(s) && Enabled(s, FailedOpen(f))
    ensures var s' := Step(s, FailedOpen(f)); Inv(s') && s'.fcount[f] > |Of(s', f)| + s'.refs[f]
  {
    StepKeepsInv(s, FailedOpen(f));
    assert FileCount(Step(s, FailedOpen(f)), f);
  }

  /** What still refers to a block after an act that gave up one of its references. */
  ghost function Left(x: Block, a: Act): nat
    requires Allowed(x, a)
  {
    Bit(After(x, a).listed) + After(x, a).inflight + After(x, a).holders
  }

  /** A block is freed with nothing left that refers to it, exactly when no removal of it came too late. */
  lemma FreedCleanIff(s: State, op: Op, b: BlockId)
    requires Inv(s) && Enabled(s, op) && b in s.blocks && b !in Step(s, op).blocks
    ensures op.Do? && op.b == b && Frees(s.blocks[b], op.act)
    ensures Left(s.blocks[b], op.act) == 0 <==> s.blocks[b].surplus == 0 && (op.act == TakeOff ==> s.blocks[b].listed)
  {
    assert Good(s.blocks[b]);
    FreedBlockCleanIff(s.blocks[b], op.act);
  }

  lemma FreedBlockCleanIff(x: Block, a: Act)
    requires Good(x) && Allowed(x, a) && Frees(x, a)
    ensures Left(x, a) == 0 <==> x.surplus == 0 && (a == TakeOff ==> x.listed)
  {
  }

  // ------------------------------------------------------------ overlapping removals

  /** No removal came too late, and at most one is under way. */
  ghost predicate ExactBlock(x: Block) {
    x.surplus == 0 && x.removers <= 1 && (x.removers == 1 ==> x.listed)
  }

  ghost predicate Exact(s: State) {
    forall b :: b in s.blocks ==> ExactBlock(s.blocks[b])
  }

  /** A thread starts to remove a block that another is removing. */
  predicate Overlaps(s: State, op: Op) {
    op.Do? && op.act.SeeListed? && op.b in s.blocks && s.blocks[op.b].removers > 0
  }

  ghost predicate Calm(s: State, ops: seq<Op>)
    requires Inv(s)
    decreases |ops|
  {
    if ops == [] then true
    else if Enabled(s, ops[0]) then
      StepKeepsInv(s, ops[0]);
      !Overlaps(s, ops[0]) && Calm(Step(s, ops[0]), ops[1..])
    else Calm(s, ops[1..])
  }

  lemma ExactAct(x: Block, a: Act)
    requires ExactBlock(x) && Allowed(x, a) && !(a.SeeListed? && x.removers > 0)
    ensures ExactBlock(Became(x, a))
  {
  }

  lemma ExactStep(s: State, op: Op)
    requires Exact(s) && Enabled(s, op) && !Overlaps(s, op)
    ensures Exact(Step(s, op))
  {
    if op.Do? {
      ExactAct(s.blocks[op.b], op.act);
    }
  }

  /** Without overlapping removals b_count is exact in every state of every run. */
  lemma {:induction false} CalmRunIsExact(s: State, ops: seq<Op>)
    requires Inv(s) && Exact(s) && Calm(s, ops)
    ensures Exact(Run(s, ops))
    ensures forall b :: b in Run(s, ops).blocks ==>
              var x := Run(s, ops).blocks[b]; x.count == Bit(x.listed) + x.inflight + x.holders
    decreases |ops|
  {
    if ops == [] {
      assert forall b :: b in s.blocks ==> Good(s.blocks[b]);
    } else if Enabled(s, ops[0]) {
      StepKeepsInv(s, ops[0]);
      ExactStep(s, ops[0]);
      CalmRunIsExact(Step(s, ops[0]), ops[1..]);
    } else {
      CalmRunIsExact(s, ops[1..]);
    }
  }

  /** The count of a block becomes wrong by one kind of step alone: its removal when it is no longer listed. */
  lemma InexactStepIff(s: State, op: Op, b: BlockId)
    requires Inv(s) && Enabled(s, op) && b in s.blocks && s.blocks[b].surplus == 0 && b in Step(s, op).blocks
    ensures var x := Step(s, op).blocks[b];
            x.count != Bit(x.listed) + x.inflight + x.holders <==> op == Do(b, TakeOff) && !s.blocks[b].listed
  {
    assert Good(s.blocks[b]);
    if op.Do? && op.b == b {
      InexactActIff(s.blocks[b], op.act);
    }
  }

  lemma InexactActIff(x: Block, a: Act)
    requires Good(x) && Allowed(x, a) && x.surplus == 0 && !Frees(x, a)
    ensures var y := Became(x, a); y.count != Bit(y.listed) + y.inflight + y.holders <==> a == TakeOff && !x.listed
  {
    ActKeepsGood(x, a);
    assert Became(x, a).surplus > 0 <==> a == TakeOff && !x.listed;
  }

  /** Two removals that overlap, on one block. */
  lemma BothRemovalsDrop(x: Block)
    requires Good(x) && x.listed && x.holders >= 2 && x.removers == 0 && x.surplus == 0
    ensures Allowed(x, SeeListed)
    ensures var x1 := Became(x, SeeListed);
            Allowed(x1, SeeListed) &&
            var x2 := Became(x1, SeeListed);
            Allowed(x2, TakeOff) && !Frees(x2, TakeOff) &&
            var x3 := Became(x2, TakeOff);
            Allowed(x3, TakeOff) && !Frees(x3, TakeOff) &&
            var x4 := Became(x3, TakeOff);
            x4.count == x4.inflight + x4.holders - 1 && !x4.listed
  {
  }

  lemma ActHere(s: State, b: BlockId, a: Act)
    requires b in s.blocks && Allowed(s.blocks[b], a) && !Frees(s.blocks[b], a)
    ensures b in DoAct(s, b, a).blocks && DoAct(s, b, a).blocks[b] == Became(s.blocks[b], a)
  {
  }

  /**
  With overlap the count is wrong: two holders that both saw the block listed drop the queue's one reference
  twice.
  */
  lemma OverlappingRemovalsDropTwice(s: State, b: BlockId)
    requires Inv(s) && b in s.blocks && s.blocks[b].listed && s.blocks[b].holders >= 2 && s.blocks[b].removers == 0
    requires s.blocks[b].surplus == 0
    ensures Enabled(s, Do(b, SeeListed))
    ensures var s1 := Step(s, Do(b, SeeListed));
            Enabled(s1, Do(b, SeeListed)) &&
            var s2 := Step(s1, Do(b, SeeListed));
            Enabled(s2, Do(b, TakeOff)) &&
            var s3 := Step(s2, Do(b, TakeOff));
            Enabled(s3, Do(b, TakeOff)) &&
            var s4 := Step(s3, Do(b, TakeOff));
            b in s4.blocks && s4.blocks[b].count == s4.blocks[b].inflight + s4.blocks[b].holders - 1
  {
    BothRemovalsDrop(s.blocks[b]);
    ActHere(s, b, SeeListed);
    var s1 := DoAct(s, b, SeeListed);
    ActHere(s1, b, SeeListed);
    var s2 := DoAct(s1, b, SeeListed);
    ActHere(s2, b, TakeOff);
    ActHere(DoAct(s2, b, TakeOff), b, TakeOff);
  }

  // ------------------------------------------------------------ the outcome of a deferred request

  /** Granted and timed out exclude each other, and what the filesystem answered is recorded. */
  ghost predicate Decided(x: Block) {
    && x.queued && !(x.granted && x.timedOut)
    && (x.granted ==> x.gotCallback) && (x.gotCallback ==> x.granted || x.timedOut)
  }

  /** Neither outcome is undone. */
  ghost predicate Stable(x: Block, x': Block) {
    Decided(x') && (x.granted ==> x'.granted) && (x.timedOut ==> x'.timedOut)
  }

  lemma DecidedAct(x: Block, a: Act)
    requires Decided(x) && Allowed(x, a) && !(a.Callback? && x.gotCallback)
    ensures Stable(x, Became(x, a))
  {
  }

  /** The filesystem answers a deferred request that it answered already. */
  predicate SecondAnswer(s: State, op: Op, b: BlockId) {
    op.Do? && op.act.Callback? && op.b == b && b in s.blocks && s.blocks[b].gotCallback
  }

  lemma DecidedStep(s: State, op: Op, b: BlockId)
    requires Enabled(s, op) && b in s.blocks && Decided(s.blocks[b]) && !SecondAnswer(s, op, b)
    requires b in Step(s, op).blocks
    requires s.blocks.Keys <= s.used
    ensures Stable(s.blocks[b], Step(s, op).blocks[b])
  {
    if op.Do? && op.b == b {
      DecidedAct(s.blocks[b], op.act);
    }
  }

  ghost predicate AnsweredOnce(s: State, ops: seq<Op>, b: BlockId)
    requires Inv(s)
    decreases |ops|
  {
    if ops == [] then true
    else if Enabled(s, ops[0]) then
      StepKeepsInv(s, ops[0]);
      !SecondAnswer(s, ops[0], b) && AnsweredOnce(Step(s, ops[0]), ops[1..], b)
    else AnsweredOnce(s, ops[1..], b)
  }

  lemma {:induction false} GoneForGood(s: State, ops: seq<Op>, b: BlockId)
    requires Inv(s) && b in s.used && b !in s.blocks
    ensures b !in Run(s, ops).blocks
    decreases |ops|
  {
    if ops != [] {
      if Enabled(s, ops[0]) {
        StepKeepsInv(s, ops[0]);
        GoneForGood(Step(s, ops[0]), ops[1..], b);
      } else {
        GoneForGood(s, ops[1..], b);
      }
    }
  }

  /**
  With at most one answer from the filesystem, over a whole run neither outcome is undone nor joined by the
  other.
  */
  lemma {:induction false} OutcomeIsFinal(s: State, ops: seq<Op>, b: BlockId)
    requires Inv(s) && b in s.blocks && Decided(s.blocks[b]) && AnsweredOnce(s, ops, b)
    ensures b in Run(s, ops).blocks ==> Stable(s.blocks[b], Run(s, ops).blocks[b])
    decreases |ops|
  {
    if ops != [] {
      if Enabled(s, ops[0]) {
        StepKeepsInv(s, ops[0]);
        if b in Step(s, ops[0]).blocks {
          DecidedStep(s, ops[0], b);
          OutcomeIsFinal(Step(s, ops[0]), ops[1..], b);
        } else {
          GoneForGood(Step(s, ops[0]), ops[1..], b);
        }
      } else {
        OutcomeIsFinal(s, ops[1..], b);
      }
    }
  }

  /** A fresh deferral is undecided, unless the block was granted before it was deferred. */
  lemma DeferralStartsClean(s: State, b: BlockId)
    requires Inv(s) && Enabled(s, Do(b, Defer))
    ensures b in Step(s, Do(b, Defer)).blocks
    ensures Decided(Step(s, Do(b, Defer)).blocks[b]) <==> !s.blocks[b].granted
  {
    assert Good(s.blocks[b]);
  }

  /** A second answer breaks the exclusion exactly when it refuses what the first one granted. */
  lemma SecondAnswerBreaksIff(s: State, b: BlockId, ok: bool)
    requires Inv(s) && Enabled(s, Do(b, Callback(ok))) && Decided(s.blocks[b]) && s.blocks[b].gotCallback
    ensures b in Step(s, Do(b, Callback(ok))).blocks
    ensures Decided(Step(s, Do(b, Callback(ok))).blocks[b]) <==> !(s.blocks[b].granted && !ok)
  {
  }

  // ------------------------------------------------------------ the life of a block

  /** All the acts can be done to a block in turn, and make y of x without freeing it. */
  ghost predicate Lives(x: Block, acts: seq<Act>, y: Block)
    decreases |acts|
  {
    if acts == [] then y == x
    else Allowed(x, acts[0]) && !Frees(x, acts[0]) && Lives(Became(x, acts[0]), acts[1..], y)
  }

  lemma LivesOne(x: Block, a: Act)
    requires Allowed(x, a) && !Frees(x, a)
    ensures Lives(x, [a], Became(x, a))
  {
    assert [a][1..] == [];
  }

  lemma {:induction false} LivesOn(x: Block, a: seq<Act>, y: Block, b: seq<Act>, z: Block)
    requires Lives(x, a, y) && Lives(y, b, z)
    ensures Lives(x, a + b, z)
    decreases |a|
  {
    if a == [] {
      assert a + b == b;
    } else {
      assert (a + b)[1..] == a[1..] + b;
      LivesOn(Became(x, a[0]), a[1..], y, b, z);
    }
  }

  /** A block made for a request that has to wait is queued, and then held by the queue alone. */
  lemma BlockWaits(f: FileId)
    ensures var y := NEW_BLOCK.(file := f, listed := true, holders := 0);
            Lives(NEW_BLOCK.(file := f), [Insert] + [Put], y)
  {
    var x := NEW_BLOCK.(file := f);
    LivesOne(x, Insert);
    LivesOne(Became(x, Insert), Put);
    LivesOn(x, [Insert], Became(x, Insert), [Put], Became(Became(x, Insert), Put));
  }

  /** Found when its lock is free, it is granted, and the call to its client holds it as well as the queue. */
  lemma BlockIsGranted(x: Block)
    requires x.count == 1 && x.listed && x.holders == 0 && x.inflight == 0 && x.removers == 0 && !x.queued
    ensures Lives(x, [Find] + [Grant] + [Send], x.(count := 2, inflight := 1, granted := true))
  {
    var x1 := Became(x, Find);
    var x2 := Became(x1, Grant);
    LivesOne(x, Find);
    LivesOne(x1, Grant);
    LivesOn(x, [Find], x1, [Grant], x2);
    LivesOne(x2, Send);
    LivesOn(x, [Find] + [Grant], x2, [Send], Became(x2, Send));
  }

  /** The client's answer finds it, takes it off and lets it go with the last reference. */
  lemma BlockIsAnswered(x: Block)
    requires x.count == 2 && x.listed && x.holders == 0 && x.inflight == 1 && x.removers == 0
    ensures var y := x.(count := 1, listed := false, inflight := 0, holders := 1);
            Lives(x, [CallEnds] + [Find] + ([SeeListed] + [TakeOff]), y) && Allowed(y, Put) && Frees(y, Put)
  {
    var x1 := Became(x, CallEnds);
    var x2 := Became(x1, Find);
    var x3 := Became(x2, SeeListed);
    LivesOne(x, CallEnds);
    LivesOne(x1, Find);
    LivesOn(x, [CallEnds], x1, [Find], x2);
    LivesOne(x2, SeeListed);
    LivesOne(x3, TakeOff);
    LivesOn(x2, [SeeListed], x3, [TakeOff], Became(x3, TakeOff));
    LivesOn(x, [CallEnds] + [Find], x2, [SeeListed] + [TakeOff], Became(x3, TakeOff));
  }

  /** A deferred request is answered by the filesystem, or expires, whichever is first. */
  lemma DeferralIsDecided(x: Block, ok: bool)
    requires x.count == 1 && !x.listed && x.holders == 1 && x.removers == 0
    requires !x.queued && !x.granted && FlaggedRight(x)
    ensures var y := x.(count := 2, listed := true, queued := true);
            && Lives(x, [Defer], y)
            && Lives(y, [Callback(ok)] + [Expire], y.(gotCallback := true, granted := ok, timedOut := !ok))
            && Lives(y, [Expire] + [Callback(ok)], y.(timedOut := true))
  {
    var y := Became(x, Defer);
    LivesOne(x, Defer);
    LivesOne(y, Callback(ok));
    LivesOne(Became(y, Callback(ok)), Expire);
    LivesOn(y, [Callback(ok)], Became(y, Callback(ok)), [Expire], Became(Became(y, Callback(ok)), Expire));
    LivesOne(y, Expire);
    LivesOne(Became(y, Expire), Callback(ok));
    LivesOn(y, [Expire], Became(y, Expire), [Callback(ok)], Became(Became(y, Expire), Callback(ok)));
  }

  /** A block can be made for any file that can be opened, whatever the state. */
  lemma BlockCanBeMade(s: State, b: BlockId, f: FileId)
    requires b !in s.used
    ensures Enabled(s, OpenFile(f)) && Enabled(Step(s, OpenFile(f)), Create(b, f))
    ensures var s' := Step(Step(s, OpenFile(f)), Create(b, f)); b in s'.blocks && s'.blocks[b] == NEW_BLOCK.(file := f)
  {
  }
}
