/** What the delegation machine guarantees over whole runs. */
module DelegationRuns {
  import opened Common
  import opened Delegation
  import opened DelegationInvariant

  /** A client with the given superblocks and dentries, before the first grant. */
  function Fresh(servers: set<ServerId>, alias: map<DentryId, InodeId>): State {
    State(map[], {}, map[], (map v | v in servers :: []), 0, 0, multiset{}, multiset{}, {},
          false, false, {}, map[], map[], alias, {}, multiset{})
  }

  lemma FreshHolds(servers: set<ServerId>, alias: map<DentryId, InodeId>)
    ensures Inv(Fresh(servers, alias))
  {
    var s := Fresh(servers, alias);
    assert Counted(s) == {};
  }

  /** The state after any sequence of steps; steps that no thread can take are passed over. */
  ghost function Run(s: State, ops: seq<Op>): (r: State)
    requires Inv(s)
    ensures Inv(r)
    decreases |ops|
  {
    if ops == [] then s
    else if Enabled(s, ops[0]) then
      StepKeepsInv(s, ops[0]);
      Run(Step(s, ops[0]), ops[1..])
    else Run(s, ops[1..])
  }

  /** With no return in progress and nothing held, all is attached and counted. */
  ghost predicate AtRest(s: State) {
    s.held == {} && s.returning == multiset{}
  }

  /** Attached to its inode, on its server's list, and with one reference. */
  ghost predicate Filed(s: State, d: DelegId) {
    && d in s.delegs && s.delegs[d].refcount == 1 && s.delegs[d].inode.Some?
    && s.delegs[d].inode.value in s.inodes && s.inodes[s.delegs[d].inode.value] == d
    && s.delegs[d].server in s.lists && d in s.lists[s.delegs[d].server]
  }

  lemma FiledAtRest(s: State, d: DelegId)
    requires Inv(s) && AtRest(s) && d in s.delegs
    ensures Filed(s, d)
  {
    About(s, d);
    assert Attached(s, d);
    assert d in s.lists[s.delegs[d].server] <==> Attached(s, d) && s.delegs[d].server == s.delegs[d].server;
  }

  /**
  The books in every reachable state at rest: each delegation still allocated is filed,
  and the global counter is right up to the discarded duplicates.
   */
  lemma BooksAtRest(servers: set<ServerId>, alias: map<DentryId, InodeId>, ops: seq<Op>)
    ensures Inv(Fresh(servers, alias))
    ensures var s := Run(Fresh(servers, alias), ops);
            AtRest(s) ==>
              && (forall d :: d in s.delegs ==> Filed(s, d))
              && s.active + s.discarded == |set d | d in s.delegs && !s.delegs[d].flags.revoked|
  {
    FreshHolds(servers, alias);
    var s := Run(Fresh(servers, alias), ops);
    if AtRest(s) {
      forall d | d in s.delegs ensures Filed(s, d) {
        FiledAtRest(s, d);
      }
      CountedAtRest(s);
    }
  }

  lemma CountedAtRest(s: State)
    requires Counter(s) && forall d :: d in s.delegs ==> Filed(s, d)
    ensures s.active + s.discarded == |set d | d in s.delegs && !s.delegs[d].flags.revoked|
  {
    assert Counted(s) == set d | d in s.delegs && !s.delegs[d].flags.revoked;
  }

  /** nfs_active_delegations is exact if and only if no duplicate grant was ever discarded. */
  lemma CounterExactIff(s: State)
    requires Inv(s)
    ensures s.active == |Counted(s)| <==> s.discarded == 0
  {
  }

  /** A read grant for an inode whose live delegation bears another stateid is dropped, and uncounted. */
  lemma DuplicateIsDropped(s: State, v: ServerId, i: InodeId, b: Stateid, e: DelegId)
    requires Pointers(s) && v in s.lists && i in s.inodes
    requires var x := s.delegs[s.inodes[i]]; !x.flags.revoked && x.stateid.other != b.other
    ensures var s' := DoGrant(s, v, i, false, b, e);
            && s'.delegs == s.delegs && s'.held == s.held
            && s'.active == s.active - 1 && s'.discarded == s.discarded + 1
  {
  }

  /** It does drift: a second read grant for one inode takes one off the counter. */
  lemma DuplicateGrantDrifts(s: State, v: ServerId, i: InodeId, a: Stateid, b: Stateid, d: DelegId, e: DelegId)
    requires Inv(s) && v in s.lists && i !in s.inodes && d !in s.used && a.other != b.other && a.other !in s.bearer
    ensures var s1 := DoGrant(s, v, i, false, a, d);
            Pointers(s1) &&
            var s2 := DoGrant(s1, v, i, false, b, e);
            s2.active == s.active && |Counted(s2)| == |Counted(s)| + 1
  {
    var s1 := Attach(s, d, v, i, false, a);
    assert DoGrant(s, v, i, false, a, d) == s1;
    AttachKeeps(s, d, v, i, false, a);
    DuplicateIsDropped(s1, v, i, b, e);
    SameCount(s1, DoGrant(s1, v, i, false, b, e));
  }

  lemma SameCount(s: State, s': State)
    requires s'.delegs == s.delegs && s'.held == s.held
    ensures Counted(s') == Counted(s)
  {
  }

  /** What has been freed is never seen again: no step brings it back, no thread still has it. */
  lemma {:induction false} FreedOnce(s: State, ops: seq<Op>, d: DelegId)
    requires Inv(s) && d in s.used && d !in s.delegs
    ensures var s' := Run(s, ops); d in s'.used && d !in s'.delegs && d !in s'.returning && d !in s'.held
    decreases |ops|
  {
    if ops != [] {
      if Enabled(s, ops[0]) {
        StepKeepsInv(s, ops[0]);
        StepContinues(s, ops[0], d);
        FreedOnce(Step(s, ops[0]), ops[1..], d);
      } else {
        FreedOnce(s, ops[1..], d);
      }
    }
  }

  /** The lookup shortcut never relies on a delegation that nobody is about to withdraw the tag of. */
  lemma ShortcutIsSafe(servers: set<ServerId>, alias: map<DentryId, InodeId>, ops: seq<Op>, t: DentryId)
    ensures Inv(Fresh(servers, alias))
    ensures var s := Run(Fresh(servers, alias), ops);
            t in s.tagged ==> t in s.alias && (ValidRead(s, s.alias[t]) || s.alias[t] in s.clears)
  {
    FreshHolds(servers, alias);
  }

  // ------------------------------------------------------------ no recall is lost

  /** A recall of the delegation is still on record. */
  predicate Pending(f: Flags) {
    f.ret || f.returning || f.retDelayed || f.revoked || f.inodeFreeing
  }

  /** So is a recall, or the wish to have the delegation back once the file is closed. */
  predicate Noted(f: Flags) {
    Pending(f) || f.retIfClosed
  }

  /** What is on record of f is on record of f'. */
  predicate Carries(f: Flags, f': Flags) {
    (Pending(f) ==> Pending(f')) && (Noted(f) ==> Noted(f'))
  }

  /** The only steps that may end the record: a return that completed against a newer grant,
      a return given up with an error other than "try again", and a new grant or reclaim. */
  predicate Forgives(s: State, op: Op, d: DelegId) {
    d in s.delegs &&
    var x := s.delegs[d];
    match op
    case Abort(e, again) => e == d && !again
    case Returned(e, sid) =>
      e == d && sid.other == x.stateid.other && sid.seqid != 0 && Newer32(x.stateid.seqid, sid.seqid)
    case Grant(_, i, _, sid, _) =>
      x.inode == Some(i) && x.flags.revoked && sid.other == x.stateid.other && Newer32(sid.seqid, x.stateid.seqid)
    case Reclaim(_, i, _, _, _) => x.inode == Some(i) && x.flags.revoked
    case _ => false
  }

  /**
  From s to s', delegation d is not revived and not attached anew, and unless the step
  forgives it what is on record stays on record while d is attached.
   */
  ghost predicate Continues(s: State, s': State, d: DelegId, forgiven: bool) {
    && d in s'.used
    && (d in s'.delegs ==> d in s.delegs)
    && (Attached(s', d) ==> Attached(s, d) && (!forgiven ==> Carries(s.delegs[d].flags, s'.delegs[d].flags)))
  }

  lemma ReplacementContinues(s: State, e: DelegId, f: Flags, v: ServerId, i: InodeId, w: bool, sid: Stateid,
                             id: DelegId, d: DelegId)
    requires Attached(s, e) && s.delegs[e].server in s.lists && v in s.lists && id !in s.used && d in s.used
    ensures Continues(s, Replace(s, e, f, id, v, i, w, sid), d, false)
  {
  }

  lemma RenewContinues(s: State, e: DelegId, x: Deleg, d: DelegId)
    requires Attached(s, e) && x.inode == s.delegs[e].inode && d in s.used
    requires x.flags.(needReclaim := false) == s.delegs[e].flags.(needReclaim := false)
    ensures Continues(s, Renew(s, e, x), d, e == d && s.delegs[d].flags.revoked)
  {
  }

  lemma GrantContinues(s: State, v: ServerId, i: InodeId, w: bool, sid: Stateid, id: DelegId, d: DelegId)
    requires Pointers(s) && v in s.lists && id !in s.used && d in s.used
    ensures Continues(s, DoGrant(s, v, i, w, sid, id), d, Forgives(s, Grant(v, i, w, sid, id), d))
  {
    if i in s.inodes {
      var e := s.inodes[i];
      var x := s.delegs[e];
      if x.stateid.other == sid.other {
        RenewContinues(s, e, x.(stateid := x.stateid.(seqid := sid.seqid), write := w), d);
      } else if x.flags.revoked {
        ReplacementContinues(s, e, x.flags, v, i, w, sid, id, d);
      } else {
        ReplacementContinues(s, e, x.flags.(returning := true), v, i, w, sid, id, d);
      }
    }
  }

  lemma ReclaimContinues(s: State, v: ServerId, i: InodeId, w: bool, sid: Stateid, id: DelegId, d: DelegId)
    requires Pointers(s) && v in s.lists && id !in s.used && d in s.used
    ensures Continues(s, DoReclaim(s, v, i, w, sid, id), d, Forgives(s, Reclaim(v, i, w, sid, id), d))
  {
    if i !in s.inodes {
      GrantContinues(s, v, i, w, sid, id, d);
    } else {
      var x := s.delegs[s.inodes[i]];
      RenewContinues(s, s.inodes[i], x.(stateid := sid, write := w, flags := x.flags.(needReclaim := false)), d);
    }
  }

  lemma BeginContinues(s: State, e: DelegId, f: Flags, d: DelegId)
    requires Attached(s, e) && d in s.used
    ensures Continues(s, BeginReturn(s, e, f), d, false)
  {
  }

  lemma StartContinues(s: State, i: InodeId, d: DelegId)
    requires Pointers(s) && d in s.used
    ensures Continues(s, DoStart(s, i), d, false)
  {
    if i in s.inodes {
      BeginContinues(s, s.inodes[i], s.delegs[s.inodes[i]].flags.(retDelayed := false), d);
    }
  }

  lemma OnCloseContinues(s: State, i: InodeId, isOpen: bool, crowded: bool, d: DelegId)
    requires Pointers(s) && d in s.used
    ensures Continues(s, DoOnClose(s, i, isOpen, crowded), d, false)
  {
    if i in s.inodes {
      BeginContinues(s, s.inodes[i], s.delegs[s.inodes[i]].flags.(retIfClosed := false), d);
    }
  }

  lemma ReleaseContinues(s: State, s1: State, e: DelegId, x: Deleg, d: DelegId, forgiven: bool)
    requires e in s.delegs && s1.delegs == s.delegs && s1.used == s.used && x.inode == s.delegs[e].inode && d in s.used
    requires e == d && !forgiven ==> Carries(s.delegs[d].flags, x.flags)
    ensures Continues(s, Release(s1, e, x), d, forgiven)
  {
  }

  lemma AbortContinues(s: State, e: DelegId, again: bool, d: DelegId)
    requires e in s.returning && e in s.delegs && d in s.used
    ensures Continues(s, DoAbort(s, e, again), d, e == d && !again)
  {
    var f := s.delegs[e].flags;
    ReleaseContinues(s, s.(delayed := s.delayed || again, returning := s.returning - multiset{e}), e,
      s.delegs[e].(flags := f.(returning := false, retDelayed := f.retDelayed || again)), d, e == d && !again);
  }

  lemma FinishContinues(s: State, e: DelegId, call: bool, d: DelegId)
    requires e in s.returning && e in s.delegs && d in s.used
    ensures Continues(s, DoFinish(s, e, call), d, false)
  {
    var rpcs := if call && !s.delegs[e].flags.revoked then s.rpcs + multiset{e} else s.rpcs;
    ReleaseContinues(s, s.(returning := s.returning - multiset{e}, rpcs := rpcs), e, s.delegs[e], d, false);
  }

  lemma ReturnedContinues(s: State, e: DelegId, sid: Stateid, d: DelegId)
    requires Pointers(s) && Owned(s) && Named(s) && Enabled(s, Returned(e, sid)) && d in s.used
    ensures Continues(s, DoReturned(s, e, sid), d, Forgives(s, Returned(e, sid), d))
  {
    ReturnedIsOwn(s, e, sid);
  }

  lemma MarkRevokedContinues(s: State, e: DelegId, seqid: nat, d: DelegId)
    requires e in s.delegs && d in s.used
    ensures Continues(s, MarkRevoked(s, e, seqid), d, false)
  {
  }

  lemma RevokeContinues(s: State, i: InodeId, which: Option<Stateid>, d: DelegId)
    requires Pointers(s) && d in s.used
    ensures Continues(s, DoRevoke(s, i, which), d, false)
  {
    if i in s.inodes {
      MarkRevokedContinues(s, s.inodes[i], s.delegs[s.inodes[i]].stateid.seqid, d);
      if which.Some? {
        MarkRevokedContinues(s, s.inodes[i], which.value.seqid, d);
      }
    }
  }

  lemma DetachContinues(s: State, e: DelegId, d: DelegId)
    requires Attached(s, e) && s.delegs[e].server in s.lists && d in s.used
    ensures Continues(s, Detach(s, e), d, false)
  {
  }

  lemma EvictContinues(s: State, i: InodeId, d: DelegId)
    requires Pointers(s) && d in s.used
    ensures Continues(s, DoEvict(s, i), d, false)
  {
  }

  lemma FreeContinues(s: State, e: DelegId, d: DelegId)
    requires e in s.delegs && e in s.held && d in s.used
    ensures Continues(s, DoFree(s, e), d, false)
  {
    var x := s.delegs[e];
    var s1 := s.(held := s.held - {e}, active := if x.flags.revoked then s.active else s.active - 1);
    var y := x.(flags := x.flags.(revoked := true));
    assert DoFree(s, e) == Release(s1, e, y);
    ReleaseContinues(s, s1, e, y, d, false);
  }

  lemma FlagsContinue(s: State, e: DelegId, f: Flags, d: DelegId)
    requires e in s.delegs && d in s.used && Carries(s.delegs[e].flags, f)
    ensures Continues(s, WithFlags(s, e, f), d, false)
  {
  }

  lemma VisitContinues(s: State, e: DelegId, d: DelegId)
    requires d in s.used
    ensures Continues(s, DoVisit(s, e), d, false)
  {
  }

  lemma PickContinues(s: State, e: DelegId, isOpen: bool, grabbed: bool, d: DelegId)
    requires Attached(s, e) && d in s.used
    ensures Continues(s, DoPick(s, e, isOpen, grabbed), d, false)
  {
    var f := s.delegs[e].flags;
    if !f.inodeFreeing {
      var (f', need) := NeedReturn(f, isOpen);
      if !need {
        assert DoPick(s, e, isOpen, grabbed) == WithFlags(s, e, f');
        FlagsContinue(s, e, f', d);
      } else if !grabbed {
        assert DoPick(s, e, isOpen, grabbed) == WithFlags(s, e, f'.(inodeFreeing := true));
        FlagsContinue(s, e, f'.(inodeFreeing := true), d);
      } else {
        assert DoPick(s, e, isOpen, grabbed) == BeginReturn(s, e, f'.(retDelayed := false));
        BeginContinues(s, e, f'.(retDelayed := false), d);
      }
    }
  }

  /** Steps that mark one delegation, or none, continue. */
  lemma MarkingStepContinues(s: State, op: Op, d: DelegId)
    requires Pointers(s) && Owned(s) && Enabled(s, op) && d in s.used
    requires op.Recall? || op.Mark? || op.MarkIfClosed? || op.Pick? || op.Annotate? || op.Visit?
    ensures Continues(s, Step(s, op), d, false)
  {
    match op
    case Recall(i) => RecallContinues(s, i, d);
    case Mark(e) => FlagsContinue(s, e, s.delegs[e].flags.(ret := true), d);
    case MarkIfClosed(e) => FlagsContinue(s, e, s.delegs[e].flags.(retIfClosed := true), d);
    case Pick(e, isOpen, grabbed) => PickContinues(s, e, isOpen, grabbed, d);
    case Annotate(e, n, r, x) =>
      FlagsContinue(s, e, s.delegs[e].flags.(needReclaim := n, referenced := r, testExpired := x), d);
    case Visit(e) => VisitContinues(s, e, d);
  }

  lemma RecallContinues(s: State, i: InodeId, d: DelegId)
    requires d in s.used
    ensures Continues(s, DoRecall(s, i), d, false)
  {
    if ValidRead(s, i) {
      FlagsContinue(s, s.inodes[i], s.delegs[s.inodes[i]].flags.(ret := true), d);
    }
  }

  lemma EndingStepContinues(s: State, op: Op, d: DelegId)
    requires Pointers(s) && Owned(s) && Named(s) && Enabled(s, op) && d in s.used
    requires op.Abort? || op.Finish? || op.Returned? || op.FreeHeld? || op.ReapDetach?
    ensures Continues(s, Step(s, op), d, Forgives(s, op, d))
  {
    match op
    case Abort(e, again) => AbortContinues(s, e, again, d);
    case Finish(e, call) => FinishContinues(s, e, call, d);
    case Returned(e, sid) => ReturnedContinues(s, e, sid, d);
    case FreeHeld(e) => FreeContinues(s, e, d);
    case ReapDetach(e) => if Attached(s, e) { DetachContinues(s, e, d); }
  }

  lemma InodeStepContinues(s: State, op: Op, d: DelegId)
    requires Pointers(s) && Owned(s) && Enabled(s, op) && d in s.used
    requires op.Grant? || op.Reclaim? || op.Start? || op.OnClose? || op.Revoke? || op.Evict?
    ensures Continues(s, Step(s, op), d, Forgives(s, op, d))
  {
    match op
    case Grant(v, i, w, sid, id) => GrantContinues(s, v, i, w, sid, id, d);
    case Reclaim(v, i, w, sid, id) => ReclaimContinues(s, v, i, w, sid, id, d);
    case Start(i) => StartContinues(s, i, d);
    case OnClose(i, isOpen, crowded) => OnCloseContinues(s, i, isOpen, crowded, d);
    case Revoke(i, which) => RevokeContinues(s, i, which, d);
    case Evict(i) => EvictContinues(s, i, d);
  }

  lemma StepContinues(s: State, op: Op, d: DelegId)
    requires Pointers(s) && Owned(s) && Named(s) && Enabled(s, op) && d in s.used
    ensures Continues(s, Step(s, op), d, Forgives(s, op, d))
  {
    if op.Grant? || op.Reclaim? || op.Start? || op.OnClose? || op.Revoke? || op.Evict? {
      InodeStepContinues(s, op, d);
    } else if op.Abort? || op.Finish? || op.Returned? || op.FreeHeld? || op.ReapDetach? {
      EndingStepContinues(s, op, d);
    } else if op.Recall? || op.Mark? || op.MarkIfClosed? || op.Pick? || op.Annotate? || op.Visit? {
      MarkingStepContinues(s, op, d);
    }
  }

  /** No step of the run forgives d. */
  ghost predicate NeverForgiven(s: State, ops: seq<Op>, d: DelegId)
    requires Inv(s)
    decreases |ops|
  {
    ops == [] ||
    if Enabled(s, ops[0]) then
      StepKeepsInv(s, ops[0]);
      !Forgives(s, ops[0], d) && NeverForgiven(Step(s, ops[0]), ops[1..], d)
    else NeverForgiven(s, ops[1..], d)
  }

  /**
  No recall is lost: over any run, a recalled delegation is gone or the recall is on record; and so for one that is
  wanted back once its file is closed.
  */
  lemma {:induction false} NoRecallLost(s: State, ops: seq<Op>, d: DelegId)
    requires Inv(s) && d in s.used && NeverForgiven(s, ops, d)
    ensures var s' := Run(s, ops); Attached(s', d) ==> Attached(s, d) && Carries(s.delegs[d].flags, s'.delegs[d].flags)
    decreases |ops|
  {
    if ops != [] {
      if Enabled(s, ops[0]) {
        StepKeepsInv(s, ops[0]);
        StepContinues(s, ops[0], d);
        NoRecallLost(Step(s, ops[0]), ops[1..], d);
      } else {
        NoRecallLost(s, ops[1..], d);
      }
    }
  }

  /** The bit of the record that a forgiving step takes away. */
  function Spent(f: Flags, op: Op): Flags {
    if op.Abort? || op.Returned? then f.(returning := false) else f.(revoked := false)
  }

  /** Exactly when a step loses a recall: it forgives, and no other bit is on record. */
  lemma RecallLostIff(s: State, op: Op, d: DelegId)
    requires Inv(s) && Enabled(s, op) && Attached(s, d) && Attached(Step(s, op), d)
    ensures var f, f' := s.delegs[d].flags, Step(s, op).delegs[d].flags;
            && (Pending(f) ==> (!Pending(f') <==> Forgives(s, op, d) && !Pending(Spent(f, op))))
            && (Noted(f) ==> (!Noted(f') <==> Forgives(s, op, d) && !Noted(Spent(f, op))))
  {
    StepContinues(s, op, d);
    if Forgives(s, op, d) {
      ForgivingStep(s, op, d);
    }
  }

  lemma AbortFlags(s: State, d: DelegId)
    requires d in s.delegs && d in s.returning
    ensures var s' := DoAbort(s, d, false); d in s'.delegs ==>
              s'.delegs[d].flags == s.delegs[d].flags.(returning := false)
  {
  }

  lemma ReturnedFlags(s: State, d: DelegId, sid: Stateid)
    requires Pointers(s) && Owned(s) && Named(s) && Attached(s, d) && Enabled(s, Returned(d, sid))
    requires Forgives(s, Returned(d, sid), d)
    ensures DoReturned(s, d, sid).delegs[d].flags == s.delegs[d].flags.(returning := false)
  {
    ReturnedIsOwn(s, d, sid);
  }

  lemma ForgivingStep(s: State, op: Op, d: DelegId)
    requires Pointers(s) && Owned(s) && Named(s) && Enabled(s, op) && Attached(s, d) && Forgives(s, op, d)
    requires Attached(Step(s, op), d)
    ensures var f := Spent(s.delegs[d].flags, op);
            && (Pending(Step(s, op).delegs[d].flags) <==> Pending(f))
            && (Noted(Step(s, op).delegs[d].flags) <==> Noted(f))
  {
    if op.Abort? {
      AbortFlags(s, d);
    } else if op.Returned? {
      ReturnedFlags(s, d, op.sid);
    } else {
      assert Step(s, op).delegs[d].flags.(needReclaim := false)
             == s.delegs[d].flags.(revoked := false, needReclaim := false);
    }
  }

  lemma RecallMarksNew(s: State, v: ServerId, i: InodeId, w: bool, sid: Stateid, d: DelegId)
    requires Pointers(s) && v in s.lists && i !in s.inodes && d !in s.used
    ensures var s' := DoRecall(DoGrant(s, v, i, w, sid, d), i);
            Attached(s', d) && s'.delegs[d].refcount == 1 && s'.delegs[d].flags == NEW_FLAGS.(ret := true)
  {
    assert DoGrant(s, v, i, w, sid, d) == Attach(s, d, v, i, w, sid);
  }

  lemma PickStarts(s: State, d: DelegId)
    requires Attached(s, d) && s.delegs[d].refcount == 1 && s.delegs[d].flags == NEW_FLAGS.(ret := true)
    ensures var s' := DoPick(s, d, false, true);
            && Attached(s', d) && d in s'.returning
            && s'.delegs[d].refcount == 2 && s'.delegs[d].flags == NEW_FLAGS.(returning := true)
  {
    assert DoPick(s, d, false, true) == BeginReturn(s, d, NEW_FLAGS);
  }

  lemma AbortForgets(s: State, d: DelegId)
    requires Attached(s, d) && d in s.returning
    requires s.delegs[d].refcount == 2 && s.delegs[d].flags == NEW_FLAGS.(returning := true)
    ensures var s' := DoAbort(s, d, false); Attached(s', d) && s'.delegs[d].flags == NEW_FLAGS
  {
  }

  /** A recall that is lost: granted, recalled, picked, and given up with an error that is not "try again". */
  lemma RecallCanBeLost(s: State, v: ServerId, i: InodeId, w: bool, sid: Stateid, d: DelegId)
    requires Inv(s) && Enabled(s, Grant(v, i, w, sid, d)) && i !in s.inodes
    ensures var s1 := DoRecall(DoGrant(s, v, i, w, sid, d), i);
            Attached(s1, d) && Pending(s1.delegs[d].flags) &&
            var s2 := DoPick(s1, d, false, true);
            d in s2.delegs && d in s2.returning &&
            var s3 := DoAbort(s2, d, false);
            Attached(s3, d) && !Pending(s3.delegs[d].flags)
  {
    var s1 := DoRecall(DoGrant(s, v, i, w, sid, d), i);
    RecallMarksNew(s, v, i, w, sid, d);
    PickStarts(s1, d);
    AbortForgets(DoPick(s1, d, false, true), d);
  }
}
