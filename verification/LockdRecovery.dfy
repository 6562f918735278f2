/**
What the NLM client gets done: locks are gained, and after a reboot of the server reclaimed
(bundle/fs/lockd/clntproc.c, clntlock.c).
*/
module LockdRecovery {
  import opened Common
  import opened LockdClient

  /** A notification starts a reclaimer for the reboot there is exactly if h_reclaiming was clear and one can start. */
  lemma RecoverStartsIff(s: State, r: Rid, spawned: bool)
    requires Enabled(s, Recover(r, spawned))
    ensures var s' := Step(s, Recover(r, spawned));
            && (r in s'.reclaimers <==> !s.reclaiming && spawned)
            && (r in s'.reclaimers ==> s'.reclaimers[r].stage == Waiting && s'.reclaimers[r].reboot == s.epoch)
            && (s'.reclaiming <==> !s.reclaiming) && s'.notices == s.notices - 1
            && s' == s.(reclaimers := s'.reclaimers, reclaiming := s'.reclaiming, notices := s'.notices)
            && forall q :: q != r ==> (q in s'.reclaimers <==> q in s.reclaimers)
                                      && (q in s.reclaimers ==> s'.reclaimers[q] == s.reclaimers[q])
  {
  }

  /** A host that no thread is using and no reclaimer is at work for. */
  predicate Quiet(s: State) {
    s.readers == {} && s.writer.None? && !s.reclaiming
  }

  /** A host just looked up is quiet, and has no lock, no reclaimer and no notification to serve. */
  lemma StartIsQuiet()
    ensures Inv(START) && Quiet(START) && START.locks == map[] && START.reclaimers == map[] && START.notices == 0
  {
  }

  /** A reclaimer has all the locks to reclaim, for the reboot there is. */
  ghost predicate Facing(s: State, r: Rid, lost: set<LockId>) {
    && At(s, r, Looping) && s.writer == Some(r) && s.current.None? && s.reclaiming
    && s.reclaimers[r].since == s.epoch && s.reclaimers[r].nsm == s.nsm
    && s.lost == lost && s.granted + s.reclaim == s.locks.Keys - lost
  }

  /** Every one of the steps can be taken in turn, and they lead from s to s'. */
  ghost predicate Leads(s: State, ops: seq<Op>, s': State)
    requires Inv(s)
    decreases |ops|
  {
    if ops == [] then s' == s
    else Enabled(s, ops[0]) && (StepKeepsInv(s, ops[0]); Leads(Step(s, ops[0]), ops[1..], s'))
  }

  lemma {:induction false} LeadsOn(s: State, a: seq<Op>, m: State, b: seq<Op>, t: State)
    requires Inv(s) && Inv(m) && Leads(s, a, m) && Leads(m, b, t)
    ensures Leads(s, a + b, t)
    decreases |a|
  {
    if a == [] {
      assert a + b == b;
    } else {
      assert (a + b)[1..] == a[1..] + b;
      StepKeepsInv(s, a[0]);
      LeadsOn(Step(s, a[0]), a[1..], m, b, t);
    }
  }

  lemma LeadsOne(s: State, op: Op)
    requires Inv(s) && Enabled(s, op)
    ensures Inv(Step(s, op)) && Leads(s, [op], Step(s, op))
  {
    StepKeepsInv(s, op);
  }

  /** It is a run. */
  lemma {:induction false} LeadsRuns(s: State, ops: seq<Op>, s': State)
    requires Inv(s) && Leads(s, ops, s')
    ensures Run(s, ops) == s'
    decreases |ops|
  {
    if ops != [] {
      StepKeepsInv(s, ops[0]);
      LeadsRuns(Step(s, ops[0]), ops[1..], s');
    }
  }

  /** The same locks, and the same lost. */
  predicate SameLocks(s: State, s': State) {
    s'.locks == s.locks && s'.lost == s.lost && s'.granted == s.granted && s'.reclaim == s.reclaim
  }

  lemma RebootIsNotified(s: State, state: nat)
    requires Quiet(s) && state != s.nsm
    ensures Enabled(s, Notify(state))
    ensures var s' := Step(s, Notify(state));
            Quiet(s') && s'.notices > 0 && s'.epoch == s.epoch + 1 && SameLocks(s, s') && s'.reclaimers == s.reclaimers
  {
  }

  lemma ReclaimerStarts(s: State, r: Rid)
    requires Quiet(s) && s.notices > 0 && r !in s.reclaimers
    ensures Enabled(s, Recover(r, true))
    ensures var s' := Step(s, Recover(r, true));
            && Enabled(s', DownWrite(r)) && s'.reclaiming && s'.epoch == s.epoch && SameLocks(s, s')
            && s'.reclaimers.Keys == s.reclaimers.Keys + {r}
  {
  }

  lemma ReclaimerEnters(s: State, r: Rid)
    requires Enabled(s, DownWrite(r)) && s.reclaiming
    ensures var s' := Step(s, DownWrite(r));
            && Enabled(s', Snapshot(r)) && s'.writer == Some(r) && s'.reclaiming && s'.epoch == s.epoch
            && SameLocks(s, s') && s'.reclaimers.Keys == s.reclaimers.Keys
  {
  }

  lemma ReclaimerFaces(s: State, r: Rid)
    requires Inv(s) && Enabled(s, Snapshot(r)) && s.reclaiming
    ensures var s' := Step(s, Snapshot(r));
            && Facing(s', r, s.lost) && s'.granted == {} && s'.locks == s.locks && s'.epoch == s.epoch
            && s'.reclaimers.Keys == s.reclaimers.Keys
  {
    SnapshotSeesAll(s, r);
    assert s.writer == Some(r);
  }

  /** A notified reboot is taken up: the steps to the snapshot can be taken and put each lock not lost on h_reclaim. */
  lemma RebootIsTakenUp(s: State, state: nat, r: Rid) returns (s': State)
    requires Inv(s) && Quiet(s) && state != s.nsm && r !in s.reclaimers
    ensures Leads(s, [Notify(state), Recover(r, true)] + [DownWrite(r), Snapshot(r)], s') && Inv(s')
    ensures Facing(s', r, s.lost) && s'.reclaim == s.locks.Keys - s.lost && s'.granted == {} && s'.locks == s.locks
    ensures s'.epoch == s.epoch + 1 && s'.reclaimers.Keys == s.reclaimers.Keys + {r}
  {
    var s2 := ReclaimerWaits(s, state, r);
    ReclaimerEnters(s2, r);
    LeadsOne(s2, DownWrite(r));
    var s3 := Step(s2, DownWrite(r));
    ReclaimerFaces(s3, r);
    LeadsOne(s3, Snapshot(r));
    s' := Step(s3, Snapshot(r));
    LeadsOn(s2, [DownWrite(r)], s3, [Snapshot(r)], s');
    assert [DownWrite(r)] + [Snapshot(r)] == [DownWrite(r), Snapshot(r)];
    LeadsOn(s, [Notify(state), Recover(r, true)], s2, [DownWrite(r), Snapshot(r)], s');
  }

  lemma ReclaimerWaits(s: State, state: nat, r: Rid) returns (s': State)
    requires Inv(s) && Quiet(s) && state != s.nsm && r !in s.reclaimers
    ensures Leads(s, [Notify(state), Recover(r, true)], s') && Inv(s') && Enabled(s', DownWrite(r)) && s'.reclaiming
    ensures SameLocks(s, s') && s'.epoch == s.epoch + 1 && s'.reclaimers.Keys == s.reclaimers.Keys + {r}
  {
    RebootIsNotified(s, state);
    LeadsOne(s, Notify(state));
    var s1 := Step(s, Notify(state));
    ReclaimerStarts(s1, r);
    LeadsOne(s1, Recover(r, true));
    s' := Step(s1, Recover(r, true));
    LeadsOn(s, [Notify(state)], s1, [Recover(r, true)], s');
    assert [Notify(state)] + [Recover(r, true)] == [Notify(state), Recover(r, true)];
  }

  /** One lock is reclaimed from the server. */
  lemma LockIsReclaimed(s: State, r: Rid, l: LockId, lost: set<LockId>)
    requires Inv(s) && Facing(s, r, lost) && l in s.reclaim
    ensures Enabled(s, Take(r, l))
    ensures var s1 := Step(s, Take(r, l));
            Enabled(s1, Answer(r, true)) &&
            var s2 := Step(s1, Answer(r, true));
            && Facing(s2, r, lost) && s2.reclaim == s.reclaim - {l} && s2.granted == s.granted + {l}
            && s2.epoch == s.epoch && l in s2.locks && s2.locks == s.locks[l := s2.locks[l]]
            && s2.locks[l].held == s.epoch && s2.reclaimers.Keys == s.reclaimers.Keys
  {
  }

  /** The steps that reclaim the locks of a list in turn. */
  function Reclaims(r: Rid, ls: seq<LockId>): seq<Op> {
    if ls == [] then [] else [Take(r, ls[0])] + [Answer(r, true)] + Reclaims(r, ls[1..])
  }

  /** What has been reclaimed is held from the server as it is now. */
  ghost predicate AllHeld(s: State) {
    forall l :: l in s.granted ==> l in s.locks && s.locks[l].held == s.epoch
  }

  lemma HeldMore(s: State, s': State, l: LockId)
    requires AllHeld(s) && s'.epoch == s.epoch && s'.granted == s.granted + {l}
    requires l in s'.locks && s'.locks == s.locks[l := s'.locks[l]] && s'.locks[l].held == s.epoch
    ensures AllHeld(s')
  {
  }

  /** All of them are. */
  lemma {:induction false} LocksAreReclaimed(s: State, r: Rid, ls: seq<LockId>, lost: set<LockId>)
    returns (s': State)
    requires Inv(s) && Facing(s, r, lost) && AllHeld(s) && Distinct(ls) && forall l :: l in ls <==> l in s.reclaim
    ensures Leads(s, Reclaims(r, ls), s') && Inv(s') && Facing(s', r, lost) && AllHeld(s')
    ensures s'.reclaim == {} && s'.epoch == s.epoch && s'.locks.Keys == s.locks.Keys
    ensures s'.reclaimers.Keys == s.reclaimers.Keys
    decreases |ls|
  {
    if ls == [] {
      s' := s;
      assert s.reclaim == {};
    } else {
      var s2 := OneIsReclaimed(s, r, ls[0], lost);
      TailOf(ls);
      s' := LocksAreReclaimed(s2, r, ls[1..], lost);
      LeadsOn(s, [Take(r, ls[0])] + [Answer(r, true)], s2, Reclaims(r, ls[1..]), s');
    }
  }

  lemma OneIsReclaimed(s: State, r: Rid, l: LockId, lost: set<LockId>) returns (s2: State)
    requires Inv(s) && Facing(s, r, lost) && AllHeld(s) && l in s.reclaim
    ensures Leads(s, [Take(r, l)] + [Answer(r, true)], s2) && Inv(s2) && Facing(s2, r, lost) && AllHeld(s2)
    ensures s2.reclaim == s.reclaim - {l} && s2.epoch == s.epoch && s2.locks.Keys == s.locks.Keys
    ensures s2.reclaimers.Keys == s.reclaimers.Keys
  {
    LockIsReclaimed(s, r, l, lost);
    var s1 := Step(s, Take(r, l));
    LeadsOne(s, Take(r, l));
    s2 := Step(s1, Answer(r, true));
    LeadsOne(s1, Answer(r, true));
    LeadsOn(s, [Take(r, l)], s1, [Answer(r, true)], s2);
    HeldMore(s, s2, l);
    assert l in s.locks;
  }

  lemma TailOf(ls: seq<LockId>)
    requires ls != [] && Distinct(ls)
    ensures Distinct(ls[1..]) && forall l :: l in ls[1..] <==> l in ls && l != ls[0]
  {
    DistinctPairs(ls);
    PairsDistinct(ls[1..]);
  }

  lemma ReclaimerLeaves(s: State, r: Rid)
    requires Facing(s, r, s.lost) && s.reclaim == {} && s.readers == {}
    ensures Enabled(s, Exit(r))
    ensures var s' := Step(s, Exit(r));
            && Quiet(s') && s'.granted == s.locks.Keys - s.lost && s'.locks == s.locks && s'.lost == s.lost
            && s'.epoch == s.epoch && s'.reclaimers.Keys == s.reclaimers.Keys
  {
  }

  /**
  Recovery: after a reboot of the server is notified to a quiet host, steps can be taken at whose end every lock that
  was not lost before is held from the server as it is now, and the host is quiet again, so that the next reboot is
  taken up as well.
  */
  lemma RebootIsRecovered(s: State, state: nat, r: Rid, ls: seq<LockId>) returns (ops: seq<Op>, s': State)
    requires Inv(s) && Quiet(s) && state != s.nsm && r !in s.reclaimers
    requires Distinct(ls) && forall l :: l in ls <==> l in s.locks && l !in s.lost
    ensures Leads(s, ops, s') && Inv(s') && Run(s, ops) == s'
    ensures Quiet(s') && s'.locks.Keys == s.locks.Keys && s'.lost == s.lost && s'.epoch == s.epoch + 1
    ensures s'.granted == s'.locks.Keys - s'.lost && AllHeld(s') && s'.reclaimers.Keys == s.reclaimers.Keys + {r}
  {
    var s4 := RebootIsTakenUp(s, state, r);
    var s5 := LocksAreReclaimed(s4, r, ls, s.lost);
    assert s5.readers == {};
    ReclaimerLeaves(s5, r);
    LeadsOne(s5, Exit(r));
    s' := Step(s5, Exit(r));
    LeadsOn(s4, Reclaims(r, ls), s5, [Exit(r)], s');
    ops := [Notify(state), Recover(r, true)] + [DownWrite(r), Snapshot(r)] + (Reclaims(r, ls) + [Exit(r)]);
    LeadsOn(s, [Notify(state), Recover(r, true)] + [DownWrite(r), Snapshot(r)], s4, Reclaims(r, ls) + [Exit(r)], s');
    LeadsRuns(s, ops, s');
  }

  lemma AttemptIsChecked(s: State, t: Tid)
    requires s.writer.None? && Enabled(s, Record(t)) && t !in s.readers
    ensures var s1 := Step(s, Record(t));
            Enabled(s1, Reply(t, true)) &&
            var s2 := Step(s1, Reply(t, true));
            Enabled(s2, DownRead(t)) &&
            var s3 := Step(s2, DownRead(t));
            && Enabled(s3, Check(t)) && s3.attempts[t].at == s.epoch && s3.attempts[t].state == HState(s3)
            && s3 == s.(attempts := s3.attempts, readers := s.readers + {t})
  {
  }

  lemma CheckedIsInstalled(s: State, t: Tid, l: LockId)
    requires Enabled(s, Check(t)) && s.attempts[t].state == HState(s) && l !in s.used
    ensures var s1 := Step(s, Check(t));
            Enabled(s1, Install(t, l)) &&
            var s2 := Step(s1, Install(t, l));
            Enabled(s2, UpRead(t)) &&
            var s3 := Step(s2, UpRead(t));
            && l in s3.locks && s3.locks == s.locks[l := s3.locks[l]] && s3.granted == s.granted + {l}
            && s3.locks[l].recorded == s3.locks[l].held == s.attempts[t].at && s3.locks[l].checked == s.epoch
            && In(s3, t, Idle) && s3.readers == s.readers - {t} && s3.writer == s.writer
  {
  }

  /**
  A lock is gained: without a reboot meanwhile a thread gets through, and the lock is installed for the state it
  recorded.
  */
  lemma LockIsInstalled(s: State, t: Tid, l: LockId)
    requires Inv(s) && s.writer.None? && Enabled(s, Record(t)) && l !in s.used
    ensures var s3 := Step(Step(Step(s, Record(t)), Reply(t, true)), DownRead(t));
            Enabled(s3, Check(t)) && Enabled(Step(s3, Check(t)), Install(t, l)) &&
            var s6 := Step(Step(Step(s3, Check(t)), Install(t, l)), UpRead(t));
            && l in s6.locks && s6.locks == s.locks[l := s6.locks[l]] && s6.granted == s.granted + {l}
            && s6.locks[l].recorded == s6.locks[l].checked == s6.locks[l].held == s.epoch
            && In(s6, t, Idle) && s6.readers == s.readers && s6.writer == s.writer
  {
    assert t in s.readers <==> In(s, t, Checking) || In(s, t, Passed) || In(s, t, Installed);
    AttemptIsChecked(s, t);
    CheckedIsInstalled(Step(Step(Step(s, Record(t)), Reply(t, true)), DownRead(t)), t, l);
  }

  /**
  An attempt that the server refuses, or that the check stops, is over and installs nothing; one refused locally gives
  up the semaphore without having installed anything.
  */
  lemma RefusedInstallsNothing(s: State, t: Tid)
    ensures Enabled(s, Reply(t, false)) ==>
              var s' := Step(s, Reply(t, false)); In(s', t, Idle) && s' == s.(attempts := s'.attempts)
    ensures Enabled(s, Check(t)) && s.attempts[t].state != HState(s) ==>
              var s' := Step(s, Check(t));
              In(s', t, Idle) && s' == s.(attempts := s'.attempts, readers := s.readers - {t})
    ensures Enabled(s, Refused(t)) ==>
              var s1 := Step(s, Refused(t));
              Enabled(s1, UpRead(t)) &&
              var s2 := Step(s1, UpRead(t));
              In(s2, t, Idle) && s2 == s.(attempts := s2.attempts, readers := s.readers - {t})
  {
  }

  /** An unlocked lock is on no list any more. */
  lemma UnlockedIsGone(s: State, l: LockId)
    requires Enabled(s, Unlock(l))
    ensures var s' := Step(s, Unlock(l));
            && s'.locks == s.locks - {l} && l !in s'.granted && l !in s'.reclaim && l !in s'.lost
            && s'.granted == s.granted - {l} && s'.reclaim == s.reclaim - {l} && s'.lost == s.lost - {l}
  {
  }
}
