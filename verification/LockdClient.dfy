/**
Reboot recovery in the NLM client (bundle/fs/lockd/clntproc.c, clntlock.c, host.c).  Any number of
threads try to lock; the server may reboot at any time; reclaimers take the host's semaphore for
writing.  Each step is what happens between two points where another thread can get in.
*/
module LockdClient {
  import opened Common

  type Tid = nat
  type Rid = nat
  type LockId = nat

  /** Where a thread is in nlmclnt_lock. It holds the semaphore for reading in the last three. */
  datatype Phase = Idle | Calling | Granted | Checking | Passed | Installed

  /** fl_u.nfs_fl.state as recorded, the true number of reboots then, and at the check. */
  datatype Attempt = Attempt(phase: Phase, state: nat, at: nat, checked: nat)

  /** Where a reclaimer thread is. It holds the semaphore for writing in Entering and Looping. */
  datatype Stage = Waiting | Entering | Looping | Done

  /** The reboot it was started for, h_nsmstate as it read it, and the true number of reboots then. */
  datatype Reclaimer = Reclaimer(reboot: nat, stage: Stage, nsm: nat, since: nat)

  /**
  An installed lock: the reboot count recorded and checked for it, the newest reboot that a reclaimer had
  held the semaphore for by the time it was installed, and the reboot count when the server last granted it.
  */
  datatype Lock = Lock(recorded: nat, checked: nat, floor: nat, held: nat)

  datatype State = State(
    epoch: nat,                         // reboots notified; h_state is this number modulo 2^32
    nsm: nat,                           // h_nsmstate
    states: seq<nat>,                   // h_nsmstate after each number of reboots
    reclaiming: bool,                   // h_reclaiming, one bit
    notices: nat,                       // notifications not yet at nlmclnt_recovery
    readers: set<Tid>, writer: Option<Rid>,
    attempts: map<Tid, Attempt>,
    reclaimers: map<Rid, Reclaimer>,
    locks: map<LockId, Lock>, used: set<LockId>,
    granted: set<LockId>, reclaim: set<LockId>,
    current: Option<LockId>,            // taken off h_reclaim, answer awaited
    lost: set<LockId>,                  // reclaim refused: on no list any more
    swept: nat)                         // newest reboot notified before or while a reclaimer held the semaphore

  function HState(s: State): nat {
    s.epoch % U32
  }

  datatype Op =
    | Record(t: Tid) | Reply(t: Tid, granted: bool)
    | DownRead(t: Tid) | Check(t: Tid) | Install(t: Tid, l: LockId) | Refused(t: Tid) | UpRead(t: Tid)
    | Unlock(l: LockId)
    | Notify(state: nat) | Recover(r: Rid, spawned: bool) | GiveUp(r: Rid)
    | DownWrite(r: Rid) | Snapshot(r: Rid) | Take(r: Rid, l: LockId) | Answer(r: Rid, ok: bool) | Exit(r: Rid)

  predicate In(s: State, t: Tid, p: Phase) {
    t in s.attempts && s.attempts[t].phase == p
  }

  predicate At(s: State, r: Rid, g: Stage) {
    r in s.reclaimers && s.reclaimers[r].stage == g
  }

  predicate Enabled(s: State, op: Op) {
    match op
    case Record(t) => t in s.attempts ==> s.attempts[t].phase == Idle
    case Reply(t, _) => In(s, t, Calling)
    case DownRead(t) => In(s, t, Granted) && s.writer.None?
    case Check(t) => In(s, t, Checking)
    case Install(t, l) => In(s, t, Passed) && l !in s.used
    case Refused(t) => In(s, t, Passed)
    case UpRead(t) => In(s, t, Installed)
    case Unlock(l) => l in s.locks && s.writer.None?
    case Notify(state) => state != s.nsm
    case Recover(r, _) => s.notices > 0 && r !in s.reclaimers
    case GiveUp(r) => At(s, r, Waiting)
    case DownWrite(r) => At(s, r, Waiting) && s.writer.None? && s.readers == {}
    case Snapshot(r) => At(s, r, Entering)
    case Take(r, l) => At(s, r, Looping) && s.current.None? && l in s.reclaim
    case Answer(r, _) => At(s, r, Looping) && s.current.Some? && s.current.value in s.locks
    case Exit(r) => At(s, r, Looping) && s.current.None? && s.reclaim == {}
  }

  function Move(s: State, t: Tid, p: Phase): State
    requires t in s.attempts
  {
    s.(attempts := s.attempts[t := s.attempts[t].(phase := p)])
  }

  function Advance(s: State, r: Rid, g: Stage): State
    requires r in s.reclaimers
  {
    s.(reclaimers := s.reclaimers[r := s.reclaimers[r].(stage := g)])
  }

  function DoCheck(s: State, t: Tid): State
    requires t in s.attempts
  {
    if s.attempts[t].state != HState(s) then Move(s, t, Idle).(readers := s.readers - {t})
    else s.(attempts := s.attempts[t := s.attempts[t].(phase := Passed, checked := s.epoch)])
  }

  function DoInstall(s: State, t: Tid, l: LockId): State
    requires t in s.attempts
  {
    var a := s.attempts[t];
    Move(s, t, Installed).(locks := s.locks[l := Lock(a.at, a.checked, s.swept, a.at)], used := s.used + {l},
                           granted := s.granted + {l})
  }

  /** next_host_state: the server has rebooted; a reclaimer at work has this reboot to serve as well. */
  function DoNotify(s: State, state: nat): State {
    s.(nsm := state, states := s.states + [state], epoch := s.epoch + 1, notices := s.notices + 1,
       swept := if s.writer.Some? then s.epoch + 1 else s.swept)
  }

  /** h_reclaiming++ on one bit: the second notification clears it, and only a clear bit starts a thread. */
  function DoRecover(s: State, r: Rid, spawned: bool): State
    requires s.notices > 0
  {
    var s1 := s.(notices := s.notices - 1, reclaiming := !s.reclaiming);
    if !s.reclaiming && spawned then s1.(reclaimers := s.reclaimers[r := Reclaimer(s.epoch, Waiting, 0, 0)]) else s1
  }

  function DoSnapshot(s: State, r: Rid): State
    requires r in s.reclaimers
  {
    s.(reclaimers := s.reclaimers[r := s.reclaimers[r].(stage := Looping, nsm := s.nsm, since := s.epoch)],
       reclaim := s.granted + s.reclaim, granted := {})
  }

  function DoAnswer(s: State, r: Rid, ok: bool): State
    requires r in s.reclaimers && s.current.Some? && s.current.value in s.locks
  {
    var l := s.current.value;
    if !ok then s.(current := None, lost := s.lost + {l})
    else
      var s1 := s.(current := None, granted := s.granted + {l}, locks := s.locks[l := s.locks[l].(held := s.epoch)]);
      if s.nsm != s.reclaimers[r].nsm then Advance(s1, r, Entering) else s1
  }

  function Step(s: State, op: Op): State
    requires Enabled(s, op)
  {
    match op
    case Record(t) => s.(attempts := s.attempts[t := Attempt(Calling, HState(s), s.epoch, 0)])
    case Reply(t, ok) => Move(s, t, if ok then Granted else Idle)
    case DownRead(t) => Move(s, t, Checking).(readers := s.readers + {t})
    case Check(t) => DoCheck(s, t)
    case Install(t, l) => DoInstall(s, t, l)
    case Refused(t) => Move(s, t, Installed)
    case UpRead(t) => Move(s, t, Idle).(readers := s.readers - {t})
    case Unlock(l) =>
      s.(locks := s.locks - {l}, granted := s.granted - {l}, reclaim := s.reclaim - {l}, lost := s.lost - {l})
    case Notify(state) => DoNotify(s, state)
    case Recover(r, spawned) => DoRecover(s, r, spawned)
    case GiveUp(r) => Advance(s, r, Done)
    case DownWrite(r) => Advance(s, r, Entering).(writer := Some(r), swept := s.epoch)
    case Snapshot(r) => DoSnapshot(s, r)
    case Take(r, l) => s.(reclaim := s.reclaim - {l}, current := Some(l))
    case Answer(r, ok) => DoAnswer(s, r, ok)
    case Exit(r) => Advance(s, r, Done).(writer := None, reclaiming := false)
  }

  // ------------------------------------------------------------ invariants

  ghost predicate Semaphore(s: State) {
    && (forall t :: t in s.readers <==> In(s, t, Checking) || In(s, t, Passed) || In(s, t, Installed))
    && (forall r: Rid :: s.writer == Some(r) <==> At(s, r, Entering) || At(s, r, Looping))
    && (s.writer.Some? ==> s.readers == {})
  }

  ghost predicate RecordedRight(a: Attempt, epoch: nat, swept: nat) {
    && a.at <= epoch && a.state == a.at % U32
    && (a.phase == Passed ==> swept <= a.checked && a.at <= a.checked && (a.checked - a.at) % U32 == 0)
  }

  ghost predicate Recordings(s: State) {
    forall t :: t in s.attempts ==> RecordedRight(s.attempts[t], s.epoch, s.swept)
  }

  /** The reboots so far, and those that reclaimers serve. */
  ghost predicate Epochs(s: State) {
    && s.swept <= s.epoch && (s.writer.Some? ==> s.swept == s.epoch)
    && |s.states| == s.epoch + 1 && s.states[s.epoch] == s.nsm
    && (forall r :: r in s.reclaimers ==> s.reclaimers[r].reboot <= s.epoch)
    && (forall r :: At(s, r, Looping) ==> Read(s, s.reclaimers[r]))
  }

  /** A reclaimer read the server's state after the reboot it was started for. */
  ghost predicate Read(s: State, x: Reclaimer) {
    x.reboot <= x.since < |s.states| && x.nsm == s.states[x.since]
  }

  /** Every installed lock is in exactly one place. */
  ghost predicate Places(s: State) {
    && s.locks.Keys <= s.used
    && s.locks.Keys == s.granted + s.reclaim + s.lost + (if s.current.Some? then {s.current.value} else {})
    && s.granted !! s.reclaim && s.granted !! s.lost && s.reclaim !! s.lost
    && (s.current.Some? ==> s.current.value !in s.granted + s.reclaim + s.lost)
    && (s.current.Some? ==> s.writer.Some? && At(s, s.writer.value, Looping))
  }

  ghost predicate InstalledRight(x: Lock) {
    x.floor <= x.checked && x.recorded <= x.checked && (x.checked - x.recorded) % U32 == 0
  }

  /** A lock that a reclaimer has put back was granted since it read h_nsmstate, when that was the same. */
  ghost predicate Reclaimed(s: State, x: Reclaimer, l: Lock) {
    x.since <= l.held < |s.states| && s.states[l.held] == x.nsm
  }

  /** Installed locks were checked, and those a reclaimer has put back were granted again. */
  ghost predicate Claims(s: State) {
    && (forall l :: l in s.locks ==> InstalledRight(s.locks[l]))
    && (forall r, l :: At(s, r, Looping) && l in s.granted && l in s.locks ==>
          Reclaimed(s, s.reclaimers[r], s.locks[l]))
  }

  ghost predicate Inv(s: State) {
    Semaphore(s) && Recordings(s) && Epochs(s) && Places(s) && Claims(s)
  }

  /** Steps of a thread that wants a lock. */
  predicate OfAttempt(op: Op) {
    op.Record? || op.Reply? || op.DownRead? || op.Check? || op.Install? || op.Refused? || op.UpRead? || op.Unlock?
  }

  lemma AttemptsKeepSemaphore(s: State, op: Op)
    requires Semaphore(s) && Enabled(s, op) && OfAttempt(op)
    ensures Semaphore(Step(s, op))
  {
  }

  lemma ReclaimsKeepSemaphore(s: State, op: Op)
    requires Semaphore(s) && Enabled(s, op) && !OfAttempt(op)
    ensures Semaphore(Step(s, op))
  {
  }

  lemma SameResidue(at: nat, epoch: nat)
    requires at <= epoch && at % U32 == epoch % U32
    ensures (epoch - at) % U32 == 0
  {
  }

  lemma AttemptsKeepRecordings(s: State, op: Op)
    requires Recordings(s) && s.swept <= s.epoch && Enabled(s, op) && OfAttempt(op)
    ensures Recordings(Step(s, op))
  {
    if op.Check? && s.attempts[op.t].state == HState(s) {
      SameResidue(s.attempts[op.t].at, s.epoch);
    }
  }

  /** What a writer raises `swept` by meets no thread that has passed the check. */
  lemma ReclaimsKeepRecordings(s: State, op: Op)
    requires Recordings(s) && Enabled(s, op) && !OfAttempt(op)
    requires op.DownWrite? || (op.Notify? && s.writer.Some?) ==>
               forall t :: t in s.attempts ==> s.attempts[t].phase != Passed
    ensures Recordings(Step(s, op))
  {
  }

  lemma RecordingsKept(s: State, op: Op)
    requires Semaphore(s) && Recordings(s) && Epochs(s) && Enabled(s, op)
    ensures Recordings(Step(s, op))
  {
    if OfAttempt(op) {
      AttemptsKeepRecordings(s, op);
    } else {
      forall t | t in s.attempts && s.readers == {} ensures s.attempts[t].phase != Passed {
        assert t in s.readers <== In(s, t, Passed);
      }
      ReclaimsKeepRecordings(s, op);
    }
  }

  lemma AttemptsKeepEpochs(s: State, op: Op)
    requires Epochs(s) && Enabled(s, op) && OfAttempt(op)
    ensures Epochs(Step(s, op))
  {
  }

  lemma NotifyKeepsEpochs(s: State, state: nat)
    requires Epochs(s)
    ensures Epochs(DoNotify(s, state))
  {
  }

  lemma SpawnsKeepEpochs(s: State, op: Op)
    requires Epochs(s) && Enabled(s, op) && (op.Recover? || op.GiveUp? || op.DownWrite? || op.Exit?)
    ensures Epochs(Step(s, op))
  {
  }

  lemma SnapshotKeepsEpochs(s: State, r: Rid)
    requires Epochs(s) && r in s.reclaimers
    ensures Epochs(DoSnapshot(s, r))
  {
  }

  lemma AnswerKeepsEpochs(s: State, r: Rid, ok: bool)
    requires Epochs(s) && r in s.reclaimers && s.current.Some? && s.current.value in s.locks
    ensures Epochs(DoAnswer(s, r, ok))
  {
  }

  lemma EpochsKept(s: State, op: Op)
    requires Epochs(s) && Enabled(s, op)
    ensures Epochs(Step(s, op))
  {
    if OfAttempt(op) {
      AttemptsKeepEpochs(s, op);
    } else if op.Notify? {
      NotifyKeepsEpochs(s, op.state);
    } else if op.Recover? || op.GiveUp? || op.DownWrite? || op.Exit? {
      SpawnsKeepEpochs(s, op);
    } else if op.Snapshot? {
      SnapshotKeepsEpochs(s, op.r);
    } else if op.Answer? {
      AnswerKeepsEpochs(s, op.r, op.ok);
    }
  }

  lemma AttemptsKeepPlaces(s: State, op: Op)
    requires Places(s) && Enabled(s, op) && OfAttempt(op)
    ensures Places(Step(s, op))
  {
  }

  lemma ReclaimsKeepPlaces(s: State, op: Op)
    requires Semaphore(s) && Places(s) && Enabled(s, op) && !OfAttempt(op)
    ensures Places(Step(s, op))
  {
  }

  lemma ClaimsKept(s: State, op: Op)
    requires Inv(s) && Enabled(s, op)
    ensures Claims(Step(s, op))
  {
    if op.Install? {
      InstallKeepsClaims(s, op.t, op.l);
    } else if op.Answer? {
      AnswerKeepsClaims(s, op.r, op.ok);
    } else {
      OthersKeepClaims(s, op);
    }
  }

  lemma AnswerKeepsClaims(s: State, r: Rid, ok: bool)
    requires Semaphore(s) && Epochs(s) && Claims(s) && Enabled(s, Answer(r, ok))
    ensures Claims(DoAnswer(s, r, ok))
  {
    var s' := DoAnswer(s, r, ok);
    forall q | At(s', q, Looping) ensures q == r && At(s, r, Looping) {
      assert s.writer == Some(r);
      assert At(s, q, Looping);
    }
  }

  lemma OthersKeepClaims(s: State, op: Op)
    requires Claims(s) && Enabled(s, op) && !op.Install? && !op.Answer?
    ensures Claims(Step(s, op))
  {
  }

  /** Nothing is installed while a reclaimer is at work. */
  lemma InstallKeepsClaims(s: State, t: Tid, l: LockId)
    requires Inv(s) && Enabled(s, Install(t, l))
    ensures Claims(DoInstall(s, t, l))
  {
    assert t in s.readers;
    assert s.writer.None?;
    assert forall r: Rid :: !At(s, r, Entering) && !At(s, r, Looping);
  }

  lemma StepKeepsInv(s: State, op: Op)
    requires Inv(s) && Enabled(s, op)
    ensures Inv(Step(s, op))
  {
    if OfAttempt(op) {
      AttemptsKeepSemaphore(s, op);
      AttemptsKeepPlaces(s, op);
    } else {
      ReclaimsKeepSemaphore(s, op);
      ReclaimsKeepPlaces(s, op);
    }
    RecordingsKept(s, op);
    EpochsKept(s, op);
    ClaimsKept(s, op);
  }

  // ------------------------------------------------------------ whole runs

  /** Any interleaving; steps that cannot be taken are passed over. */
  ghost function Run(s: State, ops: seq<Op>): (s': State)
    requires Inv(s)
    ensures Inv(s')
    decreases |ops|
  {
    if ops == [] then s
    else if Enabled(s, ops[0]) then StepKeepsInv(s, ops[0]); Run(Step(s, ops[0]), ops[1..])
    else Run(s, ops[1..])
  }

  /** A host just looked up. */
  const START := State(0, 0, [0], false, 0, {}, None, map[], map[], map[], {}, {}, {}, None, {}, 0)

  lemma StartHolds()
    ensures Inv(START)
  {
  }

  /**
  Reboot safety. Whatever the interleaving, no lock recorded before a reboot was installed after a reclaimer had
  held the semaphore with that reboot notified, be it before the reclaimer got the semaphore or while it was at
  work; unless 2^32 reboots or more went by between the recording and the check.
  */
  lemma NoStaleInstall(s: State, ops: seq<Op>, l: LockId)
    requires Inv(s) && l in Run(s, ops).locks
    ensures var x := Run(s, ops).locks[l]; x.recorded < x.floor ==> x.checked - x.recorded >= U32
  {
    NoStaleLock(Run(s, ops), l);
  }

  lemma NoStaleLock(s: State, l: LockId)
    requires Inv(s) && l in s.locks
    ensures s.locks[l].recorded < s.locks[l].floor ==> s.locks[l].checked - s.locks[l].recorded >= U32
  {
    assert InstalledRight(s.locks[l]);
  }

  /** That exception is real: after exactly 2^32 reboots h_state is back at the recorded value. */
  lemma WrapLetsStaleIn(s: State, t: Tid, l: LockId)
    requires Inv(s) && Enabled(s, Check(t)) && s.epoch == s.attempts[t].at + U32 && s.attempts[t].at < s.swept
    requires l !in s.used
    ensures var s1 := Step(s, Check(t));
            Enabled(s1, Install(t, l)) && var x := Step(s1, Install(t, l)).locks[l]; x.recorded < x.floor
  {
    assert RecordedRight(s.attempts[t], s.epoch, s.swept);
    assert (s.attempts[t].at + U32) % U32 == s.attempts[t].at % U32;
  }

  /**
  The check lets a thread pass exactly when the number of reboots since it recorded the state is a multiple of
  2^32.
  */
  lemma CheckPassesIff(s: State, t: Tid)
    requires Inv(s) && Enabled(s, Check(t))
    ensures In(Step(s, Check(t)), t, Passed) <==> (s.epoch - s.attempts[t].at) % U32 == 0
  {
    var a := s.attempts[t];
    assert RecordedRight(a, s.epoch, s.swept);
    if a.state == HState(s) {
      SameResidue(a.at, s.epoch);
    } else {
      OtherResidue(a.at, s.epoch);
    }
  }

  lemma OtherResidue(at: nat, epoch: nat)
    requires at <= epoch && at % U32 != epoch % U32
    ensures (epoch - at) % U32 != 0
  {
  }

  /**
  When a reclaimer snapshots, every installed lock is on h_granted or h_reclaim, but for those an earlier
  reclaim lost.
  */
  lemma SnapshotSeesAll(s: State, r: Rid)
    requires Inv(s) && Enabled(s, Snapshot(r))
    ensures s.locks.Keys - s.lost == s.granted + s.reclaim
    ensures var s' := Step(s, Snapshot(r)); s'.reclaim == s'.locks.Keys - s'.lost && s'.granted == {}
  {
    assert s.writer == Some(r);
    assert s.current.None?;
  }

  /** The only way to be lost is a refused or abandoned reclaim of that very lock. */
  lemma LostByRefusalOnly(s: State, op: Op, l: LockId)
    requires Enabled(s, op) && l in Step(s, op).lost && l !in s.lost
    ensures op.Answer? && !op.ok && s.current == Some(l)
  {
  }

  /** When a reclaimer leaves, every installed lock was lost or granted anew since it read the server's state. */
  lemma ExitComplete(s: State, r: Rid, l: LockId)
    requires Inv(s) && Enabled(s, Exit(r)) && l in s.locks && l !in s.lost
    ensures l in s.granted && Reclaimed(s, s.reclaimers[r], s.locks[l])
    ensures s.reclaimers[r].since >= s.reclaimers[r].reboot
  {
    assert l in s.granted;
    assert Reclaimed(s, s.reclaimers[r], s.locks[l]);
  }

  /**
  Whether they were granted by the server as it is now: for a server that never goes back to a state number, every
  one of them was, exactly when no reboot has been notified since the reclaimer read that number, or there is no
  lock.
  */
  lemma ExitCurrentIff(s: State, r: Rid)
    requires Inv(s) && Enabled(s, Exit(r))
    requires forall i :: s.reclaimers[r].since < i < |s.states| ==> s.states[i] != s.reclaimers[r].nsm
    ensures (forall l :: l in s.locks && l !in s.lost ==> s.locks[l].held == s.epoch) <==>
            s.reclaimers[r].since == s.epoch || s.locks.Keys <= s.lost
  {
    forall l | l in s.locks && l !in s.lost ensures s.locks[l].held == s.reclaimers[r].since {
      ExitComplete(s, r, l);
    }
    if s.reclaimers[r].since != s.epoch && !(s.locks.Keys <= s.lost) {
      var l :| l in s.locks.Keys && l !in s.lost;
      assert s.locks[l].held != s.epoch;
    }
  }

  /**
  The failing case: a reboot notified after the last lock is reclaimed and before the reclaimer leaves. The
  notification only clears h_reclaiming and starts nobody, the reclaimer leaves, and the lock stays with the server
  before the reboot.
  */
  lemma LateRebootIsMissed(s: State, r: Rid, l: LockId, q: Rid, state: nat)
    requires Inv(s) && Enabled(s, Exit(r)) && s.reclaiming && l in s.granted && state != s.nsm && q !in s.reclaimers
    ensures var s1 := Step(s, Notify(state));
            Enabled(s1, Recover(q, true)) &&
            var s2 := Step(s1, Recover(q, true));
            Enabled(s2, Exit(r)) &&
            var s3 := Step(s2, Exit(r));
            && s3.notices == s.notices && s3.reclaimers.Keys == s.reclaimers.Keys && s3.writer.None?
            && l in s3.granted && l in s3.locks && s3.locks[l].held < s3.epoch
  {
    assert Reclaimed(s, s.reclaimers[r], s.locks[l]);
  }

  /** While a reclaimer holds the semaphore no thread is between check and installation. */
  lemma NoneBetweenCheckAndInstall(s: State, t: Tid)
    requires Inv(s) && s.writer.Some?
    ensures !In(s, t, Checking) && !In(s, t, Passed) && !In(s, t, Installed)
  {
    assert t !in s.readers;
  }
}
