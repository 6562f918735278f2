/**
NFSv4 delegations on one client (bundle/fs/nfs/delegation.c and the dentry tag of
bundle/fs/nfs/dir.c).

The state machine below has one step for each critical section of the source: what a
thread does under cl_lock or under a delegation's own lock is one step, and so is what a
walk over a list does to one delegation.  Everything between two such steps may be
interleaved with steps of other threads.
 */
module Delegation {
  import opened Common

  type InodeId = nat
  type DelegId = nat
  type ServerId = nat
  type DentryId = nat

  /** The nine flag bits of struct nfs_delegation. */
  datatype Flags = Flags(
    needReclaim: bool, ret: bool, retIfClosed: bool, referenced: bool, returning: bool,
    revoked: bool, testExpired: bool, inodeFreeing: bool, retDelayed: bool)

  datatype Stateid = Stateid(other: nat, seqid: nat)

  /** struct nfs_delegation; every granted type includes read, `write` is FMODE_WRITE. */
  datatype Deleg = Deleg(
    stateid: Stateid, write: bool, inode: Option<InodeId>, server: ServerId, refcount: int, flags: Flags)

  /**
  The client.  `returning`, `rpcs`, `held` and `clears` record what threads are in the
  middle of: a return between its start and its end, a DELEGRETURN call on the wire, a
  detached delegation that its thread has yet to free, and an inode whose dentry tags a
  thread is about to clear.  `walk` holds the delegations that a walk over the lists, begun
  when the client-wide flag of delayed returns was cleared, has yet to visit.  `discarded`
  counts the duplicate grants thrown away.  `home` is the inode that each delegation was made
  for, and `bearer` the delegation that ever bore a stateid.
   */
  datatype State = State(
    delegs: map<DelegId, Deleg>,
    used: set<DelegId>,
    inodes: map<InodeId, DelegId>,
    lists: map<ServerId, seq<DelegId>>,
    active: int,
    discarded: nat,
    returning: multiset<DelegId>,
    rpcs: multiset<DelegId>,
    held: set<DelegId>,
    delegReturn: bool,
    delayed: bool,
    walk: set<DelegId>,
    home: map<DelegId, InodeId>,
    bearer: map<nat, DelegId>,
    alias: map<DentryId, InodeId>,
    tagged: set<DentryId>,
    clears: multiset<InodeId>)

  // ------------------------------------------------------------ building blocks

  predicate Attached(s: State, d: DelegId) {
    d in s.delegs && s.delegs[d].inode.Some?
  }

  /** nfs4_is_valid_delegation for the delegation of inode i, with FMODE_READ. */
  predicate ValidRead(s: State, i: InodeId) {
    i in s.inodes && s.inodes[i] in s.delegs &&
    var f := s.delegs[s.inodes[i]].flags;
    !f.revoked && !f.returning
  }

  /** nfs_put_delegation of d, which has just become x. */
  function Release(s: State, d: DelegId, x: Deleg): State {
    s.(delegs := if x.refcount == 1 then s.delegs - {d} else s.delegs[d := x.(refcount := x.refcount - 1)])
  }

  function WithFlags(s: State, d: DelegId, f: Flags): State
    requires d in s.delegs
  {
    s.(delegs := s.delegs[d := s.delegs[d].(flags := f)])
  }

  /**
  nfs_mark_delegation_revoked on d, whose sequence number has just become seqid; the
  tag is cleared in a later step.
   */
  function MarkRevoked(s: State, d: DelegId, seqid: nat): State
    requires d in s.delegs
  {
    var x := s.delegs[d];
    s.(delegs := s.delegs[d := x.(stateid := x.stateid.(seqid := seqid), flags := x.flags.(revoked := true))],
       active := if x.flags.revoked then s.active else s.active - 1,
       clears := if !x.flags.revoked && !x.flags.returning && x.inode.Some? then s.clears + multiset{x.inode.value}
                 else s.clears)
  }

  /** nfs_detach_delegation_locked: the attachment's reference passes to the caller. */
  function Detach(s: State, d: DelegId): State
    requires Attached(s, d) && s.delegs[d].server in s.lists
  {
    var x := s.delegs[d];
    s.(delegs := s.delegs[d := x.(inode := None)],
       inodes := s.inodes - {x.inode.value},
       lists := s.lists[x.server := Without(s.lists[x.server], d)],
       held := s.held + {d})
  }

  const NEW_FLAGS := Flags(false, false, false, true, false, false, false, false, false)

  /** The add_new part of nfs_inode_set_delegation. */
  function Attach(s: State, d: DelegId, server: ServerId, i: InodeId, write: bool, sid: Stateid): State
    requires server in s.lists
  {
    s.(delegs := s.delegs[d := Deleg(sid, write, Some(i), server, 1, NEW_FLAGS)],
       used := s.used + {d},
       inodes := s.inodes[i := d],
       lists := s.lists[server := s.lists[server] + [d]],
       home := s.home[d := i],
       bearer := s.bearer[sid.other := d],
       active := s.active + 1)
  }

  /** Delegation d becomes x and is revoked no longer. */
  function Renew(s: State, d: DelegId, x: Deleg): State
    requires d in s.delegs
  {
    s.(delegs := s.delegs[d := x.(flags := x.flags.(revoked := false))],
       bearer := s.bearer[x.stateid.other := d],
       active := if s.delegs[d].flags.revoked then s.active + 1 else s.active)
  }

  /** nfs_update_inplace_delegation. */
  function UpdateInPlace(s: State, d: DelegId, write: bool, sid: Stateid): State
    requires d in s.delegs
  {
    var x := s.delegs[d];
    if !Newer32(sid.seqid, x.stateid.seqid) then s
    else Renew(s, d, x.(stateid := x.stateid.(seqid := sid.seqid), write := write))
  }

  /** Set the RETURNING bit and take the reference of the return (both start paths). */
  function BeginReturn(s: State, d: DelegId, f: Flags): State
    requires Attached(s, d)
  {
    var x := s.delegs[d];
    s.(delegs := s.delegs[d := x.(flags := f.(returning := true), refcount := x.refcount + 1)],
       returning := s.returning + multiset{d},
       clears := s.clears + multiset{x.inode.value})
  }

  // ------------------------------------------------------------ the steps

  datatype Op =
    | Grant(server: ServerId, inode: InodeId, write: bool, sid: Stateid, id: DelegId)
    | Reclaim(server: ServerId, inode: InodeId, write: bool, sid: Stateid, id: DelegId)
    | Start(inode: InodeId)
    | OnClose(inode: InodeId, isOpen: bool, crowded: bool)
    | Abort(d: DelegId, again: bool)
    | Finish(d: DelegId, call: bool)
    | Returned(d: DelegId, sid: Stateid)
    | Revoke(inode: InodeId, which: Option<Stateid>)
    | Evict(inode: InodeId)
    | ReapDetach(d: DelegId)
    | FreeHeld(d: DelegId)
    | Recall(inode: InodeId)
    | Mark(d: DelegId)
    | MarkIfClosed(d: DelegId)
    | Pick(d: DelegId, isOpen: bool, grabbed: bool)
    | TakeDelayed
    | Visit(d: DelegId)
    | SetVerifier(dentry: DentryId)
    | ClearVerifier(inode: InodeId)
    | Annotate(d: DelegId, needReclaim: bool, referenced: bool, testExpired: bool)

  /** The server does not give one stateid to two delegations. */
  predicate Names(s: State, i: InodeId, other: nat) {
    other in s.bearer ==> i in s.inodes && s.bearer[other] == s.inodes[i]
  }

  /** What a thread must be in the middle of, or must be given, to take the step. */
  predicate Enabled(s: State, op: Op) {
    match op
    case Grant(server, i, _, sid, id) =>
      && server in s.lists && id !in s.used && Names(s, i, sid.other)
      && (sid.other in s.bearer ==> s.inodes[i] in s.delegs && s.delegs[s.inodes[i]].stateid.other == sid.other)
    case Reclaim(server, i, _, sid, id) => server in s.lists && id !in s.used && Names(s, i, sid.other)
    case Abort(d, _) => d in s.returning
    case Finish(d, _) => d in s.returning
    case Returned(d, sid) => d in s.rpcs && sid.other in s.bearer && s.bearer[sid.other] == d
    case Evict(i) => forall t :: t in s.alias && s.alias[t] == i ==> t !in s.tagged
    case ReapDetach(d) => d in s.returning
    case FreeHeld(d) => d in s.held
    case Mark(d) => Attached(s, d)
    case Visit(d) => d in s.walk
    case MarkIfClosed(d) => Attached(s, d)
    case Pick(d, _, _) => Attached(s, d)
    case SetVerifier(t) => t in s.alias
    case ClearVerifier(i) => i in s.clears
    case Annotate(d, _, _, _) => Attached(s, d)
    case _ => true
  }

  /** A duplicate grant is freed, through the path that decrements the counter. */
  function Discard(s: State, i: InodeId): State {
    s.(active := s.active - 1, discarded := s.discarded + 1, clears := s.clears + multiset{i})
  }

  /** The delegation of inode i, whose flags have just become f, is detached and gives way to a new one. */
  function Replace(s: State, d: DelegId, f: Flags, id: DelegId, server: ServerId, i: InodeId, write: bool,
                   sid: Stateid): State
    requires Attached(s, d) && s.delegs[d].server in s.lists && server in s.lists
  {
    Attach(Detach(WithFlags(s, d, f), d), id, server, i, write, sid)
  }

  /** nfs_inode_set_delegation up to the release of cl_lock. */
  function DoGrant(s: State, server: ServerId, i: InodeId, write: bool, sid: Stateid, id: DelegId): State
    requires Pointers(s) && server in s.lists
  {
    if i !in s.inodes then Attach(s, id, server, i, write, sid)
    else
      var d := s.inodes[i];
      var x := s.delegs[d];
      if x.stateid.other == sid.other then UpdateInPlace(s, d, write, sid)
      else if x.flags.revoked then Replace(s, d, x.flags, id, server, i, write, sid)
      else if write == x.write || !write then Discard(s, i)
      else if x.flags.returning then s
      else Replace(s, d, x.flags.(returning := true), id, server, i, write, sid)
  }

  /** nfs_inode_reclaim_delegation. */
  function DoReclaim(s: State, server: ServerId, i: InodeId, write: bool, sid: Stateid, id: DelegId): State
    requires Pointers(s) && server in s.lists
  {
    if i !in s.inodes then DoGrant(s, server, i, write, sid, id)
    else
      var d := s.inodes[i];
      var x := s.delegs[d];
      Renew(s, d, x.(stateid := sid, write := write, flags := x.flags.(needReclaim := false)))
  }

  /** nfs_start_delegation_return_locked. */
  function DoStart(s: State, i: InodeId): State
    requires Pointers(s)
  {
    if i !in s.inodes then s
    else
      var d := s.inodes[i];
      var f := s.delegs[d].flags;
      if f.returning then s else BeginReturn(s, d, f.(retDelayed := false))
  }

  /** nfs4_inode_return_delegation_on_close up to the end of its critical section. */
  function DoOnClose(s: State, i: InodeId, isOpen: bool, crowded: bool): State
    requires Pointers(s)
  {
    if !ValidRead(s, i) then s
    else
      var d := s.inodes[i];
      var f := s.delegs[d].flags;
      if (f.retIfClosed || crowded) && !isOpen then BeginReturn(s, d, f.(retIfClosed := false)) else s
  }

  /** nfs_abort_delegation_return, and the nfs_put_delegation after it. */
  function DoAbort(s: State, d: DelegId, again: bool): State
    requires d in s.delegs && d in s.returning
  {
    var x := s.delegs[d];
    Release(s.(delayed := s.delayed || again, returning := s.returning - multiset{d}), d,
            x.(flags := x.flags.(returning := false, retDelayed := x.flags.retDelayed || again)))
  }

  /** nfs_do_return_delegation, and the nfs_put_delegation after it. */
  function DoFinish(s: State, d: DelegId, call: bool): State
    requires d in s.delegs && d in s.returning
  {
    var rpcs := if call && !s.delegs[d].flags.revoked then s.rpcs + multiset{d} else s.rpcs;
    Release(s.(returning := s.returning - multiset{d}, rpcs := rpcs), d, s.delegs[d])
  }

  /** RETURNING of delegation d ends, and unless it has been granted anew meanwhile it is marked as revoked. */
  function MarkReturned(s: State, d: DelegId, sid: Stateid): State
    requires Attached(s, d)
  {
    var x := s.delegs[d];
    var renewed := sid.seqid != 0 && Newer32(x.stateid.seqid, sid.seqid);
    var seqid := if sid.seqid != 0 && !renewed then sid.seqid else x.stateid.seqid;
    var revokes := !renewed && !x.flags.revoked;
    s.(delegs := s.delegs[d := x.(stateid := x.stateid.(seqid := seqid),
                                  flags := x.flags.(returning := false, revoked := x.flags.revoked || revokes))],
       active := if revokes then s.active - 1 else s.active,
       clears := if revokes && !x.flags.returning then s.clears + multiset{x.inode.value} else s.clears)
  }

  /**
  nfs_delegation_mark_returned, when the DELEGRETURN of d, sent with stateid sid, completes: it acts on the delegation
  that the inode has by then, if that bears the stateid.
   */
  function DoReturned(s: State, d: DelegId, sid: Stateid): State
    requires Pointers(s) && d in s.rpcs
  {
    var s1 := s.(rpcs := s.rpcs - multiset{d});
    if d !in s.home || s.home[d] !in s.inodes then s1
    else
      var e := s.inodes[s.home[d]];
      if s.delegs[e].stateid.other != sid.other then s1 else MarkReturned(s1, e, sid)
  }

  /** nfs_revoke_delegation. */
  function DoRevoke(s: State, i: InodeId, which: Option<Stateid>): State
    requires Pointers(s)
  {
    if i !in s.inodes then s
    else
      var d := s.inodes[i];
      var x := s.delegs[d];
      if which.None? then MarkRevoked(s, d, x.stateid.seqid)
      else if which.value.other != x.stateid.other then s
      else if which.value.seqid == 0 then MarkRevoked(s, d, x.stateid.seqid)
      else if Newer32(x.stateid.seqid, which.value.seqid) then s
      else MarkRevoked(s, d, which.value.seqid)
  }

  /** nfs_inode_evict_delegation up to its call to the server. */
  function DoEvict(s: State, i: InodeId): State
    requires Pointers(s)
  {
    if i !in s.inodes then s
    else
      var d := s.inodes[i];
      var s1 := Detach(s, d);
      WithFlags(s1, d, s1.delegs[d].flags.(returning := true, inodeFreeing := true))
  }

  /** nfs_free_delegation of a detached delegation: revoke it, then drop the reference. */
  function DoFree(s: State, d: DelegId): State
    requires d in s.delegs && d in s.held
  {
    var x := s.delegs[d];
    Release(s.(held := s.held - {d}, active := if x.flags.revoked then s.active else s.active - 1), d,
            x.(flags := x.flags.(revoked := true)))
  }

  /** nfs_delegation_need_return: the flags it leaves and its answer. */
  function NeedReturn(f: Flags, isOpen: bool): (r: (Flags, bool)) {
    var want := f.ret || (f.retIfClosed && !isOpen);
    (f.(ret := false, retIfClosed := f.retIfClosed && !want),
     want && !f.returning && !f.retDelayed && !f.revoked)
  }

  /** The bits ask for a return: one is set, and the file closed where it matters. */
  predicate Asked(f: Flags, isOpen: bool) {
    f.ret || (f.retIfClosed && !isOpen)
  }

  /** The bits say that there is nothing to return now: a return is under way or put off, or it would be pointless. */
  predicate Barred(f: Flags) {
    f.returning || f.retDelayed || f.revoked
  }

  /** It answers yes exactly for what is asked and not barred; a request is taken note of once, and nothing else. */
  lemma NeedReturnMeans(f: Flags, isOpen: bool)
    ensures NeedReturn(f, isOpen).1 <==> Asked(f, isOpen) && !Barred(f)
    ensures var f' := NeedReturn(f, isOpen).0;
            && !f'.ret && (f'.retIfClosed <==> f.retIfClosed && !f.ret && isOpen)
            && f'.(ret := f.ret, retIfClosed := f.retIfClosed) == f
  {
  }

  /** One element of the loop of nfs_server_return_marked_delegations. */
  function DoPick(s: State, d: DelegId, isOpen: bool, grabbed: bool): State
    requires Attached(s, d)
  {
    var f := s.delegs[d].flags;
    if f.inodeFreeing then s
    else
      var (f', need) := NeedReturn(f, isOpen);
      if !need then WithFlags(s, d, f')
      else if !grabbed then WithFlags(s, d, f'.(inodeFreeing := true))
      else BeginReturn(s, d, f'.(retDelayed := false))
  }

  /**
  The beginning of nfs_client_clear_delayed_delegations: the client-wide flag goes, and the walk has all lists
  ahead.
  */
  function DoTakeDelayed(s: State): State {
    if !s.delayed then s
    else s.(delayed := false, walk := s.walk + set d | d in s.delegs && s.delegs[d].inode.Some?)
  }

  /** nfs_server_clear_delayed_delegations at delegation d, which may have been detached meanwhile. */
  function DoVisit(s: State, d: DelegId): State {
    var due := Attached(s, d) && s.delegs[d].flags.retDelayed;
    s.(walk := s.walk - {d},
       delegs := if due then s.delegs[d := s.delegs[d].(flags := s.delegs[d].flags.(ret := true, retDelayed := false))]
                 else s.delegs,
       delegReturn := s.delegReturn || due)
  }

  /** nfs_async_inode_return_delegation: the server recalls the delegation of inode i. */
  function DoRecall(s: State, i: InodeId): State {
    if !ValidRead(s, i) then s
    else WithFlags(s, s.inodes[i], s.delegs[s.inodes[i]].flags.(ret := true)).(delegReturn := true)
  }

  /**
  nfs_mark_return_delegation: what nfs_server_mark_return_all_delegations and its like do to each delegation
  they meet.
  */
  function DoMark(s: State, d: DelegId): State
    requires d in s.delegs
  {
    WithFlags(s, d, s.delegs[d].flags.(ret := true)).(delegReturn := true)
  }

  /** nfs_mark_return_if_closed_delegation. */
  function DoMarkIfClosed(s: State, d: DelegId): State
    requires d in s.delegs
  {
    WithFlags(s, d, s.delegs[d].flags.(retIfClosed := true)).(delegReturn := true)
  }

  /** The other flags, which matter to nothing here. */
  function DoAnnotate(s: State, d: DelegId, needReclaim: bool, referenced: bool, testExpired: bool): State
    requires d in s.delegs
  {
    var f := s.delegs[d].flags.(needReclaim := needReclaim, referenced := referenced, testExpired := testExpired);
    WithFlags(s, d, f)
  }

  /** The detachment in nfs_server_reap_unclaimed_delegations, by the thread that started the return. */
  function DoReapDetach(s: State, d: DelegId): State
    requires Pointers(s)
  {
    if Attached(s, d) then Detach(s, d) else s
  }

  /** nfs_set_verifier. */
  function DoSetVerifier(s: State, t: DentryId): State
    requires t in s.alias
  {
    s.(tagged := if ValidRead(s, s.alias[t]) then s.tagged + {t} else s.tagged - {t})
  }

  /** nfs_clear_verifier_delegated. */
  function DoClearVerifier(s: State, i: InodeId): State {
    s.(tagged := (set t | t in s.tagged && !(t in s.alias && s.alias[t] == i)), clears := s.clears - multiset{i})
  }

  function Step(s: State, op: Op): State
    requires Pointers(s) && Owned(s) && Enabled(s, op)
  {
    match op
    case Grant(server, i, w, sid, id) => DoGrant(s, server, i, w, sid, id)
    case Reclaim(server, i, w, sid, id) => DoReclaim(s, server, i, w, sid, id)
    case Start(i) => DoStart(s, i)
    case OnClose(i, isOpen, crowded) => DoOnClose(s, i, isOpen, crowded)
    case Abort(d, again) => DoAbort(s, d, again)
    case Finish(d, call) => DoFinish(s, d, call)
    case Returned(d, sid) => DoReturned(s, d, sid)
    case Revoke(i, which) => DoRevoke(s, i, which)
    case Evict(i) => DoEvict(s, i)
    case ReapDetach(d) => DoReapDetach(s, d)
    case FreeHeld(d) => DoFree(s, d)
    case Recall(i) => DoRecall(s, i)
    case Mark(d) => DoMark(s, d)
    case MarkIfClosed(d) => DoMarkIfClosed(s, d)
    case Pick(d, isOpen, grabbed) => DoPick(s, d, isOpen, grabbed)
    case TakeDelayed => DoTakeDelayed(s)
    case Visit(d) => DoVisit(s, d)
    case SetVerifier(t) => DoSetVerifier(s, t)
    case ClearVerifier(i) => DoClearVerifier(s, i)
    case Annotate(d, n, r, e) => DoAnnotate(s, d, n, r, e)
  }

  // ------------------------------------------------------------ the invariant

  /** Inode and delegation point at each other, and the lists hold what is attached. */
  ghost predicate Pointers(s: State) {
    && (forall i :: i in s.inodes ==> s.inodes[i] in s.delegs && s.delegs[s.inodes[i]].inode == Some(i))
    && (forall d :: d in s.delegs && s.delegs[d].inode.Some? ==>
          s.delegs[d].inode.value in s.inodes && s.inodes[s.delegs[d].inode.value] == d)
    && (forall d :: Attached(s, d) ==> s.delegs[d].server in s.lists)
    && s.delegs.Keys <= s.used
  }

  /** A delegation is on a server's list exactly when it is attached and of that server. */
  ghost predicate Lists(s: State) {
    && (forall v :: v in s.lists ==> Distinct(s.lists[v]))
    && (forall v, d :: v in s.lists ==> (d in s.lists[v] <==> Attached(s, d) && s.delegs[d].server == v))
  }

  /** What a thread is in the middle of returning or freeing has not been freed. */
  ghost predicate Owned(s: State) {
    && (forall d :: d in s.returning || d in s.held ==> d in s.delegs)
    && (forall d :: d in s.rpcs ==> d in s.used)
  }

  /** One reference for the attachment or its holder, and one for each return in progress. */
  ghost predicate References(s: State) {
    && (forall d :: d in s.delegs ==>
          s.delegs[d].refcount == Bit(Attached(s, d)) + Bit(d in s.held) + s.returning[d] && s.delegs[d].refcount >= 1)
    && (forall d :: d in s.held ==> !Attached(s, d))
  }

  /** The delegations that nfs_active_delegations is meant to count. */
  ghost function Counted(s: State): set<DelegId> {
    set d | d in s.delegs && !s.delegs[d].flags.revoked && (Attached(s, d) || d in s.held)
  }

  ghost predicate Counter(s: State) {
    s.active == |Counted(s)| - s.discarded
  }

  /** An attached delegation has at most one return under way, and then RETURNING is set. */
  ghost predicate Single(s: State) {
    forall d :: Attached(s, d) ==> s.returning[d] + s.rpcs[d] <= Bit(s.delegs[d].flags.returning)
  }

  /** A delayed return is never forgotten: the client-wide flag tells of it, or a walk under way will come to it. */
  ghost predicate Delayed(s: State) {
    forall d :: Attached(s, d) && s.delegs[d].flags.retDelayed ==> s.delayed || d in s.walk
  }

  /** A tagged dentry has a live delegation, or a thread is about to clear its tag. */
  ghost predicate Tags(s: State) {
    forall t :: t in s.tagged ==> t in s.alias && (ValidRead(s, s.alias[t]) || s.alias[t] in s.clears)
  }

  /** The record of homes and stateids is right about what is attached. */
  ghost predicate Named(s: State) {
    && s.home.Keys == s.used
    && (forall d :: Attached(s, d) ==> NamedRight(s, d))
  }

  ghost predicate NamedRight(s: State, d: DelegId)
    requires Attached(s, d)
  {
    var x := s.delegs[d];
    d in s.home && s.home[d] == x.inode.value && x.stateid.other in s.bearer && s.bearer[x.stateid.other] == d
  }

  ghost predicate Inv(s: State) {
    Pointers(s) && Owned(s) && Lists(s) && References(s) && Counter(s) && Single(s) && Delayed(s) && Named(s) && Tags(s)
  }
}
