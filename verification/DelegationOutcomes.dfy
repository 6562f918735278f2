/** What each step of the delegation machine comes to, told by the bits and pointers it finds. */
module DelegationOutcomes {
  import opened Common
  import opened Delegation
  import opened DelegationInvariant

  /** No delegation outside ds has changed, come or gone. */
  ghost predicate Only(s: State, s': State, ds: set<DelegId>) {
    forall d :: d !in ds ==> (d in s'.delegs <==> d in s.delegs) && (d in s.delegs ==> s'.delegs[d] == s.delegs[d])
  }

  /** No inode but i points elsewhere than before. */
  ghost predicate OnlyInode(s: State, s': State, i: InodeId) {
    forall j :: j != i ==> (j in s'.inodes <==> j in s.inodes) && (j in s.inodes ==> s'.inodes[j] == s.inodes[j])
  }

  // ------------------------------------------------------------ grants

  /**
  The inode is to point at the new delegation: it has none; or the one it has bears another stateid, and is revoked, or
  is for reading where the new one is for writing, and not being returned.
  */
  predicate GivesWay(s: State, i: InodeId, write: bool, other: nat)
    requires i in s.inodes ==> s.inodes[i] in s.delegs
  {
    i in s.inodes ==>
      var x := s.delegs[s.inodes[i]];
      x.stateid.other != other && (x.flags.revoked || (write && !x.write && !x.flags.returning))
  }

  /** The inode's delegation bears the stateid, and an older sequence number. */
  predicate IsRenewed(s: State, i: InodeId, sid: Stateid)
    requires i in s.inodes ==> s.inodes[i] in s.delegs
  {
    i in s.inodes &&
    var x := s.delegs[s.inodes[i]];
    x.stateid.other == sid.other && Newer32(sid.seqid, x.stateid.seqid)
  }

  /** A new delegation is marked as used, and in no other way. */
  lemma NewIsReferenced()
    ensures NEW_FLAGS == Flags(needReclaim := false, ret := false, retIfClosed := false, referenced := true,
                               returning := false, revoked := false, testExpired := false, inodeFreeing := false,
                               retDelayed := false)
  {
  }

  /** The inode points at delegation id, which is x, and no other inode points elsewhere than before. */
  ghost predicate Given(s: State, s': State, i: InodeId, id: DelegId, x: Deleg) {
    i in s'.inodes && s'.inodes[i] == id && id in s'.delegs && s'.delegs[id] == x && OnlyInode(s, s', i)
  }

  /** What an inode points at after a grant, and with what stateid and type. */
  lemma GrantOutcome(s: State, v: ServerId, i: InodeId, w: bool, sid: Stateid, id: DelegId)
    requires Pointers(s) && v in s.lists && id !in s.used
    ensures var s' := DoGrant(s, v, i, w, sid, id);
            if GivesWay(s, i, w, sid.other) then
              && Given(s, s', i, id, Deleg(sid, w, Some(i), v, 1, NEW_FLAGS))
              && (i !in s.inodes ==> Only(s, s', {id}) && s'.held == s.held)
              && (i in s.inodes ==> HeldBack(s, s', s.inodes[i], id))
            else
              && var x := s.delegs[s.inodes[i]];
              && Given(s, s', i, s.inodes[i],
                       if IsRenewed(s, i, sid) then x.(stateid := sid, write := w, flags := x.flags.(revoked := false))
                       else x)
              && Only(s, s', {s.inodes[i]}) && s'.held == s.held
  {
    if i !in s.inodes {
      AttachOutcome(s, id, v, i, w, sid);
    } else {
      var d := s.inodes[i];
      var x := s.delegs[d];
      if x.stateid.other == sid.other {
        UpdateOutcome(s, i, w, sid);
      } else if x.flags.revoked {
        ReplaceOutcome(s, d, x.flags, id, v, i, w, sid);
      } else if w && !x.write && !x.flags.returning {
        ReplaceOutcome(s, d, x.flags.(returning := true), id, v, i, w, sid);
      }
    }
  }

  /** The delegation that gave way is off its inode, for the caller to return and free, and marked as being returned. */
  ghost predicate HeldBack(s: State, s': State, d: DelegId, id: DelegId) {
    && Only(s, s', {id, d}) && s'.held == s.held + {d} && d in s.delegs && d in s'.delegs
    && var x := s.delegs[d];
    s'.delegs[d] == x.(inode := None, flags := x.flags.(returning := x.flags.returning || !x.flags.revoked))
  }

  lemma AttachOutcome(s: State, id: DelegId, v: ServerId, i: InodeId, w: bool, sid: Stateid)
    requires v in s.lists
    ensures var s' := Attach(s, id, v, i, w, sid);
            Given(s, s', i, id, Deleg(sid, w, Some(i), v, 1, NEW_FLAGS)) && Only(s, s', {id}) && s'.held == s.held
  {
  }

  lemma ReplaceOutcome(s: State, d: DelegId, f: Flags, id: DelegId, v: ServerId, i: InodeId, w: bool, sid: Stateid)
    requires Attached(s, d) && s.delegs[d].server in s.lists && v in s.lists && s.delegs[d].inode == Some(i) && id != d
    requires f == s.delegs[d].flags.(returning := s.delegs[d].flags.returning || !s.delegs[d].flags.revoked)
    ensures var s' := Replace(s, d, f, id, v, i, w, sid);
            Given(s, s', i, id, Deleg(sid, w, Some(i), v, 1, NEW_FLAGS)) && HeldBack(s, s', d, id)
  {
  }

  lemma UpdateOutcome(s: State, i: InodeId, w: bool, sid: Stateid)
    requires Pointers(s) && i in s.inodes && s.delegs[s.inodes[i]].stateid.other == sid.other
    ensures var d := s.inodes[i];
            var s', x := UpdateInPlace(s, d, w, sid), s.delegs[d];
            && Given(s, s', i, d, if IsRenewed(s, i, sid)
                                  then x.(stateid := sid, write := w, flags := x.flags.(revoked := false)) else x)
            && Only(s, s', {d}) && s'.held == s.held
  {
  }

  /** How a grant is counted: a new one and a revived one up, a duplicate that is thrown away down. */
  lemma GrantCounts(s: State, v: ServerId, i: InodeId, w: bool, sid: Stateid, id: DelegId)
    requires Pointers(s) && v in s.lists && id !in s.used
    ensures var s' := DoGrant(s, v, i, w, sid, id);
            && (GivesWay(s, i, w, sid.other) ==> s'.active == s.active + 1)
            && (!GivesWay(s, i, w, sid.other) ==>
                  var x := s.delegs[s.inodes[i]];
                  var discards := x.stateid.other != sid.other && !x.flags.revoked && (x.write || !w);
                  && s'.discarded == s.discarded + Bit(discards)
                  && s'.clears == s.clears + (if discards then multiset{i} else multiset{})
                  && s'.active == s.active + Bit(IsRenewed(s, i, sid) && x.flags.revoked) - Bit(discards))
  {
    if i in s.inodes {
      var d := s.inodes[i];
      var x := s.delegs[d];
      if x.stateid.other == sid.other {
        UpdateCounts(s, d, w, sid);
      } else if x.flags.revoked {
        ReplaceCounts(s, d, x.flags, id, v, i, w, sid);
      } else if w && !x.write && !x.flags.returning {
        ReplaceCounts(s, d, x.flags.(returning := true), id, v, i, w, sid);
      }
    }
  }

  lemma ReplaceCounts(s: State, d: DelegId, f: Flags, id: DelegId, v: ServerId, i: InodeId, w: bool, sid: Stateid)
    requires Attached(s, d) && s.delegs[d].server in s.lists && v in s.lists
    ensures var s' := Replace(s, d, f, id, v, i, w, sid); s'.active == s.active + 1 && s'.discarded == s.discarded
  {
  }

  lemma UpdateCounts(s: State, d: DelegId, w: bool, sid: Stateid)
    requires d in s.delegs
    ensures var s', x := UpdateInPlace(s, d, w, sid), s.delegs[d];
            && s'.active == s.active + Bit(Newer32(sid.seqid, x.stateid.seqid) && x.flags.revoked)
            && s'.discarded == s.discarded && s'.clears == s.clears
  {
  }

  /** A reclaim renews the inode's delegation whatever its stateid was; without one it is a grant. */
  lemma ReclaimOutcome(s: State, v: ServerId, i: InodeId, w: bool, sid: Stateid, id: DelegId)
    requires Pointers(s) && v in s.lists && id !in s.used
    ensures var s' := DoReclaim(s, v, i, w, sid, id);
            && (i !in s.inodes ==> s' == DoGrant(s, v, i, w, sid, id))
            && (i in s.inodes ==>
                  var d := s.inodes[i];
                  var x := s.delegs[d];
                  && s'.inodes == s.inodes && Only(s, s', {d}) && d in s'.delegs
                  && s'.delegs[d] ==
                     x.(stateid := sid, write := w, flags := x.flags.(needReclaim := false, revoked := false))
                  && s'.active == s.active + Bit(x.flags.revoked))
  {
  }

  // ------------------------------------------------------------ returns

  /** A return of d has been started from flags f. */
  ghost predicate Started(s: State, s': State, d: DelegId, f: Flags)
    requires d in s.delegs && s.delegs[d].inode.Some?
  {
    var x := s.delegs[d];
    && d in s'.delegs && s'.delegs[d] == x.(flags := f.(returning := true), refcount := x.refcount + 1)
    && s'.returning == s.returning + multiset{d} && s'.clears == s.clears + multiset{x.inode.value}
    && Only(s, s', {d}) && s'.inodes == s.inodes
  }

  /** A return begins exactly if the inode has a delegation that is not being returned. */
  lemma StartOutcome(s: State, i: InodeId)
    requires Pointers(s)
    ensures var s' := DoStart(s, i);
            if i in s.inodes && !s.delegs[s.inodes[i]].flags.returning
            then Started(s, s', s.inodes[i], s.delegs[s.inodes[i]].flags.(retDelayed := false)) else s' == s
  {
  }

  /** On close: exactly for a valid delegation of a closed file that is marked, or when there are too many. */
  lemma OnCloseOutcome(s: State, i: InodeId, isOpen: bool, crowded: bool)
    requires Pointers(s)
    ensures var s' := DoOnClose(s, i, isOpen, crowded);
            if i in s.inodes && var f := s.delegs[s.inodes[i]].flags;
               !f.revoked && !f.returning && !isOpen && (f.retIfClosed || crowded)
            then Started(s, s', s.inodes[i], s.delegs[s.inodes[i]].flags.(retIfClosed := false)) else s' == s
  {
    if ValidRead(s, i) {
      BeginOutcome(s, s.inodes[i], s.delegs[s.inodes[i]].flags.(retIfClosed := false));
    }
  }

  /** The loop over the list: exactly for what is asked, not barred, and whose inode is there. */
  lemma PickOutcome(s: State, d: DelegId, isOpen: bool, grabbed: bool)
    requires Attached(s, d)
    ensures var s', f := DoPick(s, d, isOpen, grabbed), s.delegs[d].flags;
            if f.inodeFreeing then s' == s
            else if Asked(f, isOpen) && !Barred(f)
            then if grabbed then Started(s, s', d, f.(ret := false, retIfClosed := false))
                 else Flagged(s, s', d, f.(ret := false, retIfClosed := false, inodeFreeing := true))
            else Flagged(s, s', d, f.(ret := false, retIfClosed := f.retIfClosed && !f.ret && isOpen))
  {
    var f := s.delegs[d].flags;
    NeedReturnMeans(f, isOpen);
    if !f.inodeFreeing {
      var (f', need) := NeedReturn(f, isOpen);
      if !need {
        FlagsOutcome(s, d, f');
      } else if !grabbed {
        FlagsOutcome(s, d, f'.(inodeFreeing := true));
      } else {
        BeginOutcome(s, d, f'.(retDelayed := false));
      }
    }
  }

  lemma FlagsOutcome(s: State, d: DelegId, f: Flags)
    requires d in s.delegs
    ensures Flagged(s, WithFlags(s, d, f), d, f)
  {
  }

  lemma BeginOutcome(s: State, d: DelegId, f: Flags)
    requires Attached(s, d)
    ensures Started(s, BeginReturn(s, d, f), d, f)
  {
  }

  /** The flags of d are f, and nothing else has changed of the delegations. */
  ghost predicate Flagged(s: State, s': State, d: DelegId, f: Flags) {
    && d in s.delegs && d in s'.delegs && s'.delegs[d] == s.delegs[d].(flags := f) && Only(s, s', {d})
    && s'.inodes == s.inodes && s'.returning == s.returning
  }

  /** A reference is given up: the delegation becomes x, or is freed with its last. */
  ghost predicate Dropped(s: State, s': State, d: DelegId, x: Deleg) {
    && Only(s, s', {d}) && s'.inodes == s.inodes
    && (d in s'.delegs <==> x.refcount != 1) && (d in s'.delegs ==> s'.delegs[d] == x.(refcount := x.refcount - 1))
  }

  /** A return is given up; "try again" is noted with the delegation and with the client. */
  lemma AbortOutcome(s: State, d: DelegId, again: bool)
    requires d in s.delegs && d in s.returning
    ensures var s', x := DoAbort(s, d, again), s.delegs[d];
            && Dropped(s, s', d, x.(flags := x.flags.(returning := false, retDelayed := x.flags.retDelayed || again)))
            && s'.delayed == (s.delayed || again) && s'.returning == s.returning - multiset{d} && s'.rpcs == s.rpcs
  {
  }

  /** A return goes to the server exactly if the delegation is not revoked; its bits stay until the answer. */
  lemma FinishOutcome(s: State, d: DelegId, call: bool)
    requires d in s.delegs && d in s.returning
    ensures var s', x := DoFinish(s, d, call), s.delegs[d];
            && Dropped(s, s', d, x) && s'.returning == s.returning - multiset{d} && s'.delayed == s.delayed
            && s'.rpcs == s.rpcs + if call && !x.flags.revoked then multiset{d} else multiset{}
  {
  }

  /** The server's answer ends the return, and the delegation, unless it was granted anew meanwhile. */
  lemma ReturnedOutcome(s: State, d: DelegId, sid: Stateid)
    requires Pointers(s) && Owned(s) && Named(s) && Enabled(s, Returned(d, sid))
    ensures var s' := DoReturned(s, d, sid);
            && s'.inodes == s.inodes && s'.rpcs == s.rpcs - multiset{d} && Only(s, s', {d})
            && (d in s.delegs <==> d in s'.delegs)
            && (Attached(s, d) && s.delegs[d].stateid.other == sid.other ==>
                  var x := s.delegs[d];
                  var renewed := sid.seqid != 0 && Newer32(x.stateid.seqid, sid.seqid);
                  && s'.delegs[d] ==
                     x.(stateid := if sid.seqid == 0 || renewed then x.stateid else sid,
                        flags := x.flags.(returning := false, revoked := x.flags.revoked || !renewed))
                  && s'.active == s.active - Bit(!renewed && !x.flags.revoked)
                  && s'.clears ==
                     s.clears + if !renewed && !x.flags.revoked && !x.flags.returning then multiset{x.inode.value}
                                else multiset{})
            && (!Attached(s, d) || s.delegs[d].stateid.other != sid.other ==>
                  s'.delegs == s.delegs && s'.active == s.active)
  {
    ReturnedIsOwn(s, d, sid);
  }

  // ------------------------------------------------------------ revocation, eviction, freeing

  /** The revocation is meant for the delegation: no stateid is given, or its own, at no earlier sequence number. */
  predicate Meant(x: Deleg, which: Option<Stateid>) {
    which.Some? ==>
      && which.value.other == x.stateid.other
      && !(which.value.seqid != 0 && Newer32(x.stateid.seqid, which.value.seqid))
  }

  /** A revocation that is meant for the inode's delegation revokes it, and counts it off if it was not revoked. */
  lemma RevokeOutcome(s: State, i: InodeId, which: Option<Stateid>)
    requires Pointers(s)
    ensures var s' := DoRevoke(s, i, which);
            if i in s.inodes && Meant(s.delegs[s.inodes[i]], which)
            then
              var seqid := s.delegs[s.inodes[i]].stateid.seqid;
              IsRevoked(s, s', s.inodes[i], if which.Some? && which.value.seqid != 0 then which.value.seqid else seqid)
            else s' == s
  {
    if i in s.inodes {
      var d := s.inodes[i];
      RevokedOutcome(s, d, s.delegs[d].stateid.seqid);
      if which.Some? {
        RevokedOutcome(s, d, which.value.seqid);
      }
    }
  }

  ghost predicate IsRevoked(s: State, s': State, d: DelegId, seqid: nat) {
    && d in s.delegs && d in s'.delegs && Only(s, s', {d}) && s'.inodes == s.inodes
    && var x := s.delegs[d];
    && s'.delegs[d] == x.(stateid := x.stateid.(seqid := seqid), flags := x.flags.(revoked := true))
    && s'.active == s.active - Bit(!x.flags.revoked)
  }

  lemma RevokedOutcome(s: State, d: DelegId, seqid: nat)
    requires d in s.delegs
    ensures IsRevoked(s, MarkRevoked(s, d, seqid), d, seqid)
  {
  }

  /** The delegation is off its inode and its list, and waits for its holder to free it. */
  ghost predicate Parted(s: State, s': State, d: DelegId, f: Flags)
    requires d in s.delegs && s.delegs[d].inode.Some?
  {
    var x := s.delegs[d];
    && d in s'.delegs && s'.delegs[d] == x.(inode := None, flags := f)
    && s'.inodes == s.inodes - {x.inode.value} && s'.held == s.held + {d} && Only(s, s', {d})
    && (x.server in s'.lists ==> d !in s'.lists[x.server])
  }

  lemma EvictOutcome(s: State, i: InodeId)
    requires Pointers(s)
    ensures var s' := DoEvict(s, i);
            if i in s.inodes
            then Parted(s, s', s.inodes[i], s.delegs[s.inodes[i]].flags.(returning := true, inodeFreeing := true))
            else s' == s
  {
  }

  lemma ReapOutcome(s: State, d: DelegId)
    requires Pointers(s)
    ensures var s' := DoReapDetach(s, d);
            if Attached(s, d) then Parted(s, s', d, s.delegs[d].flags) else s' == s
  {
  }

  lemma FreeOutcome(s: State, d: DelegId)
    requires d in s.delegs && d in s.held
    ensures var s', x := DoFree(s, d), s.delegs[d];
            && Dropped(s, s', d, x.(flags := x.flags.(revoked := true))) && s'.held == s.held - {d}
            && s'.active == s.active - Bit(!x.flags.revoked)
  {
  }

  // ------------------------------------------------------------ marks

  /** A recall marks the inode's delegation exactly if it is valid, and wakes the state manager. */
  lemma RecallOutcome(s: State, i: InodeId)
    requires Pointers(s)
    ensures var s' := DoRecall(s, i);
            if i in s.inodes && var f := s.delegs[s.inodes[i]].flags; !f.revoked && !f.returning
            then Flagged(s, s', s.inodes[i], s.delegs[s.inodes[i]].flags.(ret := true)) && s'.delegReturn else s' == s
  {
  }

  lemma MarkOutcome(s: State, d: DelegId)
    requires d in s.delegs
    ensures Flagged(s, DoMark(s, d), d, s.delegs[d].flags.(ret := true)) && DoMark(s, d).delegReturn
    ensures Flagged(s, DoMarkIfClosed(s, d), d, s.delegs[d].flags.(retIfClosed := true))
    ensures DoMarkIfClosed(s, d).delegReturn
  {
  }

  /** A visit turns a delayed return of an attached delegation into a due one, and wakes the state manager. */
  lemma VisitOutcome(s: State, d: DelegId)
    ensures var s' := DoVisit(s, d);
            && s'.walk == s.walk - {d} && s'.delayed == s.delayed
            && (if Attached(s, d) && s.delegs[d].flags.retDelayed
                then Flagged(s, s', d, s.delegs[d].flags.(ret := true, retDelayed := false)) && s'.delegReturn
                else s'.delegs == s.delegs && s'.delegReturn == s.delegReturn)
  {
  }

  /** The walk over delayed returns has every delegation ahead of it that is attached. */
  lemma TakeDelayedOutcome(s: State)
    ensures var s' := DoTakeDelayed(s);
            && !s'.delayed && s'.delegs == s.delegs
            && (s.delayed ==> forall d :: Attached(s, d) ==> d in s'.walk) && (!s.delayed ==> s' == s)
  {
  }

  /** A dentry is tagged exactly under a valid delegation. */
  lemma SetVerifierOutcome(s: State, t: DentryId)
    requires Pointers(s) && t in s.alias
    ensures var s', i := DoSetVerifier(s, t), s.alias[t];
            && (t in s'.tagged <==> i in s.inodes && var f := s.delegs[s.inodes[i]].flags; !f.revoked && !f.returning)
            && s' == s.(tagged := s'.tagged) && forall u :: u != t ==> (u in s'.tagged <==> u in s.tagged)
  {
  }

  /** Exactly the dentries of the inode lose the tag. */
  lemma ClearVerifierOutcome(s: State, i: InodeId)
    ensures var s' := DoClearVerifier(s, i);
            && (forall u :: u in s'.tagged <==> u in s.tagged && !(u in s.alias && s.alias[u] == i))
            && s' == s.(tagged := s'.tagged, clears := s.clears - multiset{i})
  {
  }

  // ------------------------------------------------------------ the whole life of a delegation

  /** Delegation d of inode i, with the given stateid, flags and references; no call of it on the wire. */
  ghost predicate Stands(s: State, d: DelegId, i: InodeId, sid: Stateid, f: Flags, refcount: int) {
    && d in s.delegs && i in s.inodes && s.inodes[i] == d && d in s.home && s.home[d] == i
    && s.delegs[d].stateid == sid && s.delegs[d].inode == Some(i) && sid.other in s.bearer && s.bearer[sid.other] == d
    && s.delegs[d].flags == f && s.delegs[d].refcount == refcount
  }

  lemma GrantStands(s: State, v: ServerId, i: InodeId, w: bool, sid: Stateid, d: DelegId)
    requires Pointers(s) && Owned(s) && Enabled(s, Grant(v, i, w, sid, d)) && i !in s.inodes
    ensures var s' := DoGrant(s, v, i, w, sid, d);
            && Stands(s', d, i, sid, NEW_FLAGS, 1) && s'.active == s.active + 1
            && s'.returning == s.returning && s'.rpcs == s.rpcs && d !in s.returning && d !in s.rpcs
  {
    assert DoGrant(s, v, i, w, sid, d) == Attach(s, d, v, i, w, sid);
  }

  lemma RecallStands(s: State, d: DelegId, i: InodeId, sid: Stateid)
    requires Stands(s, d, i, sid, NEW_FLAGS, 1)
    ensures var s' := DoRecall(s, i);
            && Stands(s', d, i, sid, NEW_FLAGS.(ret := true), 1) && s'.active == s.active
            && s'.returning == s.returning && s'.rpcs == s.rpcs
  {
    assert DoRecall(s, i) == WithFlags(s, d, NEW_FLAGS.(ret := true)).(delegReturn := true);
  }

  lemma PickStands(s: State, d: DelegId, i: InodeId, sid: Stateid)
    requires Stands(s, d, i, sid, NEW_FLAGS.(ret := true), 1)
    ensures var s' := DoPick(s, d, false, true);
            && Stands(s', d, i, sid, NEW_FLAGS.(returning := true), 2) && s'.active == s.active
            && s'.returning == s.returning + multiset{d} && s'.rpcs == s.rpcs
  {
    assert DoPick(s, d, false, true) == BeginReturn(s, d, NEW_FLAGS);
  }

  lemma FinishStands(s: State, d: DelegId, i: InodeId, sid: Stateid)
    requires Stands(s, d, i, sid, NEW_FLAGS.(returning := true), 2) && d in s.returning
    ensures var s' := DoFinish(s, d, true);
            && Stands(s', d, i, sid, NEW_FLAGS.(returning := true), 1) && s'.active == s.active
            && s'.returning == s.returning - multiset{d} && s'.rpcs == s.rpcs + multiset{d}
  {
  }

  lemma ReturnedStands(s: State, d: DelegId, i: InodeId, sid: Stateid)
    requires Pointers(s) && Stands(s, d, i, sid, NEW_FLAGS.(returning := true), 1) && d in s.rpcs
    ensures var s' := DoReturned(s, d, sid);
            && Stands(s', d, i, sid, NEW_FLAGS.(revoked := true), 1) && s'.active == s.active - 1
            && s'.returning == s.returning && s'.rpcs == s.rpcs - multiset{d}
  {
    assert DoReturned(s, d, sid) == MarkReturned(s.(rpcs := s.rpcs - multiset{d}), d, sid);
  }

  /**
  Granted, recalled, picked by the state manager, sent back and answered: the delegation has come to its end. It is
  revoked and uncounted, nobody is returning it, and the next grant takes its place.
  */
  lemma FullReturn(s: State, v: ServerId, i: InodeId, w: bool, sid: Stateid, d: DelegId, next: Stateid)
    requires Inv(s) && Enabled(s, Grant(v, i, w, sid, d)) && i !in s.inodes && next.other != sid.other
    ensures var s1 := DoRecall(DoGrant(s, v, i, w, sid, d), i);
            Enabled(DoGrant(s, v, i, w, sid, d), Recall(i)) && Enabled(s1, Pick(d, false, true)) &&
            var s2 := DoPick(s1, d, false, true);
            Enabled(s2, Finish(d, true)) && d in s2.delegs &&
            var s3 := DoFinish(s2, d, true);
            Pointers(s3) && Enabled(s3, Returned(d, sid)) &&
            var s4 := DoReturned(s3, d, sid);
            && Stands(s4, d, i, sid, NEW_FLAGS.(revoked := true), 1) && s4.active == s.active
            && d !in s4.returning && d !in s4.rpcs && GivesWay(s4, i, false, next.other)
  {
    GrantKeeps(s, v, i, w, sid, d);
    GrantStands(s, v, i, w, sid, d);
    var s0 := DoGrant(s, v, i, w, sid, d);
    RecallKeeps(s0, i);
    RecallStands(s0, d, i, sid);
    var s1 := DoRecall(s0, i);
    PickKeeps(s1, d, false, true);
    PickStands(s1, d, i, sid);
    var s2 := DoPick(s1, d, false, true);
    FinishKeeps(s2, d, true);
    FinishStands(s2, d, i, sid);
    ReturnedStands(DoFinish(s2, d, true), d, i, sid);
  }
}
