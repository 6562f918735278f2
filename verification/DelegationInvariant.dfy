/**
Every step of the delegation machine keeps its invariant.  Most steps change one
delegation in place; these are all instances of one lemma, HarmlessKeeps.
 */
module DelegationInvariant {
  import opened Common
  import opened Delegation

  // ------------------------------------------------------------ changes to one delegation

  /** Everything but the counter and the tags. */
  ghost predicate Shape(s: State) {
    Pointers(s) && Owned(s) && Lists(s) && References(s) && Single(s) && Delayed(s) && Named(s)
  }

  /** s' differs from s only in delegation d, which stays where it is, and in what threads do to it. */
  ghost predicate Local(s: State, s': State, d: DelegId) {
    && d in s.delegs && d in s'.delegs
    && s'.delegs == s.delegs[d := s'.delegs[d]]
    && s'.delegs[d].inode == s.delegs[d].inode && s'.delegs[d].server == s.delegs[d].server
    && Elsewhere(s, s', d) && s'.lists == s.lists && s'.inodes == s.inodes
    && BearsRight(s, s', d)
  }

  /** d keeps its stateid, or bears one that nobody else ever bore. */
  ghost predicate BearsRight(s: State, s': State, d: DelegId)
    requires d in s.delegs && d in s'.delegs
  {
    var other := s'.delegs[d].stateid.other;
    other == s.delegs[d].stateid.other || (other in s'.bearer && s'.bearer[other] == d)
  }

  /** Apart from the tables of delegations, s and s' agree on everything that is not about d. */
  ghost predicate Elsewhere(s: State, s': State, d: DelegId) {
    && s'.used == s.used && s'.alias == s.alias && s'.tagged == s.tagged && s'.discarded == s.discarded
    && (s.delayed ==> s'.delayed) && s.walk - {d} <= s'.walk && s.clears <= s'.clears
    && s'.held - {d} == s.held - {d} && s'.home == s.home
    && (forall o :: o in s.bearer ==> o in s'.bearer && s'.bearer[o] == s.bearer[o])
    && (forall e :: e != d ==> s'.returning[e] == s.returning[e] && s'.rpcs[e] == s.rpcs[e])
  }

  /** The lists depend on where delegations are attached, and on nothing else about them. */
  lemma ListsFollow(s: State, s': State)
    requires Lists(s) && s'.lists == s.lists
    requires forall e :: Attached(s', e) <==> Attached(s, e)
    requires forall e :: Attached(s, e) && Attached(s', e) ==> s'.delegs[e].server == s.delegs[e].server
    ensures Lists(s')
  {
    forall v, e | v in s'.lists
      ensures e in s'.lists[v] <==> Attached(s', e) && s'.delegs[e].server == v
    {
      assert e in s.lists[v] <==> Attached(s, e) && s.delegs[e].server == v;
    }
  }

  lemma LocalKeepsPointers(s: State, s': State, d: DelegId)
    requires Local(s, s', d) && Pointers(s)
    ensures Pointers(s')
    ensures forall e :: Attached(s', e) <==> Attached(s, e)
  {
    assert s'.delegs.Keys == s.delegs.Keys;
    forall e ensures Attached(s', e) <==> Attached(s, e) {}
  }

  lemma LocalKeepsOwned(s: State, s': State, d: DelegId)
    requires Local(s, s', d) && Owned(s) && d in s.used
    ensures Owned(s')
  {
    forall e | e in s'.returning || e in s'.held ensures e in s'.delegs {
      if e != d {
        HeldElsewhere(s, s', d, e);
        assert s'.returning[e] == s.returning[e];
      }
    }
    forall e | e in s'.rpcs ensures e in s'.used {
      assert e != d ==> s'.rpcs[e] == s.rpcs[e];
    }
  }

  /** When a local change keeps the counts of references and of returns. */
  ghost predicate Balanced(s': State, d: DelegId)
    requires d in s'.delegs
  {
    var x := s'.delegs[d];
    && x.refcount == Bit(x.inode.Some?) + Bit(d in s'.held) + s'.returning[d] && x.refcount >= 1
    && (d in s'.held ==> x.inode.None?)
    && (x.inode.Some? ==> s'.returning[d] + s'.rpcs[d] <= Bit(x.flags.returning))
    && (x.inode.Some? && x.flags.retDelayed ==> s'.delayed || d in s'.walk)
  }

  /** Away from d, the hold on a delegation is the same in s and s'. */
  lemma HeldElsewhere(s: State, s': State, d: DelegId, e: DelegId)
    requires s'.held - {d} == s.held - {d} && e != d
    ensures e in s'.held <==> e in s.held
  {
    assert e in s'.held - {d} <==> e in s.held - {d};
  }

  lemma LocalKeepsReferences(s: State, s': State, d: DelegId)
    requires References(s) && Local(s, s', d) && Balanced(s', d)
    ensures References(s')
  {
    forall e | e in s'.delegs
      ensures s'.delegs[e].refcount == Bit(Attached(s', e)) + Bit(e in s'.held) + s'.returning[e]
      ensures s'.delegs[e].refcount >= 1
    {
      if e != d {
        HeldElsewhere(s, s', d, e);
      }
    }
    forall e | e in s'.held ensures !Attached(s', e) {
      if e != d {
        HeldElsewhere(s, s', d, e);
      }
    }
  }

  lemma LocalKeepsNamed(s: State, s': State, d: DelegId)
    requires Named(s) && Local(s, s', d)
    ensures Named(s')
  {
    forall e | Attached(s', e) ensures NamedRight(s', e) {
      assert Attached(s, e) && NamedRight(s, e);
    }
  }

  lemma LocalKeepsFlags(s: State, s': State, d: DelegId)
    requires Single(s) && Delayed(s) && Local(s, s', d) && Balanced(s', d)
    ensures Single(s') && Delayed(s')
  {
    forall e | Attached(s', e)
      ensures s'.returning[e] + s'.rpcs[e] <= Bit(s'.delegs[e].flags.returning)
      ensures s'.delegs[e].flags.retDelayed ==> s'.delayed || e in s'.walk
    {
      assert e != d ==> Attached(s, e);
    }
  }

  lemma LocalKeepsShape(s: State, s': State, d: DelegId)
    requires Shape(s) && Local(s, s', d) && Balanced(s', d)
    ensures Shape(s')
  {
    LocalKeepsPointers(s, s', d);
    LocalKeepsOwned(s, s', d);
    ListsFollow(s, s');
    LocalKeepsReferences(s, s', d);
    LocalKeepsFlags(s, s', d);
    LocalKeepsNamed(s, s', d);
  }

  lemma LocalKeepsTags(s: State, s': State, d: DelegId)
    requires Pointers(s) && Tags(s) && Local(s, s', d)
    requires var x := s'.delegs[d];
             x.inode.Some? && (x.flags.returning || x.flags.revoked) ==>
               !ValidRead(s, x.inode.value) || x.inode.value in s'.clears
    ensures Tags(s')
  {
    forall t | t in s'.tagged
      ensures t in s'.alias && (ValidRead(s', s'.alias[t]) || s'.alias[t] in s'.clears)
    {
      var i := s.alias[t];
      if i in s.inodes && s.inodes[i] == d {
      } else {
        assert ValidRead(s', i) <==> ValidRead(s, i);
      }
    }
  }

  ghost predicate CountedIn(s: State, d: DelegId) {
    d in s.delegs && !s.delegs[d].flags.revoked && (s.delegs[d].inode.Some? || d in s.held)
  }

  lemma CardinalityShift(a: set<DelegId>, b: set<DelegId>, d: DelegId)
    requires a - {d} == b - {d}
    ensures |b| - |a| == Bit(d in b) - Bit(d in a)
  {
    assert d in a ==> a == (a - {d}) + {d};
    assert d in b ==> b == (a - {d}) + {d};
    assert d !in a ==> a == a - {d};
    assert d !in b ==> b == a - {d};
  }

  /** The counter follows when only d starts or stops to be counted. */
  lemma CounterFollows(s: State, s': State, d: DelegId)
    requires Counter(s)
    requires forall e :: e != d ==> (CountedIn(s', e) <==> CountedIn(s, e))
    requires s'.active - s.active == Bit(CountedIn(s', d)) - Bit(CountedIn(s, d)) - (s'.discarded - s.discarded)
    ensures Counter(s')
  {
    var a, b := Counted(s), Counted(s');
    forall e ensures (e in a <==> CountedIn(s, e)) && (e in b <==> CountedIn(s', e)) {}
    assert a - {d} == b - {d};
    CardinalityShift(a, b, d);
  }

  /** All parts together, for a local change. */
  lemma LocalKeeps(s: State, s': State, d: DelegId)
    requires Inv(s) && Local(s, s', d) && Balanced(s', d)
    requires var x := s'.delegs[d];
             x.inode.Some? && (x.flags.returning || x.flags.revoked) ==>
               !ValidRead(s, x.inode.value) || x.inode.value in s'.clears
    requires s'.active - s.active == Bit(CountedIn(s', d)) - Bit(CountedIn(s, d))
    ensures Inv(s')
  {
    LocalKeepsShape(s, s', d);
    LocalKeepsTags(s, s', d);
    forall e | e != d ensures CountedIn(s', e) <==> CountedIn(s, e) {
      HeldElsewhere(s, s', d, e);
    }
    CounterFollows(s, s', d);
  }

  // ------------------------------------------------------------ the last reference

  /** s' is s without d, which nobody refers to any more. */
  ghost predicate Dropped(s: State, s': State, d: DelegId) {
    && d in s.delegs && s.delegs[d].inode.None? && s'.delegs == s.delegs - {d}
    && Elsewhere(s, s', d) && s'.lists == s.lists && s'.inodes == s.inodes
    && d !in s'.held && s'.returning[d] == 0
  }

  lemma DroppedKeepsLists(s: State, s': State, d: DelegId)
    requires Pointers(s) && Lists(s) && Dropped(s, s', d)
    ensures Pointers(s') && Lists(s')
    ensures forall e :: Attached(s', e) <==> Attached(s, e)
  {
    forall e ensures Attached(s', e) <==> Attached(s, e) {}
    ListsFollow(s, s');
  }

  lemma DroppedKeepsReferences(s: State, s': State, d: DelegId)
    requires Owned(s) && References(s) && Dropped(s, s', d) && d in s.used
    ensures Owned(s') && References(s')
  {
    forall e | e in s'.rpcs ensures e in s'.used {
      assert e != d ==> s'.rpcs[e] == s.rpcs[e];
    }
    forall e | e in s'.returning || e in s'.held ensures e in s'.delegs {
      HeldElsewhere(s, s', d, e);
      assert s'.returning[e] == s.returning[e];
    }
    forall e | e in s'.delegs
      ensures s'.delegs[e].refcount == Bit(Attached(s', e)) + Bit(e in s'.held) + s'.returning[e]
      ensures e in s'.held ==> !Attached(s', e)
    {
      HeldElsewhere(s, s', d, e);
    }
  }

  lemma DroppedKeepsNamed(s: State, s': State, d: DelegId)
    requires Named(s) && Dropped(s, s', d)
    ensures Named(s')
  {
    forall e | Attached(s', e) ensures NamedRight(s', e) {
      assert Attached(s, e) && NamedRight(s, e);
    }
  }

  lemma DroppedKeeps(s: State, s': State, d: DelegId)
    requires Inv(s) && Dropped(s, s', d)
    requires s'.active - s.active == -Bit(CountedIn(s, d))
    ensures Inv(s')
  {
    DroppedKeepsLists(s, s', d);
    DroppedKeepsReferences(s, s', d);
    DroppedKeepsNamed(s, s', d);
    assert forall i :: ValidRead(s', i) <==> ValidRead(s, i);
    forall e | e != d ensures CountedIn(s', e) <==> CountedIn(s, e) {
      HeldElsewhere(s, s', d, e);
    }
    CounterFollows(s, s', d);
  }

  // ------------------------------------------------------------ each step

  /** What the invariant says about one delegation. */
  lemma About(s: State, d: DelegId)
    requires Inv(s) && d in s.delegs
    ensures Balanced(s, d)
    ensures Attached(s, d) ==> s.delegs[d].inode.value in s.inodes && s.inodes[s.delegs[d].inode.value] == d
  {
    assert Attached(s, d) <==> s.delegs[d].inode.Some?;
  }

  /** d changes as LocalKeeps allows. */
  ghost predicate Harmless(s: State, s': State, d: DelegId) {
    && Local(s, s', d) && Balanced(s', d)
    && (var x := s'.delegs[d];
        x.inode.Some? && (x.flags.returning || x.flags.revoked) ==>
          s.delegs[d].flags.returning || s.delegs[d].flags.revoked || x.inode.value in s'.clears)
    && s'.active - s.active == Bit(CountedIn(s', d)) - Bit(CountedIn(s, d))
  }

  lemma HarmlessKeeps(s: State, s': State, d: DelegId)
    requires Inv(s) && Harmless(s, s', d)
    ensures Inv(s')
  {
    About(s, d);
    LocalKeeps(s, s', d);
  }

  lemma BeginReturnIsHarmless(s: State, d: DelegId, f: Flags)
    requires Attached(s, d) && Balanced(s, d) && !s.delegs[d].flags.returning
    requires f.revoked == s.delegs[d].flags.revoked && (f.retDelayed ==> s.delegs[d].flags.retDelayed)
    ensures Harmless(s, BeginReturn(s, d, f), d)
  {
  }

  lemma StartKeeps(s: State, i: InodeId)
    requires Inv(s)
    ensures Inv(DoStart(s, i))
  {
    if i in s.inodes && !s.delegs[s.inodes[i]].flags.returning {
      var d := s.inodes[i];
      About(s, d);
      BeginReturnIsHarmless(s, d, s.delegs[d].flags.(retDelayed := false));
      HarmlessKeeps(s, DoStart(s, i), d);
    }
  }

  lemma OnCloseKeeps(s: State, i: InodeId, isOpen: bool, crowded: bool)
    requires Inv(s)
    ensures Inv(DoOnClose(s, i, isOpen, crowded))
  {
    var s' := DoOnClose(s, i, isOpen, crowded);
    if s' != s {
      var d := s.inodes[i];
      About(s, d);
      BeginReturnIsHarmless(s, d, s.delegs[d].flags.(retIfClosed := false));
      HarmlessKeeps(s, s', d);
    }
  }

  /** A change of flags that revives or retires nothing. */
  lemma FlagsAreHarmless(s: State, d: DelegId, f: Flags, b: bool)
    requires Attached(s, d) && Balanced(s, d)
    requires var g := s.delegs[d].flags;
             f.returning == g.returning && f.revoked == g.revoked && f.retDelayed == g.retDelayed
    ensures Harmless(s, WithFlags(s, d, f).(delegReturn := b), d)
  {
  }

  lemma FlagsKeep(s: State, d: DelegId, f: Flags, b: bool)
    requires Inv(s) && Attached(s, d)
    requires var g := s.delegs[d].flags;
             f.returning == g.returning && f.revoked == g.revoked && f.retDelayed == g.retDelayed
    ensures Inv(WithFlags(s, d, f).(delegReturn := b))
  {
    About(s, d);
    FlagsAreHarmless(s, d, f, b);
    HarmlessKeeps(s, WithFlags(s, d, f).(delegReturn := b), d);
  }

  lemma PickKeeps(s: State, d: DelegId, isOpen: bool, grabbed: bool)
    requires Inv(s) && Attached(s, d)
    ensures Inv(DoPick(s, d, isOpen, grabbed))
  {
    var f := s.delegs[d].flags;
    if !f.inodeFreeing {
      var (f', need) := NeedReturn(f, isOpen);
      if !need {
        FlagsKeep(s, d, f', s.delegReturn);
      } else if !grabbed {
        FlagsKeep(s, d, f'.(inodeFreeing := true), s.delegReturn);
      } else {
        About(s, d);
        BeginReturnIsHarmless(s, d, f'.(retDelayed := false));
        HarmlessKeeps(s, DoPick(s, d, isOpen, grabbed), d);
      }
    }
  }

  /** Dropping a reference: either the last one, or a harmless change. */
  ghost predicate Drops(s: State, s': State, d: DelegId) {
    || Harmless(s, s', d)
    || (Dropped(s, s', d) && s'.active - s.active == -Bit(CountedIn(s, d)))
  }

  lemma DropsKeeps(s: State, s': State, d: DelegId)
    requires Inv(s) && Drops(s, s', d)
    ensures Inv(s')
  {
    if Harmless(s, s', d) {
      HarmlessKeeps(s, s', d);
    } else {
      DroppedKeeps(s, s', d);
    }
  }

  /** Releasing d after s has become s1 in everything but the delegations. */
  lemma ReleaseDrops(s: State, s1: State, d: DelegId, x: Deleg)
    requires d in s.delegs && s1.delegs == s.delegs && s1.lists == s.lists && s1.inodes == s.inodes
    requires Elsewhere(s, s1, d)
    requires x.inode == s.delegs[d].inode && x.server == s.delegs[d].server && x.stateid == s.delegs[d].stateid
    requires x.refcount == s.delegs[d].refcount >= 1
    requires x.refcount - 1 == Bit(x.inode.Some?) + Bit(d in s1.held) + s1.returning[d]
    requires d in s1.held ==> x.inode.None?
    requires x.inode.Some? ==>
               && s1.returning[d] + s1.rpcs[d] <= Bit(x.flags.returning)
               && (x.flags.retDelayed ==> s1.delayed || d in s1.walk)
    requires x.inode.Some? ==>
               x.flags.revoked == s.delegs[d].flags.revoked && (x.flags.returning ==> s.delegs[d].flags.returning)
    requires s1.active - s.active == Bit(!x.flags.revoked && (x.inode.Some? || d in s1.held)) - Bit(CountedIn(s, d))
    ensures Drops(s, Release(s1, d, x), d)
  {
    var s' := Release(s1, d, x);
    if x.refcount == 1 {
      assert Dropped(s, s', d);
    } else {
      assert Local(s, s', d) && Balanced(s', d);
    }
  }

  lemma AbortDrops(s: State, d: DelegId, again: bool)
    requires d in s.delegs && d in s.returning && Balanced(s, d)
    ensures Drops(s, DoAbort(s, d, again), d)
  {
    var f := s.delegs[d].flags;
    ReleaseDrops(s, s.(delayed := s.delayed || again, returning := s.returning - multiset{d}), d,
                 s.delegs[d].(flags := f.(returning := false, retDelayed := f.retDelayed || again)));
  }

  lemma FinishWith(s: State, d: DelegId, rpcs: multiset<DelegId>)
    requires d in s.delegs && d in s.returning && Balanced(s, d)
    requires rpcs[d] <= s.rpcs[d] + 1 && forall e :: e != d ==> rpcs[e] == s.rpcs[e]
    ensures Drops(s, Release(s.(returning := s.returning - multiset{d}, rpcs := rpcs), d, s.delegs[d]), d)
  {
    ReleaseDrops(s, s.(returning := s.returning - multiset{d}, rpcs := rpcs), d, s.delegs[d]);
  }

  lemma FinishDrops(s: State, d: DelegId, call: bool)
    requires d in s.delegs && d in s.returning && Balanced(s, d)
    ensures Drops(s, DoFinish(s, d, call), d)
  {
    var rpcs := if call && !s.delegs[d].flags.revoked then s.rpcs + multiset{d} else s.rpcs;
    FinishWith(s, d, rpcs);
  }

  lemma FreeDrops(s: State, d: DelegId)
    requires d in s.delegs && d in s.held && Balanced(s, d)
    ensures Drops(s, DoFree(s, d), d)
  {
    var x := s.delegs[d];
    ReleaseDrops(s, s.(held := s.held - {d}, active := if x.flags.revoked then s.active else s.active - 1), d,
                 x.(flags := x.flags.(revoked := true)));
  }

  lemma AbortKeeps(s: State, d: DelegId, again: bool)
    requires Inv(s) && d in s.returning
    ensures Inv(DoAbort(s, d, again))
  {
    About(s, d);
    AbortDrops(s, d, again);
    DropsKeeps(s, DoAbort(s, d, again), d);
  }

  lemma FinishKeeps(s: State, d: DelegId, call: bool)
    requires Inv(s) && d in s.returning
    ensures Inv(DoFinish(s, d, call))
  {
    About(s, d);
    FinishDrops(s, d, call);
    DropsKeeps(s, DoFinish(s, d, call), d);
  }

  lemma FreeKeeps(s: State, d: DelegId)
    requires Inv(s) && d in s.held
    ensures Inv(DoFree(s, d))
  {
    About(s, d);
    FreeDrops(s, d);
    DropsKeeps(s, DoFree(s, d), d);
  }

  /** One attached delegation becomes x, with answers awaited, the counter and clears to match. */
  function Stamped(s: State, d: DelegId, x: Deleg, rpcs: multiset<DelegId>, active: int,
                   clears: multiset<InodeId>): State {
    s.(delegs := s.delegs[d := x], rpcs := rpcs, active := active, clears := clears)
  }

  lemma StampIsHarmless(s: State, d: DelegId, x: Deleg, rpcs: multiset<DelegId>, active: int, clears: multiset<InodeId>)
    requires Attached(s, d) && Balanced(s, d)
    requires x.inode == s.delegs[d].inode && x.server == s.delegs[d].server && x.refcount == s.delegs[d].refcount
    requires x.stateid.other == s.delegs[d].stateid.other
    requires s.clears <= clears && forall e :: e != d ==> rpcs[e] == s.rpcs[e]
    requires s.returning[d] + rpcs[d] <= Bit(x.flags.returning) && x.flags.retDelayed == s.delegs[d].flags.retDelayed
    requires x.flags.returning || x.flags.revoked ==>
               s.delegs[d].flags.returning || s.delegs[d].flags.revoked || x.inode.value in clears
    requires active - s.active == Bit(!x.flags.revoked) - Bit(!s.delegs[d].flags.revoked)
    ensures Harmless(s, Stamped(s, d, x, rpcs, active, clears), d)
  {
  }

  lemma MarkRevokedIsHarmless(s: State, d: DelegId, seqid: nat)
    requires Attached(s, d) && Balanced(s, d)
    ensures Harmless(s, MarkRevoked(s, d, seqid), d)
  {
    var s' := MarkRevoked(s, d, seqid);
    StampIsHarmless(s, d, s'.delegs[d], s'.rpcs, s'.active, s'.clears);
    assert s' == Stamped(s, d, s'.delegs[d], s'.rpcs, s'.active, s'.clears);
  }

  lemma MarkRevokedKeeps(s: State, d: DelegId, seqid: nat)
    requires Inv(s) && Attached(s, d)
    ensures Inv(MarkRevoked(s, d, seqid))
  {
    About(s, d);
    MarkRevokedIsHarmless(s, d, seqid);
    HarmlessKeeps(s, MarkRevoked(s, d, seqid), d);
  }

  lemma RevokeKeeps(s: State, i: InodeId, which: Option<Stateid>)
    requires Inv(s)
    ensures Inv(DoRevoke(s, i, which))
  {
    if i in s.inodes {
      var d := s.inodes[i];
      var seqid := if which.None? || which.value.seqid == 0 then s.delegs[d].stateid.seqid else which.value.seqid;
      MarkRevokedKeeps(s, d, seqid);
    }
  }

  /** What the answer to the return of d does to d. */
  function OwnReturned(s: State, d: DelegId, sid: Stateid): State {
    var s1 := s.(rpcs := s.rpcs - multiset{d});
    if !Attached(s, d) || s.delegs[d].stateid.other != sid.other then s1 else MarkReturned(s1, d, sid)
  }

  /** The delegation that an answer finds on the inode is the one it answers for, or bears another stateid. */
  lemma ReturnedIsOwn(s: State, d: DelegId, sid: Stateid)
    requires Pointers(s) && Owned(s) && Named(s) && Enabled(s, Returned(d, sid))
    ensures DoReturned(s, d, sid) == OwnReturned(s, d, sid)
  {
    var i := s.home[d];
    if Attached(s, d) {
      assert NamedRight(s, d);
    } else if i in s.inodes {
      assert Attached(s, s.inodes[i]) && NamedRight(s, s.inodes[i]);
    }
  }

  lemma MarkReturnedIsHarmless(s: State, d: DelegId, sid: Stateid)
    requires Attached(s, d) && d in s.rpcs && Balanced(s, d)
    ensures Harmless(s, MarkReturned(s.(rpcs := s.rpcs - multiset{d}), d, sid), d)
  {
    var s' := MarkReturned(s.(rpcs := s.rpcs - multiset{d}), d, sid);
    assert s.delegs[d].flags.returning;
    StampIsHarmless(s, d, s'.delegs[d], s'.rpcs, s'.active, s'.clears);
    assert s' == Stamped(s, d, s'.delegs[d], s'.rpcs, s'.active, s'.clears);
  }

  /** An answer that finds nothing to do. */
  lemma AnswerIsHarmless(s: State, d: DelegId)
    requires d in s.delegs && d in s.rpcs && Balanced(s, d)
    ensures Harmless(s, s.(rpcs := s.rpcs - multiset{d}), d)
  {
  }

  lemma ReturnedIsHarmless(s: State, d: DelegId, sid: Stateid)
    requires d in s.delegs && d in s.rpcs && Balanced(s, d)
    ensures Harmless(s, OwnReturned(s, d, sid), d)
  {
    if Attached(s, d) && s.delegs[d].stateid.other == sid.other {
      MarkReturnedIsHarmless(s, d, sid);
    } else {
      AnswerIsHarmless(s, d);
    }
  }

  /** s' has the same delegations as s; only replies, tags, clears, counters and what is said of delays differ. */
  ghost predicate SameDelegs(s: State, s': State) {
    && s'.delegs == s.delegs && s'.used == s.used && s'.inodes == s.inodes && s'.lists == s.lists
    && s'.held == s.held && s'.returning == s.returning && s'.home == s.home && s'.bearer == s.bearer
    && (forall d :: s'.rpcs[d] <= s.rpcs[d])
  }

  lemma SameDelegsKeepsPointers(s: State, s': State)
    requires Pointers(s) && Lists(s) && SameDelegs(s, s')
    ensures Pointers(s') && Lists(s')
  {
    forall d ensures Attached(s', d) <==> Attached(s, d) {}
    ListsFollow(s, s');
  }

  lemma SameDelegsKeepsNamed(s: State, s': State)
    requires Named(s) && SameDelegs(s, s')
    ensures Named(s')
  {
    forall d | Attached(s', d) ensures NamedRight(s', d) {
      assert Attached(s, d) && NamedRight(s, d);
    }
  }

  lemma SameDelegsKeepsOwned(s: State, s': State)
    requires Owned(s) && References(s) && Single(s) && SameDelegs(s, s')
    ensures Owned(s') && References(s') && Single(s')
  {
    forall d | d in s'.rpcs ensures d in s'.used {
      assert s'.rpcs[d] <= s.rpcs[d];
    }
  }

  lemma SameDelegsKeepsShape(s: State, s': State)
    requires Shape(s) && SameDelegs(s, s') && Delayed(s')
    ensures Shape(s')
  {
    SameDelegsKeepsPointers(s, s');
    SameDelegsKeepsOwned(s, s');
    SameDelegsKeepsNamed(s, s');
  }

  lemma SameDelegsKeeps(s: State, s': State)
    requires Inv(s) && SameDelegs(s, s') && Delayed(s')
    requires s'.active + s'.discarded == s.active + s.discarded
    requires s'.alias == s.alias && s'.tagged <= s.tagged && s.clears <= s'.clears
    ensures Inv(s')
  {
    SameDelegsKeepsShape(s, s');
    assert Counted(s') == Counted(s);
    assert forall i :: ValidRead(s', i) <==> ValidRead(s, i);
  }

  lemma OwnReturnedKeeps(s: State, d: DelegId, sid: Stateid)
    requires Inv(s) && d in s.rpcs
    ensures Inv(OwnReturned(s, d, sid))
  {
    if d in s.delegs {
      About(s, d);
      ReturnedIsHarmless(s, d, sid);
      HarmlessKeeps(s, OwnReturned(s, d, sid), d);
    } else {
      SameDelegsKeeps(s, OwnReturned(s, d, sid));
    }
  }

  lemma ReturnedKeeps(s: State, d: DelegId, sid: Stateid)
    requires Inv(s) && Enabled(s, Returned(d, sid))
    ensures Inv(DoReturned(s, d, sid))
  {
    ReturnedIsOwn(s, d, sid);
    OwnReturnedKeeps(s, d, sid);
  }

  /** A new life for an attached delegation: by a newer grant, or by a reclaim. */
  lemma RenewIsHarmless(s: State, d: DelegId, x: Deleg)
    requires Attached(s, d) && Balanced(s, d)
    requires x.inode == s.delegs[d].inode && x.server == s.delegs[d].server && x.refcount == s.delegs[d].refcount
    requires x.flags.returning == s.delegs[d].flags.returning && x.flags.retDelayed == s.delegs[d].flags.retDelayed
    requires x.stateid.other in s.bearer ==> s.bearer[x.stateid.other] == d
    ensures Harmless(s, Renew(s, d, x), d)
  {
  }

  lemma RenewKeeps(s: State, d: DelegId, x: Deleg)
    requires Inv(s) && Attached(s, d)
    requires x.inode == s.delegs[d].inode && x.server == s.delegs[d].server && x.refcount == s.delegs[d].refcount
    requires x.flags.returning == s.delegs[d].flags.returning && x.flags.retDelayed == s.delegs[d].flags.retDelayed
    requires x.stateid.other in s.bearer ==> s.bearer[x.stateid.other] == d
    ensures Inv(Renew(s, d, x))
  {
    About(s, d);
    RenewIsHarmless(s, d, x);
    HarmlessKeeps(s, Renew(s, d, x), d);
  }

  // ------------------------------------------------------------ attaching and detaching

  lemma DetachElsewhere(s: State, d: DelegId)
    requires Pointers(s) && Attached(s, d)
    ensures forall j :: j != s.delegs[d].inode.value ==> (ValidRead(Detach(s, d), j) <==> ValidRead(s, j))
  {
    forall j | j != s.delegs[d].inode.value ensures ValidRead(Detach(s, d), j) <==> ValidRead(s, j) {
      assert j in s.inodes ==> s.inodes[j] != d;
    }
  }

  lemma DetachKeepsPointers(s: State, d: DelegId)
    requires Pointers(s) && Attached(s, d)
    ensures Pointers(Detach(s, d))
  {
  }

  lemma DetachKeepsLists(s: State, d: DelegId)
    requires Lists(s) && Attached(s, d) && s.delegs[d].server in s.lists
    ensures Lists(Detach(s, d))
  {
    var s' := Detach(s, d);
    var v := s.delegs[d].server;
    WithoutKeepsDistinct(s.lists[v], d);
    forall w, e | w in s'.lists
      ensures e in s'.lists[w] <==> Attached(s', e) && s'.delegs[e].server == w
    {
      assert e in s.lists[w] <==> Attached(s, e) && s.delegs[e].server == w;
    }
  }

  lemma DetachKeepsRest(s: State, d: DelegId)
    requires Owned(s) && References(s) && Single(s) && Delayed(s) && Counter(s)
    requires Attached(s, d) && s.delegs[d].server in s.lists
    ensures var s' := Detach(s, d); Owned(s') && References(s') && Single(s') && Delayed(s') && Counter(s')
  {
    var s' := Detach(s, d);
    assert forall e :: Attached(s', e) <==> Attached(s, e) && e != d;
    CounterFollows(s, s', d);
  }

  lemma DetachKeepsNamed(s: State, d: DelegId)
    requires Named(s) && Attached(s, d) && s.delegs[d].server in s.lists
    ensures Named(Detach(s, d))
  {
    var s' := Detach(s, d);
    forall e | Attached(s', e) ensures NamedRight(s', e) {
      assert Attached(s, e) && NamedRight(s, e);
    }
  }

  lemma AttachKeepsNamed(s: State, d: DelegId, v: ServerId, i: InodeId, write: bool, sid: Stateid)
    requires Named(s) && v in s.lists && d !in s.used && sid.other !in s.bearer
    ensures Named(Attach(s, d, v, i, write, sid))
  {
    var s' := Attach(s, d, v, i, write, sid);
    forall e | Attached(s', e) ensures NamedRight(s', e) {
      assert e != d ==> Attached(s, e) && NamedRight(s, e);
    }
  }

  lemma AttachKeepsPointers(s: State, d: DelegId, v: ServerId, i: InodeId, write: bool, sid: Stateid)
    requires Pointers(s) && Lists(s) && d !in s.used && v in s.lists && i !in s.inodes
    ensures var s' := Attach(s, d, v, i, write, sid); Pointers(s') && Lists(s')
  {
    AttachLists(s, d, v, i, write, sid);
  }

  lemma AttachLists(s: State, d: DelegId, v: ServerId, i: InodeId, write: bool, sid: Stateid)
    requires Pointers(s) && Lists(s) && d !in s.used && v in s.lists
    ensures Lists(Attach(s, d, v, i, write, sid))
  {
    var s' := Attach(s, d, v, i, write, sid);
    assert d !in s.lists[v] by {
      assert !Attached(s, d);
    }
    DistinctAppend(s.lists[v], d);
    forall w, e | w in s'.lists ensures e in s'.lists[w] <==> Attached(s', e) && s'.delegs[e].server == w {
      AttachListed(s, d, v, i, write, sid, w, e);
    }
  }

  lemma AttachListed(s: State, d: DelegId, v: ServerId, i: InodeId, write: bool, sid: Stateid, w: ServerId, e: DelegId)
    requires w in s.lists && d !in s.delegs && v in s.lists
    requires e in s.lists[w] <==> Attached(s, e) && s.delegs[e].server == w
    ensures var s' := Attach(s, d, v, i, write, sid);
            e in s'.lists[w] <==> Attached(s', e) && s'.delegs[e].server == w
  {
  }

  lemma AttachKeepsCounter(s: State, d: DelegId, v: ServerId, i: InodeId, write: bool, sid: Stateid)
    requires Counter(s) && d !in s.delegs && d !in s.held && v in s.lists
    ensures Counter(Attach(s, d, v, i, write, sid))
  {
    CounterFollows(s, Attach(s, d, v, i, write, sid), d);
  }

  lemma AttachKeepsReferences(s: State, d: DelegId, v: ServerId, i: InodeId, write: bool, sid: Stateid)
    requires Owned(s) && References(s) && s.delegs.Keys <= s.used && d !in s.used && v in s.lists
    ensures var s' := Attach(s, d, v, i, write, sid); Owned(s') && References(s')
  {
    assert d !in s.delegs && s.returning[d] == 0 && d !in s.held;
  }

  lemma AttachKeepsFlags(s: State, d: DelegId, v: ServerId, i: InodeId, write: bool, sid: Stateid)
    requires Owned(s) && Single(s) && Delayed(s) && s.delegs.Keys <= s.used && d !in s.used && v in s.lists
    ensures var s' := Attach(s, d, v, i, write, sid); Single(s') && Delayed(s')
  {
    var s' := Attach(s, d, v, i, write, sid);
    assert s.returning[d] == 0 && s.rpcs[d] == 0;
    forall e | Attached(s', e) && e != d ensures Attached(s, e) && s'.delegs[e] == s.delegs[e] {}
  }

  lemma AttachKeepsRest(s: State, d: DelegId, v: ServerId, i: InodeId, write: bool, sid: Stateid)
    requires Owned(s) && References(s) && Single(s) && Delayed(s) && Counter(s) && s.delegs.Keys <= s.used
    requires d !in s.used && v in s.lists
    ensures var s' := Attach(s, d, v, i, write, sid);
            Owned(s') && References(s') && Single(s') && Delayed(s') && Counter(s')
  {
    AttachKeepsReferences(s, d, v, i, write, sid);
    AttachKeepsFlags(s, d, v, i, write, sid);
    AttachKeepsCounter(s, d, v, i, write, sid);
  }

  lemma TagsAfterAttach(s: State, s1: State, d: DelegId, v: ServerId, i: InodeId, write: bool, sid: Stateid)
    requires Pointers(s) && Pointers(s1) && Tags(s) && v in s1.lists && d !in s1.used
    requires s1.alias == s.alias && s1.tagged == s.tagged && s1.clears == s.clears
    requires forall j :: j != i ==> (ValidRead(s1, j) <==> ValidRead(s, j))
    ensures Tags(Attach(s1, d, v, i, write, sid))
  {
    var s' := Attach(s1, d, v, i, write, sid);
    forall j | j != i ensures ValidRead(s', j) <==> ValidRead(s1, j) {
      assert j in s1.inodes ==> s1.inodes[j] != d;
    }
    assert ValidRead(s', i);
  }

  lemma AttachKeeps(s: State, d: DelegId, v: ServerId, i: InodeId, write: bool, sid: Stateid)
    requires Inv(s) && d !in s.used && v in s.lists && i !in s.inodes && sid.other !in s.bearer
    ensures Inv(Attach(s, d, v, i, write, sid))
  {
    AttachKeepsPointers(s, d, v, i, write, sid);
    AttachKeepsNamed(s, d, v, i, write, sid);
    AttachKeepsRest(s, d, v, i, write, sid);
    TagsAfterAttach(s, s, d, v, i, write, sid);
  }

  /** Replacing delegation old_ of inode i, last seen with correct tags in state s0, by a new one. */
  lemma ReplaceKeeps(s0: State, s: State, old_: DelegId, d: DelegId, v: ServerId, i: InodeId, write: bool, sid: Stateid)
    requires Pointers(s0) && Tags(s0) && Shape(s) && Counter(s)
    requires Attached(s, old_) && s.delegs[old_].inode == Some(i) && d !in s.used && v in s.lists
    requires sid.other !in s.bearer
    requires s.alias == s0.alias && s.tagged == s0.tagged && s.clears == s0.clears
    requires forall j :: j != i ==> (ValidRead(s, j) <==> ValidRead(s0, j))
    ensures Inv(Attach(Detach(s, old_), d, v, i, write, sid))
  {
    var s1 := Detach(s, old_);
    DetachKeepsPointers(s, old_);
    DetachKeepsLists(s, old_);
    DetachKeepsRest(s, old_);
    DetachKeepsNamed(s, old_);
    AttachKeepsNamed(s1, d, v, i, write, sid);
    AttachKeepsPointers(s1, d, v, i, write, sid);
    AttachKeepsRest(s1, d, v, i, write, sid);
    DetachElsewhere(s, old_);
    TagsAfterAttach(s0, s1, d, v, i, write, sid);
  }

  /** The upgrade path sets RETURNING on the old delegation before it detaches it. */
  lemma UpgradeStarts(s: State, x: DelegId)
    requires Inv(s) && Attached(s, x) && !s.delegs[x].flags.returning
    ensures var s1 := WithFlags(s, x, s.delegs[x].flags.(returning := true));
            && Shape(s1) && Counter(s1)
            && forall j :: j != s.delegs[x].inode.value ==> (ValidRead(s1, j) <==> ValidRead(s, j))
  {
    About(s, x);
    var s1 := WithFlags(s, x, s.delegs[x].flags.(returning := true));
    LoneFlagIsLocal(s, x);
    LocalKeepsShape(s, s1, x);
    CounterFollows(s, s1, x);
    FlagsElsewhere(s, x, s.delegs[x].flags.(returning := true));
  }

  lemma LoneFlagIsLocal(s: State, x: DelegId)
    requires Attached(s, x) && Balanced(s, x) && !s.delegs[x].flags.returning
    ensures var s1 := WithFlags(s, x, s.delegs[x].flags.(returning := true)); Local(s, s1, x) && Balanced(s1, x)
  {
  }

  lemma FlagsElsewhere(s: State, x: DelegId, f: Flags)
    requires Pointers(s) && Attached(s, x)
    ensures forall j :: j != s.delegs[x].inode.value ==> (ValidRead(WithFlags(s, x, f), j) <==> ValidRead(s, j))
  {
    forall j | j != s.delegs[x].inode.value ensures ValidRead(WithFlags(s, x, f), j) <==> ValidRead(s, j) {
      assert j in s.inodes ==> s.inodes[j] != x;
    }
  }

  lemma UpgradeKeeps(s: State, d: DelegId, v: ServerId, i: InodeId, write: bool, sid: Stateid)
    requires Inv(s) && i in s.inodes && d !in s.used && v in s.lists && sid.other !in s.bearer
    requires !s.delegs[s.inodes[i]].flags.returning
    ensures var x := s.inodes[i]; Inv(Replace(s, x, s.delegs[x].flags.(returning := true), d, v, i, write, sid))
  {
    var x := s.inodes[i];
    UpgradeStarts(s, x);
    ReplaceKeeps(s, WithFlags(s, x, s.delegs[x].flags.(returning := true)), x, d, v, i, write, sid);
  }

  lemma RevokedGivesWay(s: State, d: DelegId, v: ServerId, i: InodeId, write: bool, sid: Stateid)
    requires Inv(s) && i in s.inodes && d !in s.used && v in s.lists && sid.other !in s.bearer
    ensures var x := s.inodes[i]; Inv(Replace(s, x, s.delegs[x].flags, d, v, i, write, sid))
  {
    SameFlags(s, s.inodes[i]);
    ReplaceKeeps(s, s, s.inodes[i], d, v, i, write, sid);
  }

  lemma SameFlags(s: State, x: DelegId)
    requires x in s.delegs
    ensures WithFlags(s, x, s.delegs[x].flags) == s
  {
  }

  /** A grant for an inode whose delegation bears the stateid already. */
  lemma UpdateKeeps(s: State, d: DelegId, w: bool, sid: Stateid)
    requires Inv(s) && Attached(s, d) && s.delegs[d].stateid.other == sid.other
    ensures Inv(UpdateInPlace(s, d, w, sid))
  {
    var x := s.delegs[d];
    assert NamedRight(s, d);
    if Newer32(sid.seqid, x.stateid.seqid) {
      RenewKeeps(s, d, x.(stateid := x.stateid.(seqid := sid.seqid), write := w));
    }
  }

  /** A duplicate that is thrown away. */
  lemma DiscardKeeps(s: State, i: InodeId)
    requires Inv(s)
    ensures Inv(Discard(s, i))
  {
    SameDelegsKeeps(s, Discard(s, i));
  }

  lemma GrantKeeps(s: State, v: ServerId, i: InodeId, w: bool, sid: Stateid, id: DelegId)
    requires Inv(s) && Enabled(s, Grant(v, i, w, sid, id))
    ensures Inv(DoGrant(s, v, i, w, sid, id))
  {
    if i !in s.inodes {
      AttachKeeps(s, id, v, i, w, sid);
    } else {
      var d := s.inodes[i];
      var x := s.delegs[d];
      if x.stateid.other == sid.other {
        UpdateKeeps(s, d, w, sid);
      } else if x.flags.revoked {
        RevokedGivesWay(s, id, v, i, w, sid);
      } else if w == x.write || !w {
        DiscardKeeps(s, i);
      } else if !x.flags.returning {
        UpgradeKeeps(s, id, v, i, w, sid);
      }
    }
  }

  lemma ReclaimKeeps(s: State, v: ServerId, i: InodeId, w: bool, sid: Stateid, id: DelegId)
    requires Inv(s) && Enabled(s, Reclaim(v, i, w, sid, id))
    ensures Inv(DoReclaim(s, v, i, w, sid, id))
  {
    if i !in s.inodes {
      GrantKeeps(s, v, i, w, sid, id);
    } else {
      var x := s.delegs[s.inodes[i]];
      RenewKeeps(s, s.inodes[i], x.(stateid := sid, write := w, flags := x.flags.(needReclaim := false)));
    }
  }

  /** Detaching is safe for the tags when none is left that would need the delegation. */
  lemma DetachKeeps(s: State, d: DelegId)
    requires Inv(s) && Attached(s, d)
    requires forall t :: t in s.tagged && s.alias[t] == s.delegs[d].inode.value ==> s.delegs[d].inode.value in s.clears
    ensures Inv(Detach(s, d))
  {
    var s' := Detach(s, d);
    var i := s.delegs[d].inode.value;
    DetachKeepsPointers(s, d);
    DetachKeepsLists(s, d);
    DetachKeepsRest(s, d);
    DetachKeepsNamed(s, d);
    DetachElsewhere(s, d);
    assert Tags(s');
  }

  /** A reaper holds the return of d, so RETURNING is set and the tags are being cleared. */
  lemma ReapKeeps(s: State, d: DelegId)
    requires Inv(s) && d in s.returning
    ensures Inv(DoReapDetach(s, d))
  {
    if Attached(s, d) {
      About(s, d);
      assert !ValidRead(s, s.delegs[d].inode.value);
      DetachKeeps(s, d);
    }
  }

  /** Flags of a detached delegation concern nobody. */
  lemma LooseFlagsAreHarmless(s: State, d: DelegId, f: Flags)
    requires d in s.delegs && s.delegs[d].inode.None? && Balanced(s, d) && f.revoked == s.delegs[d].flags.revoked
    ensures Harmless(s, WithFlags(s, d, f), d)
  {
  }

  lemma EvictKeeps(s: State, i: InodeId)
    requires Inv(s) && Enabled(s, Evict(i))
    ensures Inv(DoEvict(s, i))
  {
    if i in s.inodes {
      var d := s.inodes[i];
      DetachKeeps(s, d);
      var s1 := Detach(s, d);
      var f := s1.delegs[d].flags.(returning := true, inodeFreeing := true);
      About(s1, d);
      LooseFlagsAreHarmless(s1, d, f);
      HarmlessKeeps(s1, WithFlags(s1, d, f), d);
    }
  }

  // ------------------------------------------------------------ walks over the lists

  lemma MarkKeeps(s: State, d: DelegId)
    requires Inv(s) && Attached(s, d)
    ensures Inv(DoMark(s, d))
  {
    FlagsKeep(s, d, s.delegs[d].flags.(ret := true), true);
  }

  /** The client-wide flag may be cleared first: the walk that does it has every delayed return ahead. */
  lemma TakeDelayedKeeps(s: State)
    requires Inv(s)
    ensures Inv(DoTakeDelayed(s))
  {
    if s.delayed {
      SameDelegsKeeps(s, DoTakeDelayed(s));
    }
  }

  lemma VisitIsHarmless(s: State, d: DelegId)
    requires Attached(s, d) && Balanced(s, d)
    ensures Harmless(s, DoVisit(s, d), d)
  {
    assert s.delegs == s.delegs[d := s.delegs[d]];
  }

  /** A visit turns a delayed return into a due one, or finds none. */
  lemma VisitKeeps(s: State, d: DelegId)
    requires Inv(s) && d in s.walk
    ensures Inv(DoVisit(s, d))
  {
    if Attached(s, d) {
      About(s, d);
      VisitIsHarmless(s, d);
      HarmlessKeeps(s, DoVisit(s, d), d);
    } else {
      SameDelegsKeeps(s, DoVisit(s, d));
    }
  }

  // ------------------------------------------------------------ the tags

  /** Tags and clears alone: what they have to agree with is the same. */
  lemma RetaggedKeeps(s: State, s': State)
    requires Inv(s) && SameDelegs(s, s') && Delayed(s') && s'.active == s.active && s'.discarded == s.discarded
    requires Tags(s')
    ensures Inv(s')
  {
    SameDelegsKeepsShape(s, s');
    assert Counted(s') == Counted(s);
  }

  lemma SetVerifierKeeps(s: State, t: DentryId)
    requires Inv(s) && t in s.alias
    ensures Inv(DoSetVerifier(s, t))
  {
    var s' := DoSetVerifier(s, t);
    assert forall i :: ValidRead(s', i) <==> ValidRead(s, i);
    RetaggedKeeps(s, s');
  }

  lemma ClearVerifierKeeps(s: State, i: InodeId)
    requires Inv(s) && i in s.clears
    ensures Inv(DoClearVerifier(s, i))
  {
    var s' := DoClearVerifier(s, i);
    assert forall j :: ValidRead(s', j) <==> ValidRead(s, j);
    RetaggedKeeps(s, s');
  }

  // ------------------------------------------------------------ runs

  /** The steps that end what a thread is in the middle of. */
  lemma EndingStepKeepsInv(s: State, op: Op)
    requires Inv(s) && Enabled(s, op)
    requires op.Abort? || op.Finish? || op.Returned? || op.FreeHeld? || op.ReapDetach?
    ensures Inv(Step(s, op))
  {
    match op
    case Abort(d, again) => AbortKeeps(s, d, again);
    case Finish(d, call) => FinishKeeps(s, d, call);
    case Returned(d, sid) => ReturnedKeeps(s, d, sid);
    case FreeHeld(d) => FreeKeeps(s, d);
    case ReapDetach(d) => ReapKeeps(s, d);
  }

  lemma MarkIfClosedKeeps(s: State, d: DelegId)
    requires Inv(s) && Attached(s, d)
    ensures Inv(DoMarkIfClosed(s, d))
  {
    FlagsKeep(s, d, s.delegs[d].flags.(retIfClosed := true), true);
  }

  lemma AnnotateKeeps(s: State, d: DelegId, n: bool, r: bool, e: bool)
    requires Inv(s) && Attached(s, d)
    ensures Inv(DoAnnotate(s, d, n, r, e))
  {
    FlagsKeep(s, d, s.delegs[d].flags.(needReclaim := n, referenced := r, testExpired := e), s.delegReturn);
  }

  lemma RecallKeeps(s: State, i: InodeId)
    requires Inv(s)
    ensures Inv(DoRecall(s, i))
  {
    if ValidRead(s, i) {
      FlagsKeep(s, s.inodes[i], s.delegs[s.inodes[i]].flags.(ret := true), true);
    }
  }

  /** The steps that mark one delegation. */
  lemma MarkingStepKeepsInv(s: State, op: Op)
    requires Inv(s) && Enabled(s, op) && (op.Recall? || op.Mark? || op.MarkIfClosed?)
    ensures Inv(Step(s, op))
  {
    match op
    case Recall(i) => RecallKeeps(s, i);
    case Mark(d) => MarkKeeps(s, d);
    case MarkIfClosed(d) => MarkIfClosedKeeps(s, d);
  }

  /** The steps of the state manager, and what it notes about a delegation. */
  lemma ManagerStepKeepsInv(s: State, op: Op)
    requires Inv(s) && Enabled(s, op) && (op.Annotate? || op.TakeDelayed? || op.Visit?)
    ensures Inv(Step(s, op))
  {
    match op
    case Annotate(d, n, r, e) => AnnotateKeeps(s, d, n, r, e);
    case TakeDelayed => TakeDelayedKeeps(s);
    case Visit(d) => VisitKeeps(s, d);
  }

  /** The steps that act on an inode, and on its delegation if it has one. */
  lemma InodeStepKeepsInv(s: State, op: Op)
    requires Inv(s) && Enabled(s, op)
    requires op.Grant? || op.Reclaim? || op.Start? || op.OnClose? || op.Revoke? || op.Evict?
    ensures Inv(Step(s, op))
  {
    match op
    case Grant(v, i, w, sid, id) => GrantKeeps(s, v, i, w, sid, id);
    case Reclaim(v, i, w, sid, id) => ReclaimKeeps(s, v, i, w, sid, id);
    case Start(i) => StartKeeps(s, i);
    case OnClose(i, isOpen, crowded) => OnCloseKeeps(s, i, isOpen, crowded);
    case Revoke(i, which) => RevokeKeeps(s, i, which);
    case Evict(i) => EvictKeeps(s, i);
  }

  /** Every step of every thread keeps the books, the counter, the tags and the names right. */
  lemma StepKeepsInv(s: State, op: Op)
    requires Inv(s) && Enabled(s, op)
    ensures Inv(Step(s, op))
  {
    if op.Grant? || op.Reclaim? || op.Start? || op.OnClose? || op.Revoke? || op.Evict? {
      InodeStepKeepsInv(s, op);
    } else if op.Abort? || op.Finish? || op.Returned? || op.FreeHeld? || op.ReapDetach? {
      EndingStepKeepsInv(s, op);
    } else if op.Recall? || op.Mark? || op.MarkIfClosed? {
      MarkingStepKeepsInv(s, op);
    } else if op.Annotate? || op.TakeDelayed? || op.Visit? {
      ManagerStepKeepsInv(s, op);
    } else if op.Pick? {
      PickKeeps(s, op.d, op.isOpen, op.grabbed);
    } else {
      match op
      case SetVerifier(t) => SetVerifierKeeps(s, t);
      case ClearVerifier(i) => ClearVerifierKeeps(s, i);
    }
  }
}
