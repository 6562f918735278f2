/**
The loop that returns marked delegations (bundle/fs/nfs/delegation.c, lines 567-663).

Each return drops the RCU read lock, so the scan of the server's list has to start
again.  It resumes from a place holder, a delegation seen before the one just returned,
and yet it finds what a scan of the whole list would find.
 */
module DelegationReturn {
  import opened Common
  import opened Delegation

  /** The delegation is marked, and its inode is not known to be going away. */
  predicate Marked(f: Flags, isOpen: bool) {
    !f.inodeFreeing && Asked(f, isOpen)
  }

  /** The delegation is one that a scan has to return. */
  predicate Needs(f: Flags, isOpen: bool) {
    !f.inodeFreeing && Asked(f, isOpen) && !Barred(f)
  }

  /** The position of x in the list, or its length. */
  function IndexOf(list: seq<DelegId>, x: DelegId): (k: nat)
    ensures k <= |list|
    ensures k < |list| ==> list[k] == x
    ensures x in list[..k] ==> false
    ensures k == |list| <==> x !in list
  {
    if list == [] then 0
    else if list[0] == x then 0
    else
      var k := IndexOf(list[1..], x);
      assert list == [list[0]] + list[1..] && list[..k+1] == [list[0]] + list[1..][..k];
      k + 1
  }

  /**
  What other threads may do between two scans: detach delegations, attach new ones at the
  end of the list, start and end returns, open and close files, but not mark any delegation
  for return; closing the last file under RETURN_IF_CLOSED is such a mark.
   */
  predicate Quiet(open: set<DelegId>, list: seq<DelegId>, flags: map<DelegId, Flags>,
                  open': set<DelegId>, list': seq<DelegId>, flags': map<DelegId, Flags>) {
    && Distinct(list')
    && (forall d :: d in list' ==> d in flags')
    && (forall d :: d in list' && Marked(flags'[d], d in open') ==>
          d in list && d in flags && Marked(flags[d], d in open))
    && (forall i, j :: 0 <= i < j < |list'| && list'[j] in list ==>
          list'[i] in list && IndexOf(list, list'[i]) < IndexOf(list, list'[j]))
  }

  /** Outcome of nfs_end_delegation_return: success, "try again", or another error. */
  datatype Outcome = Done | TryAgain | Failed

  /** How a return ends: its outcome, and after a success whether the server has replied, and to a renewed one. */
  datatype End = End(outcome: Outcome, answered: bool, renewed: bool)

  /** The flags once the return has ended, and perhaps been answered by the server. */
  function AfterReturn(f: Flags, end: End): (f': Flags)
    ensures f'.ret == f.ret && f'.retIfClosed == f.retIfClosed && f'.inodeFreeing == f.inodeFreeing
  {
    match end.outcome
    case TryAgain => f.(returning := false, retDelayed := true)
    case Failed => f.(returning := false)
    case Done => if !end.answered then f else f.(returning := false, revoked := f.revoked || !end.renewed)
  }

  /** The flags of a delegation that has been picked and returned. */
  function Ended(f: Flags, end: End): Flags {
    AfterReturn(f.(ret := false, retIfClosed := false, returning := true, retDelayed := false), end)
  }

  /** A scan has passed: marks may have been taken, and a delegation whose inode is gone may be known as such. */
  predicate Swept(f: Flags, f': Flags, isOpen: bool, isAlive: bool) {
    && f'.(ret := f.ret, retIfClosed := f.retIfClosed, inodeFreeing := f.inodeFreeing) == f
    && (f'.ret ==> f.ret) && (f'.retIfClosed ==> f.retIfClosed) && (f.inodeFreeing ==> f'.inodeFreeing)
    && (f.retIfClosed && !f'.retIfClosed ==> Asked(f, isOpen)) && (f'.inodeFreeing && !f.inodeFreeing ==> !isAlive)
  }

  ghost predicate SweptAll(a: map<DelegId, Flags>, b: map<DelegId, Flags>, open: set<DelegId>, alive: set<DelegId>) {
    b.Keys == a.Keys && forall d :: d in a ==> Swept(a[d], b[d], d in open, d in alive)
  }

  lemma SweptTwice(a: map<DelegId, Flags>, b: map<DelegId, Flags>, c: map<DelegId, Flags>, open: set<DelegId>,
                   alive: set<DelegId>)
    requires SweptAll(a, b, open, alive) && SweptAll(b, c, open, alive)
    ensures SweptAll(a, c, open, alive)
  {
  }

  /** What a look of the scan at one delegation does. */
  lemma LookSweeps(f: Flags, isOpen: bool, isAlive: bool)
    requires !f.inodeFreeing
    ensures var (f', need) := NeedReturn(f, isOpen);
            && Swept(f, f', isOpen, isAlive) && !Marked(f', isOpen) && (need <==> Needs(f, isOpen))
            && (need ==> f' == f.(ret := false, retIfClosed := false))
            && f'.revoked == f.revoked && f'.returning == f.returning
  {
    NeedReturnMeans(f, isOpen);
  }

  function Looked(f: Flags, isOpen: bool): Flags {
    NeedReturn(f, isOpen).0
  }

  lemma LookedSweeps(a: map<DelegId, Flags>, b: map<DelegId, Flags>, d: DelegId, open: set<DelegId>,
                     alive: set<DelegId>)
    requires SweptAll(a, b, open, alive) && d in b && !b[d].inodeFreeing
    ensures SweptAll(a, b[d := Looked(b[d], d in open)], open, alive)
  {
    LookSweeps(b[d], d in open, d in alive);
    SweptTwice(a, b, b[d := Looked(b[d], d in open)], open, alive);
  }

  /** A delegation that is not marked, and whose inode is there, is left alone by later scans. */
  lemma SweptClean(f: Flags, f': Flags, isOpen: bool)
    requires Swept(f, f', isOpen, true) && !f.ret && !f.retIfClosed
    ensures f' == f
  {
  }

  /** The flags that the loop leaves are those of the delegation machine: picked, given up, or answered. */
  lemma PickAgrees(s: State, d: DelegId, isOpen: bool)
    requires Attached(s, d) && Needs(s.delegs[d].flags, isOpen)
    ensures var s' := DoPick(s, d, isOpen, true);
            && d in s'.delegs && d in s'.returning
            && s'.delegs[d].flags == Ended(s.delegs[d].flags, End(Done, false, false))
  {
    var f := s.delegs[d].flags;
    NeedReturnMeans(f, isOpen);
    assert DoPick(s, d, isOpen, true) == BeginReturn(s, d, NeedReturn(f, isOpen).0.(retDelayed := false));
  }

  lemma AbortAgrees(s: State, d: DelegId, again: bool)
    requires d in s.delegs && d in s.returning
    ensures var s' := DoAbort(s, d, again);
            var end := End(if again then TryAgain else Failed, false, false);
            d in s'.delegs ==> s'.delegs[d].flags == AfterReturn(s.delegs[d].flags, end)
  {
  }

  lemma AnswerAgrees(s: State, d: DelegId, sid: Stateid)
    requires Attached(s, d) && s.delegs[d].stateid.other == sid.other
    ensures var renewed := sid.seqid != 0 && Newer32(s.delegs[d].stateid.seqid, sid.seqid);
            MarkReturned(s, d, sid).delegs[d].flags == AfterReturn(s.delegs[d].flags, End(Done, true, renewed))
  {
  }

  ghost predicate Clear(list: seq<DelegId>, k: nat, marked: set<DelegId>)
    requires k <= |list|
  {
    forall i :: 0 <= i < k ==> list[i] !in marked
  }

  /** Nothing before d is marked. */
  ghost predicate GoodIn(list: seq<DelegId>, d: DelegId, marked: set<DelegId>) {
    d in list ==> Clear(list, IndexOf(list, d), marked)
  }

  lemma GoodStays(list: seq<DelegId>, d: DelegId, marked: set<DelegId>, marked': set<DelegId>)
    requires GoodIn(list, d, marked) && marked' <= marked
    ensures GoodIn(list, d, marked')
  {
  }

  /** nfs4_is_valid_delegation, of one that is not going away. */
  predicate Lasting(f: Flags) {
    !f.inodeFreeing && !f.revoked && !f.returning
  }

  /** The last lasting delegation between positions k and j. */
  function LastBetween(list: seq<DelegId>, flags: map<DelegId, Flags>, k: nat, j: nat): Option<DelegId>
    requires k <= j <= |list| && forall d :: d in list ==> d in flags
  {
    if j == k then None
    else if Lasting(flags[list[j - 1]]) then Some(list[j - 1])
    else LastBetween(list, flags, k, j - 1)
  }

  lemma {:induction false} LastStays(list: seq<DelegId>, a: map<DelegId, Flags>, b: map<DelegId, Flags>, k: nat, j: nat)
    requires k <= j <= |list| && (forall d :: d in list ==> d in a && d in b)
    requires forall i :: k <= i < j ==> b[list[i]] == a[list[i]]
    ensures LastBetween(list, b, k, j) == LastBetween(list, a, k, j)
    decreases j
  {
    if j > k {
      LastStays(list, a, b, k, j - 1);
    }
  }

  lemma {:induction false} LastIsBefore(list: seq<DelegId>, flags: map<DelegId, Flags>, k: nat, j: nat)
    requires k <= j <= |list| && forall d :: d in list ==> d in flags
    ensures var p := LastBetween(list, flags, k, j); p.Some? ==> p.value in list && IndexOf(list, p.value) < j
    decreases j
  {
    if j > k {
      LastIsBefore(list, flags, k, j - 1);
    }
  }

  lemma ClearMore(list: seq<DelegId>, k: nat, marked: set<DelegId>, marked': set<DelegId>)
    requires k < |list| && Clear(list, k, marked) && marked' <= marked && list[k] !in marked'
    ensures Clear(list, k + 1, marked')
  {
  }

  class ServerDelegations {
    var open: set<DelegId>         // delegations whose inode has open files
    var alive: set<DelegId>        // delegations whose inode can still be grabbed
    var list: seq<DelegId>         // server->delegations
    var flags: map<DelegId, Flags>
    var delegReturn: bool          // NFS4CLNT_DELEGRETURN
    ghost var started: seq<DelegId>   // the returns this loop has started
    ghost var touched: set<DelegId>   // those another thread made due, or no longer due

    ghost predicate Valid()
      reads this
    {
      Distinct(list) && forall d :: d in list ==> d in flags
    }

    /** The delegations that still carry a mark. */
    ghost function Pending(): set<DelegId>
      reads this
    {
      set d | d in list && d in flags && Marked(flags[d], d in open)
    }

    /** The delegations that a scan of the whole list would return, one after the other. */
    ghost function Due(): set<DelegId>
      reads this
    {
      set d | d in list && d in flags && Needs(flags[d], d in open) && d in alive
    }

    lemma DueIsPending()
      ensures Due() <= Pending()
    {
    }

    /** Nothing before position k carries a mark. */
    ghost predicate ClearBefore(k: nat)
      requires Valid() && k <= |list|
      reads this
    {
      Clear(list, k, Pending())
    }

    /** A place holder is good: once it is found in the list, nothing before it is marked. */
    ghost predicate Good(place: Option<DelegId>)
      requires Valid()
      reads this
    {
      place.Some? ==> GoodAt(place.value)
    }

    ghost predicate GoodAt(d: DelegId)
      requires Valid()
      reads this
    {
      GoodIn(list, d, Pending())
    }

    /** Since the old state, delegations have become due, or no longer due, only by other threads. */
    twostate predicate DueOrTouched()
      reads this
    {
      old(touched) <= touched && forall d :: d !in touched ==> (d in Due() <==> d in old(Due()))
    }

    twostate predicate Undisturbed()
      reads this
    {
      open == old(open) && alive == old(alive) && list == old(list)
    }

    /** Other threads run, unless the caller says that they do not. */
    method Interfere(calm: bool, ghost place: Option<DelegId>)
      requires Valid() && Good(place) && (place.Some? ==> place.value in list)
      modifies this`open, this`alive, this`list, this`flags, this`touched
      ensures Valid() && Good(place) && Pending() <= old(Pending()) && alive <= old(alive)
      ensures DueOrTouched() && (calm ==> touched == old(touched))
      ensures calm ==> Undisturbed() && flags == old(flags)
    {
      var open': set<DelegId>, gone: set<DelegId> := *, *;
      var list': seq<DelegId> := *;
      var flags': map<DelegId, Flags> := *;
      ghost var was, wasDue := Pending(), Due();
      if !calm && Quiet(open, list, flags, open', list', flags') {
        ghost var before := list;
        open, alive, list, flags := open', alive - gone, list', flags';
        touched := touched + (wasDue - Due()) + (Due() - wasDue);
        if place.Some? && place.value in list {
          forall i | 0 <= i < IndexOf(list, place.value) ensures list[i] !in Pending() {
            assert list[IndexOf(list, place.value)] in before;
            assert IndexOf(before, list[i]) < IndexOf(before, place.value);
            assert before[IndexOf(before, list[i])] !in was;
          }
        }
      }
    }

    /** One flag update; it may take marks away but not add any. */
    method Update(d: DelegId, f: Flags)
      requires Valid() && d in flags && (Marked(f, d in open) ==> Marked(flags[d], d in open))
      modifies this`flags
      ensures Valid() && flags == old(flags)[d := f]
      ensures Pending() == if Marked(f, d in open) then old(Pending()) else old(Pending()) - {d}
      ensures !Marked(f, d in open) ==> Due() == old(Due()) - {d}
      ensures forall p: DelegId :: old(GoodAt(p)) ==> GoodAt(p)
    {
      flags := flags[d := f];
    }

    /** nfs_delegation_need_return on one delegation of the list. */
    method Look(d: DelegId) returns (need: bool)
      requires Valid() && d in list && !flags[d].inodeFreeing
      modifies this`flags
      ensures Valid() && Pending() == old(Pending()) - {d} && Due() == old(Due()) - {d}
      ensures need <==> d in old(Needing())
      ensures need ==> d in old(Pending())
      ensures flags == old(flags)[d := Looked(old(flags)[d], d in open)]
    {
      LookSweeps(flags[d], d in open, d in alive);
      var (f, n) := NeedReturn(flags[d], d in open);
      Update(d, f);
      need := n;
    }

    /** Those that need a return, whether or not their inode can be grabbed. */
    ghost function Needing(): set<DelegId>
      reads this
    {
      set d | d in list && d in flags && Needs(flags[d], d in open)
    }

    lemma DueNeeds(d: DelegId)
      ensures d in Due() ==> d in Needing()
    {
    }

    lemma DueIsNeeding()
      ensures Due() == Needing() * alive
    {
    }

    /**
    The scan of the list from position k on, up to the first delegation to return.
    Since nothing before k is marked, this is the first of the whole list; what it takes
    the mark from on the way does not need to be returned.
     */
    method Scan(k: nat) returns (j: nat, prev: Option<DelegId>)
      requires Valid() && k <= |list| && ClearBefore(k)
      modifies this`flags
      ensures Valid() && k <= j <= |list| && ClearBefore(j) && Pending() <= old(Pending())
      ensures SweptAll(old(flags), flags, open, alive)
      ensures j == |list| ==> Due() == old(Due())
      ensures j < |list| ==> list[j] in old(Pending()) && list[j] in old(Needing()) && list[j] !in Pending()
      ensures j < |list| ==> flags[list[j]] == Looked(old(flags)[list[j]], list[j] in open)
      ensures j < |list| ==> Due() == old(Due()) - {list[j]}
      ensures prev.Some? ==> prev.value in list && IndexOf(list, prev.value) < j
      ensures prev == LastBetween(list, flags, k, j)
    {
      j, prev := k, None;
      DistinctPairs(list);
      while j < |list|
        invariant Valid() && k <= j <= |list| && ClearBefore(j) && Pending() <= old(Pending()) && Due() == old(Due())
        invariant SweptAll(old(flags), flags, open, alive)
        invariant forall i :: j <= i < |list| ==> flags[list[i]] == old(flags)[list[i]]
        invariant prev == LastBetween(list, flags, k, j)
      {
        ghost var before := flags;
        var need := ScanOne(j, old(flags));
        LastStays(list, before, flags, k, j);
        if need {
          break;
        }
        if !flags[list[j]].inodeFreeing && !flags[list[j]].revoked && !flags[list[j]].returning {
          prev := Some(list[j]);
        }
        j := j + 1;
      }
      LastIsBefore(list, flags, k, j);
    }

    /** The scan at position j. */
    method ScanOne(j: nat, ghost first: map<DelegId, Flags>) returns (need: bool)
      requires Valid() && j < |list| && ClearBefore(j) && SweptAll(first, flags, open, alive)
      modifies this`flags
      ensures Valid() && ClearBefore(j) && Pending() <= old(Pending()) && SweptAll(first, flags, open, alive)
      ensures flags == old(flags)[list[j] := flags[list[j]]]
      ensures need ==>
                && list[j] in old(Pending()) && list[j] in old(Needing()) && list[j] !in Pending()
                && flags[list[j]] == Looked(old(flags)[list[j]], list[j] in open) && Due() == old(Due()) - {list[j]}
      ensures !need ==> ClearBefore(j + 1) && Due() == old(Due())
    {
      need := false;
      var d := list[j];
      if !flags[d].inodeFreeing {
        ghost var before, marked := flags, Pending();
        need := Look(d);
        LookedSweeps(first, before, d, open, alive);
        if !need {
          DueNeeds(d);
          ClearMore(list, j, marked, Pending());
        }
      }
    }

    /** Where the next scan starts: at the place holder while it is attached, or at the head. */
    method Resume(place: Option<DelegId>) returns (k: nat)
      requires Valid() && Good(place)
      ensures k <= |list| && ClearBefore(k)
    {
      if place.Some? && place.value in list {
        k := IndexOf(list, place.value);
      } else {
        k := 0;
      }
    }

    /** The next place holder: the one seen before position j, if its inode can be grabbed. */
    method Hold(j: nat, prev: Option<DelegId>, place: Option<DelegId>) returns (place': Option<DelegId>)
      requires Valid() && Good(place) && j < |list| && ClearBefore(j)
      requires prev.Some? ==> prev.value in list && IndexOf(list, prev.value) < j
      modifies this`flags
      ensures Valid() && Good(place') && Pending() == old(Pending()) && Due() == old(Due())
      ensures forall d :: d in flags && (d in alive || prev != Some(d)) ==> d in old(flags) && flags[d] == old(flags)[d]
      ensures SweptAll(old(flags), flags, open, alive)
      ensures place' == if prev.Some? && prev.value in alive then prev else place
      ensures prev.Some? && prev.value !in alive ==> flags[prev.value].inodeFreeing
    {
      place' := place;
      if prev.Some? {
        if prev.value in alive {
          place' := prev;                              // nothing up to j is marked
        } else {
          assert prev.value !in Pending();
          Update(prev.value, flags[prev.value].(inodeFreeing := true));
        }
      }
    }

    /** One scan, with the choice of the next place holder. */
    method Pick(place: Option<DelegId>) returns (pick: Option<DelegId>, place': Option<DelegId>)
      requires Valid() && Good(place)
      modifies this`flags
      ensures Valid() && Good(place') && Pending() <= old(Pending()) && SweptAll(old(flags), flags, open, alive)
      ensures pick.None? ==> Pending() == {} && Due() == old(Due())
      ensures pick.Some? ==> pick.value in list && pick.value in old(Needing()) && pick.value in old(Pending())
      ensures pick.Some? ==> pick.value !in Pending() && Due() == old(Due()) - {pick.value}
      ensures pick.Some? ==> flags[pick.value] == Looked(old(flags)[pick.value], pick.value in open)
    {
      var k := Resume(place);
      ghost var marked := Pending();
      var j, prev := Scan(k);
      if place.Some? {
        GoodStays(list, place.value, marked, Pending());
      }
      if j == |list| {
        return None, place;
      }
      ghost var before := flags;
      DistinctPairs(list);
      place' := Hold(j, prev, place);
      SweptTwice(old(flags), before, flags, open, alive);
      pick := Some(list[j]);
    }

    /** nfs_end_delegation_return of d, whose return has begun, with whatever other threads do meanwhile. */
    method EndReturn(d: DelegId, end: End, calm: bool, ghost place: Option<DelegId>)
      requires Valid() && Good(place) && (place.Some? ==> place.value in list) && d in list && d !in Pending()
      requires flags[d].returning && !flags[d].retDelayed
      modifies this`open, this`alive, this`list, this`flags, this`touched
      ensures Valid() && Good(place) && Pending() <= old(Pending()) && alive <= old(alive)
      ensures DueOrTouched() && (calm ==> touched == old(touched))
      ensures calm ==> Undisturbed() && flags == old(flags)[d := AfterReturn(old(flags)[d], end)]
    {
      Interfere(calm, place);
      if d in list {
        DueIsPending();
        Update(d, AfterReturn(flags[d], end));
      }
    }

    /**
    nfs_server_return_marked_delegations, where ends(d) is how the return of d ends.  It terminates, and if it reports
    no error then no mark is left.  It starts a return at most once, and only of marked delegations whose inode it can
    grab.  These are exactly the ones that a scan of the whole list would have returned at the beginning, but for those
    that another thread made due or no longer due.  It goes on until a return fails, and then it tells so.  When no
    other thread interferes, what it started it also ended, and of the others it took no more than marks.
    */
    method ReturnMarked(ends: DelegId -> End, calm: bool) returns (outcome: Outcome)
      requires Valid() && started == [] && touched == {}
      modifies this
      ensures Valid() && Distinct(started) && (calm ==> touched == {})
      ensures outcome.Done? ==> Pending() == {}
      ensures outcome.Done? ==> AllDone(started, ends)
      ensures !outcome.Done? ==> delegReturn && FailedLast(started, ends, outcome)
      ensures forall d :: d in started ==> d in old(Pending()) && d in old(alive)
      ensures forall d :: d in started && d !in touched ==> d in old(Due())
      ensures outcome.Done? ==> forall d :: d in old(Due()) && d !in touched ==> d in started
      ensures calm ==> Undisturbed() && Handled(old(flags), flags, started, ends, open, alive)
    {
      ghost var a := Opening(flags, Pending(), Due(), open, alive, list);
      outcome := ReturnLoop(a, ends, calm);
      if outcome.Done? {
        DueIsPending();
      }
    }

    /** The loop itself. */
    method ReturnLoop(ghost a: Opening, ends: DelegId -> End, calm: bool) returns (outcome: Outcome)
      requires Progress(a, ends, calm) && started == []
      modifies this
      ensures Progress(a, ends, calm)
      ensures outcome.Done? ==> Pending() == {} && AllDone(started, ends)
      ensures !outcome.Done? ==> delegReturn && FailedLast(started, ends, outcome)
    {
      var place: Option<DelegId> := None;
      while true
        invariant Progress(a, ends, calm) && Good(place) && AllDone(started, ends)
        decreases Pending()
      {
        var pick;
        pick, place := PickOn(place, a, ends, calm);
        if pick.None? {
          return Done;
        }
        outcome, place := ReturnOn(pick.value, place, a, ends, calm);
        if !outcome.Done? {
          delegReturn := true;
          return;
        }
      }
    }

    /** How far the loop is, since the start a. */
    ghost predicate Progress(a: Opening, ends: DelegId -> End, calm: bool)
      reads this
    {
      && Valid() && Distinct(started) && Pending() <= a.pending && alive <= a.alive && (calm ==> touched == {})
      && StartedFrom(started, a, Pending()) && Balanced(a.due, Due(), started, touched)
      && (calm ==> open == a.open && alive == a.alive && list == a.list
                   && Handled(a.flags, flags, started, ends, open, alive))
    }

    /** The same, when d has been picked and not yet been started. */
    ghost predicate Picked(a: Opening, ends: DelegId -> End, calm: bool, d: DelegId)
      reads this
    {
      && Valid() && Distinct(started) && Pending() <= a.pending && alive <= a.alive && (calm ==> touched == {})
      && StartedFrom(started, a, Pending()) && Balanced(a.due, Due() + ({d} * alive), started, touched)
      && d in list && d in a.pending && d !in Pending() && d !in started && d !in Due()
      && (calm ==> open == a.open && alive == a.alive && list == a.list
                   && Handled(a.flags, flags, started, ends, open, alive) && Fresh(a, flags, d))
    }

    /** The next delegation to return is picked. */
    method PickOn(place: Option<DelegId>, ghost a: Opening, ends: DelegId -> End, calm: bool)
      returns (pick: Option<DelegId>, place': Option<DelegId>)
      requires Progress(a, ends, calm) && Good(place)
      modifies this`flags
      ensures Valid() && Good(place') && Pending() <= old(Pending())
      ensures pick.None? ==> Progress(a, ends, calm) && Pending() == {}
      ensures pick.Some? ==> Picked(a, ends, calm, pick.value) && pick.value in old(Pending())
    {
      ghost var before, due := flags, Due();
      DueIsNeeding();
      pick, place' := Pick(place);
      if calm {
        HandledSwept(a.flags, before, flags, started, ends, open, alive);
        if pick.Some? {
          LookedFresh(a, before, pick.value, started, ends, open, alive);
        }
      }
      if pick.Some? {
        PickBalances(a.due, due, started, touched, pick.value, alive);
      }
    }

    /** It is returned. */
    method ReturnOn(d: DelegId, place: Option<DelegId>, ghost a: Opening, ends: DelegId -> End, calm: bool)
      returns (outcome: Outcome, place': Option<DelegId>)
      requires Picked(a, ends, calm, d) && Good(place) && AllDone(started, ends)
      modifies this`open, this`alive, this`list, this`flags, this`started, this`touched
      ensures Progress(a, ends, calm) && Good(place') && Pending() <= old(Pending())
      ensures outcome.Done? ==> AllDone(started, ends)
      ensures !outcome.Done? ==> FailedLast(started, ends, outcome)
    {
      ghost var before, due := flags, Due();
      outcome, place' := Return(d, ends(d), calm, place);
      if d in old(alive) {
        assert started[..|started| - 1] == old(started);
        DistinctAppend(old(started), d);
      }
      if calm {
        HandledMore(a, before, flags, old(started), d, ends, open, alive);
      }
      ReturnBalances(a.due, due, Due(), old(started), d, old(alive), old(touched), touched);
    }

    /** The inode of d is going away; the scan starts again, and other threads get in. */
    method GiveUp(d: DelegId, calm: bool, ghost place: Option<DelegId>)
      requires Valid() && Good(place) && (place.Some? ==> place.value in list) && d in list && d !in Pending()
      modifies this`open, this`alive, this`list, this`flags, this`touched
      ensures Valid() && Good(place) && Pending() <= old(Pending()) && alive <= old(alive)
      ensures DueOrTouched() && (calm ==> touched == old(touched))
      ensures calm ==> Undisturbed() && flags == old(flags)[d := old(flags)[d].(inodeFreeing := true)]
    {
      DueIsPending();
      Update(d, flags[d].(inodeFreeing := true));
      Interfere(calm, place);
    }

    /** The body of the loop for the delegation picked. */
    method Return(d: DelegId, end: End, calm: bool, place: Option<DelegId>)
      returns (outcome: Outcome, place': Option<DelegId>)
      requires Valid() && Good(place) && d in list && d !in Pending()
      modifies this`open, this`alive, this`list, this`flags, this`started, this`touched
      ensures Valid() && Good(place') && Pending() <= old(Pending()) && alive <= old(alive)
      ensures started == if d in old(alive) then old(started) + [d] else old(started)
      ensures outcome == if d in old(alive) then end.outcome else Done
      ensures DueOrTouched() && (calm ==> touched == old(touched))
      ensures calm ==> Undisturbed() && flags == old(flags)[d := ReturnedFlags(old(flags)[d], end, d in alive)]
    {
      outcome, place' := Done, place;
      DueIsPending();
      if place.Some? && place.value !in list {
        place' := None;                                // it will not be attached again
      }
      if d !in alive {
        GiveUp(d, calm, place');
      } else {
        Go(d, end, calm, place');
        outcome := end.outcome;
      }
    }

    /** The return itself. */
    method Go(d: DelegId, end: End, calm: bool, ghost place: Option<DelegId>)
      requires Valid() && Good(place) && (place.Some? ==> place.value in list) && d in list && d !in Pending()
      modifies this`open, this`alive, this`list, this`flags, this`started, this`touched
      ensures Valid() && Good(place) && Pending() <= old(Pending()) && alive <= old(alive)
      ensures started == old(started) + [d] && DueOrTouched() && (calm ==> touched == old(touched))
      ensures calm ==>
                && Undisturbed()
                && flags == old(flags)[d := AfterReturn(old(flags)[d].(returning := true, retDelayed := false), end)]
    {
      Begin(d);
      EndReturn(d, end, calm, place);
    }

    /** nfs_start_delegation_return_locked. */
    method Begin(d: DelegId)
      requires Valid() && d in list && d !in Pending()
      modifies this`flags, this`started
      ensures Valid() && Pending() == old(Pending()) && Due() == old(Due()) && started == old(started) + [d]
      ensures flags == old(flags)[d := old(flags)[d].(returning := true, retDelayed := false)]
      ensures forall p: DelegId :: old(GoodAt(p)) ==> GoodAt(p)
    {
      DueIsPending();
      Update(d, flags[d].(returning := true, retDelayed := false));
      started := started + [d];
    }
  }

  /** The flags after the body of the loop. */
  function ReturnedFlags(f: Flags, end: End, isAlive: bool): Flags {
    if isAlive then AfterReturn(f.(returning := true, retDelayed := false), end) else f.(inodeFreeing := true)
  }

  /** What was started has ended as it was to end; from the others marks were taken at most. */
  ghost predicate Handled(a: map<DelegId, Flags>, b: map<DelegId, Flags>, started: seq<DelegId>, ends: DelegId -> End,
                          open: set<DelegId>, alive: set<DelegId>) {
    && b.Keys == a.Keys
    && forall d :: d in a ==> HandledOne(a[d], b[d], d in started, ends(d), d in open, d in alive)
  }

  predicate HandledOne(f: Flags, f': Flags, isStarted: bool, end: End, isOpen: bool, isAlive: bool) {
    if isStarted then f' == Ended(f, end) && isAlive else Swept(f, f', isOpen, isAlive)
  }

  lemma HandledSwept(a: map<DelegId, Flags>, b: map<DelegId, Flags>, c: map<DelegId, Flags>, started: seq<DelegId>,
                     ends: DelegId -> End, open: set<DelegId>, alive: set<DelegId>)
    requires Handled(a, b, started, ends, open, alive) && SweptAll(b, c, open, alive)
    ensures Handled(a, c, started, ends, open, alive)
  {
    forall d | d in started && d in a ensures c[d] == b[d] {
      SweptClean(b[d], c[d], d in open);
    }
  }

  /** The delegation list at the start of a call. */
  datatype Opening = Opening(flags: map<DelegId, Flags>, pending: set<DelegId>, due: set<DelegId>, open: set<DelegId>,
                         alive: set<DelegId>, list: seq<DelegId>)

  ghost predicate AllDone(started: seq<DelegId>, ends: DelegId -> End) {
    forall d :: d in started ==> ends(d).outcome.Done?
  }

  /** All returns but the last succeeded. */
  ghost predicate FailedLast(started: seq<DelegId>, ends: DelegId -> End, outcome: Outcome) {
    && started != [] && ends(started[|started| - 1]).outcome == outcome
    && AllDone(started[..|started| - 1], ends)
  }

  ghost predicate StartedFrom(started: seq<DelegId>, a: Opening, pending: set<DelegId>) {
    forall d :: d in started ==> d in a.pending && d in a.alive && d !in pending
  }

  /** Of those due at first, but for the touched ones, each has been started or is due still. */
  ghost predicate Balanced(first: set<DelegId>, due: set<DelegId>, started: seq<DelegId>, touched: set<DelegId>) {
    forall d :: d !in touched ==> (d in first <==> d in due || d in started)
  }

  lemma PickBalances(first: set<DelegId>, due: set<DelegId>, started: seq<DelegId>, touched: set<DelegId>, d: DelegId,
                     alive: set<DelegId>)
    requires Balanced(first, due, started, touched) && (d in due <==> d in alive)
    ensures Balanced(first, due - {d} + ({d} * alive), started, touched)
  {
  }

  lemma ReturnBalances(first: set<DelegId>, due: set<DelegId>, due': set<DelegId>, started: seq<DelegId>, d: DelegId,
                       alive: set<DelegId>, touched: set<DelegId>, touched': set<DelegId>)
    requires Balanced(first, due + ({d} * alive), started, touched) && touched <= touched'
    requires forall e :: e !in touched' ==> (e in due' <==> e in due)
    ensures Balanced(first, due', if d in alive then started + [d] else started, touched')
  {
  }

  /** The delegation picked has lost its marks and nothing else since the start. */
  ghost predicate Fresh(a: Opening, flags: map<DelegId, Flags>, d: DelegId) {
    && d in a.flags && d in flags && !a.flags[d].inodeFreeing
    && flags[d] == a.flags[d].(ret := false, retIfClosed := false)
  }

  lemma LookedFresh(a: Opening, b: map<DelegId, Flags>, d: DelegId, started: seq<DelegId>, ends: DelegId -> End,
                    open: set<DelegId>, alive: set<DelegId>)
    requires Handled(a.flags, b, started, ends, open, alive) && d in b && d !in started && Needs(b[d], d in open)
    ensures d in a.flags && !a.flags[d].inodeFreeing
    ensures Looked(b[d], d in open) == a.flags[d].(ret := false, retIfClosed := false)
  {
    LookSweeps(b[d], d in open, d in alive);
  }

  lemma HandledMore(a: Opening, b: map<DelegId, Flags>, c: map<DelegId, Flags>, started: seq<DelegId>, d: DelegId,
                    ends: DelegId -> End, open: set<DelegId>, alive: set<DelegId>)
    requires Handled(a.flags, b, started, ends, open, alive) && Fresh(a, b, d) && d !in started
    requires c == b[d := ReturnedFlags(b[d], ends(d), d in alive)]
    ensures Handled(a.flags, c, if d in alive then started + [d] else started, ends, open, alive)
  {
    ReturnedFresh(a.flags[d], b[d], ends(d), d in open, d in alive);
    var started' := if d in alive then started + [d] else started;
    forall e | e in a.flags
      ensures HandledOne(a.flags[e], c[e], e in started', ends(e), e in open, e in alive)
    {
      if e != d {
        assert e in started' <==> e in started;
      }
    }
  }

  lemma ReturnedFresh(f: Flags, g: Flags, end: End, isOpen: bool, isAlive: bool)
    requires Swept(f, g, isOpen, isAlive) && g == f.(ret := false, retIfClosed := false) && !f.inodeFreeing
    ensures isAlive ==> ReturnedFlags(g, end, isAlive) == Ended(f, end)
    ensures !isAlive ==> Swept(f, ReturnedFlags(g, end, isAlive), isOpen, isAlive)
  {
  }
}
