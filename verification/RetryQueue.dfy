/**
The NLM server's queue of blocked locks and the loop that retries them (bundle/fs/lockd/svclock.c).
b_when is an unsigned 64-bit clock value; a block's true due time, which b_when is modulo 2^64, is ghost.
*/
module RetryQueue {
  import opened Common

  type BlockId = nat

  const NEVER: nat := U64 - 1
  const HALF: nat := 0x8000_0000_0000_0000
  const MAX_SCHEDULE_TIMEOUT: nat := HALF - 1

  /** How far from the current pass due times may lie: under a quarter of the clock's range either way. */
  const REACH: nat := 0x3fff_ffff_ffff_ffff

  /** How long one pass may last: a sixteenth of the clock's range. */
  const LONGEST: nat := 0x1000_0000_0000_0000

  /** time_after(a, b): the signed 64-bit difference b - a is negative. */
  predicate TimeAfter(a: nat, b: nat) {
    (b - a) % U64 >= HALF
  }

  datatype Time = At(t: nat) | Never

  /** b_when for a due time. */
  function When(d: Time): nat {
    match d
    case Never => NEVER
    case At(t) => t % U64
  }

  /** The due time of a block inserted at clock reading now; the one value that means NEVER is stepped over. */
  function Due(delay: nat, now: nat): Time {
    if delay == NEVER then Never
    else if (delay + now) % U64 == NEVER then At(delay + now + 1)
    else At(delay + now)
  }

  predicate Later(a: Time, b: Time) {
    b.At? && (a.Never? || a.t > b.t)
  }

  /** Within half the clock's range the wrapped comparison is the true one. */
  lemma TimeAfterIsLater(a: nat, b: nat)
    requires a - HALF < b < a + HALF
    ensures TimeAfter(a % U64, b % U64) <==> a > b
  {
    var x := b % U64 - a % U64;
    assert (x - (b - a)) % U64 == 0;
    SameClass(x, b - a);
    if a > b {
      assert (b - a + U64) % U64 == b - a + U64;
      SameClass(b - a, b - a + U64);
    }
  }

  /** The b_when that nlmsvc_insert_block_locked computes. */
  function Wake(delay: nat, now: nat): nat {
    if delay == NEVER then NEVER
    else
      var w := (delay + now) % U64;
      if w == NEVER then (w + 1) % U64 else w
  }

  lemma WakeIsDue(delay: nat, now: nat)
    ensures Wake(delay, now) == When(Due(delay, now))
    ensures Due(delay, now).At? ==> Due(delay, now).t % U64 != NEVER
  {
    if delay != NEVER && (delay + now) % U64 == NEVER {
      SameClass(delay + now + 1, 0) by {
        assert (delay + now + 1) - ((delay + now) / U64 + 1) * U64 == 0;
      }
    }
  }

  /** No block stands before one that is due earlier; blocks that are never due stand last. */
  ghost predicate Sorted(q: seq<BlockId>, due: map<BlockId, Time>)
    requires forall x :: x in q ==> x in due
  {
    q == [] || (Sorted(q[..|q| - 1], due) && forall x :: x in q[..|q| - 1] ==> !Later(due[x], due[q[|q| - 1]]))
  }

  /** b went into r behind every block due no later, in front of every block due later; the others kept their order. */
  ghost predicate Inserted(r: seq<BlockId>, q: seq<BlockId>, due: map<BlockId, Time>, b: BlockId)
    requires b in due && forall x :: x in r ==> x in due
  {
    exists i :: 0 <= i <= |r| && q == r[..i] + [b] + r[i..] && Fits(r, due, due[b], i)
  }

  /** Position i is behind every block due no later than d and in front of every block due later. */
  ghost predicate Fits(r: seq<BlockId>, due: map<BlockId, Time>, d: Time, i: nat)
    requires i <= |r| && forall x :: x in r ==> x in due
  {
    (forall x :: x in r[..i] ==> !Later(due[x], d)) && (forall x :: x in r[i..] ==> Later(due[x], d))
  }

  lemma SortedAppend(q: seq<BlockId>, due: map<BlockId, Time>, b: BlockId)
    requires b in due && (forall x :: x in q ==> x in due && !Later(due[x], due[b])) && Sorted(q, due)
    ensures Sorted(q + [b], due)
  {
    assert (q + [b])[..|q|] == q;
  }

  lemma {:induction false} InsertSorted(r: seq<BlockId>, due: map<BlockId, Time>, b: BlockId, i: nat)
    requires b in due && (forall x :: x in r ==> x in due) && Sorted(r, due) && i <= |r| && Fits(r, due, due[b], i)
    ensures forall x :: x in r[..i] + [b] + r[i..] ==> x in due
    ensures Sorted(r[..i] + [b] + r[i..], due)
  {
    if i == |r| {
      assert r[..i] + [b] + r[i..] == r + [b] && r[..i] == r;
      SortedAppend(r, due, b);
    } else {
      var p, l := r[..|r| - 1], r[|r| - 1];
      assert p[..i] == r[..i] && p == p[..i] + p[i..] && r[i..] == p[i..] + [l];
      InsertSorted(p, due, b, i);
      assert r[..i] + [b] + r[i..] == (p[..i] + [b] + p[i..]) + [l];
      SortedAppend(p[..i] + [b] + p[i..], due, l);
    }
  }

  lemma {:induction false} DistinctInsert(r: seq<BlockId>, b: BlockId, i: nat)
    requires Distinct(r) && b !in r && i <= |r|
    ensures Distinct(r[..i] + [b] + r[i..])
  {
    if i == |r| {
      assert r[..i] + [b] + r[i..] == r + [b];
      DistinctAppend(r, b);
    } else {
      var p := r[..|r| - 1];
      DistinctInsert(p, b, i);
      assert r[..i] + [b] + r[i..] == (p[..i] + [b] + p[i..]) + [r[|r| - 1]];
      assert p == p[..i] + p[i..];
      DistinctAppend(p[..i] + [b] + p[i..], r[|r| - 1]);
    }
  }

  lemma {:induction false} WithoutSorted(q: seq<BlockId>, due: map<BlockId, Time>, b: BlockId)
    requires (forall x :: x in q ==> x in due) && Sorted(q, due)
    ensures Sorted(Without(q, b), due)
  {
    if q != [] {
      WithoutSorted(q[..|q| - 1], due, b);
      if q[|q| - 1] != b {
        SortedAppend(Without(q[..|q| - 1], b), due, q[|q| - 1]);
      }
    }
  }

  /** Changing the due time of a block outside the list does not matter to the list. */
  lemma {:induction false} SortedElsewhere(q: seq<BlockId>, due: map<BlockId, Time>, b: BlockId, d: Time)
    requires (forall x :: x in q ==> x in due) && Sorted(q, due) && b !in q
    ensures Sorted(q, due[b := d])
  {
    if q != [] {
      SortedElsewhere(q[..|q| - 1], due, b, d);
    }
  }

  /** Behind a block due later than d, all are. */
  lemma {:induction false} LaterOn(r: seq<BlockId>, due: map<BlockId, Time>, i: nat, d: Time)
    requires (forall x :: x in r ==> x in due) && Sorted(r, due) && i < |r| && Later(due[r[i]], d)
    ensures forall x :: x in r[i..] ==> Later(due[x], d)
  {
    if i < |r| - 1 {
      LaterOn(r[..|r| - 1], due, i, d);
      assert r[i] in r[..|r| - 1] && r[i..] == r[..|r| - 1][i..] + [r[|r| - 1]];
    }
  }

  /** The head is due no later than any other. */
  lemma {:induction false} HeadIsFirst(r: seq<BlockId>, due: map<BlockId, Time>, x: BlockId)
    requires (forall x :: x in r ==> x in due) && Sorted(r, due) && x in r
    ensures !Later(due[r[0]], due[x])
  {
    if |r| > 1 {
      if x in r[..|r| - 1] {
        HeadIsFirst(r[..|r| - 1], due, x);
      } else {
        assert r[0] in r[..|r| - 1];
      }
    }
  }

  /** b_when stands for the due time, and is NEVER for no finite one. */
  ghost predicate Timed(q: seq<BlockId>, when: map<BlockId, nat>, due: map<BlockId, Time>) {
    forall b :: b in q ==> b in when && b in due && when[b] == When(due[b]) && (due[b].At? ==> when[b] != NEVER)
  }

  ghost predicate Around(q: seq<BlockId>, due: map<BlockId, Time>, j0: nat) {
    forall b :: b in q && b in due && due[b].At? ==> j0 - REACH <= due[b].t <= j0 + REACH
  }

  /** What vfs_lock_file answers to another attempt: the lock, an answer to come, or an error. */
  datatype Attempt = Got | Pending | Failed

  /**
  What the rest answers: the filesystem to an attempt at the lock of a block at some time, the network to the call about
  it, and at each turn of the loop whether the thread is to stop.
  */
  datatype Env = Env(lock: (BlockId, nat) -> Attempt, sent: (BlockId, nat) -> bool, stop: nat -> bool)

  /** The thread was not told to stop before any of its first turns. */
  ghost predicate Heeded(env: Env, turns: nat) {
    forall n :: 0 <= n < turns ==> !env.stop(n)
  }

  lemma HeededAgain(env: Env, turns: nat)
    requires Heeded(env, turns) && !env.stop(turns)
    ensures Heeded(env, turns + 1)
  {
  }

  /** The blocks retried are of queue q, no more of them than turns, and at times from j0 to before end. */
  ghost predicate Retries(tried: map<BlockId, nat>, q: seq<BlockId>, j0: nat, end: nat, turns: nat) {
    |tried.Keys| <= turns && forall b :: b in tried ==> j0 <= tried[b] < end && b in q
  }

  lemma OneMore(tried: map<BlockId, nat>, q: seq<BlockId>, j0: nat, end: nat, turns: nat, b: BlockId, now: nat)
    requires Retries(tried, q, j0, end, turns) && b in q && j0 <= now < end
    ensures Retries(tried[b := now], q, j0, end, turns + 1)
  {
    assert tried[b := now].Keys == tried.Keys + {b};
  }

  /** Blocks retried whose lock the filesystem gave are granted; others only if they were or another thread said so. */
  ghost predicate Granting(tried: map<BlockId, nat>, deferred: set<BlockId>, env: Env, first: set<BlockId>,
                           granted: set<BlockId>, woken: set<BlockId>) {
    && first <= granted && (forall b :: b in granted && b !in first ==> b in tried || b in woken)
    && (forall b :: b in tried && b !in deferred && env.lock(b, tried[b]) == Got ==> b in granted)
  }

  class BlockQueue {
    /** nlm_blocked. */
    var queue: seq<BlockId>
    /** b_when of each block. */
    var when: map<BlockId, nat>
    /** Blocks flagged B_QUEUED: deferred by the filesystem, not waiting for a conflicting lock. */
    var deferred: set<BlockId>
    /** b_granted. */
    var granted: set<BlockId>
    ghost var due: map<BlockId, Time>
    const hz: nat
    // What has happened so far: when the loop last retried a block; blocks whose call ended, blocks that another thread
    // took off, and blocks of which the filesystem said that they can be retried now.
    ghost var tried: map<BlockId, nat>
    ghost var ended: set<BlockId>
    ghost var off: set<BlockId>
    ghost var woken: set<BlockId>

    ghost predicate Valid()
      reads this
    {
      0 < hz <= 10000 && Timed(queue, when, due) && Distinct(queue) && Sorted(queue, due)
    }

    /** Due times lie around j0. */
    ghost predicate Near(j0: nat)
      reads this
    {
      Around(queue, due, j0)
    }

    constructor (hz: nat)
      requires 0 < hz <= 10000
      ensures Valid() && this.hz == hz && queue == [] && deferred == {} && granted == {} && tried == map[]
      ensures ended == {} && off == {} && woken == {}
    {
      this.hz := hz;
      queue, when, deferred, granted, due := [], map[], {}, {}, map[];
      tried, ended, off, woken := map[], {}, {}, {};
    }

    /** nlmsvc_insert_block: at clock reading now, for delay jiffies from then or for ever. */
    method Insert(b: BlockId, delay: nat, now: nat, ghost j0: nat)
      requires Valid() && Near(j0) && j0 <= now <= j0 + LONGEST && (delay == NEVER || delay <= 60 * hz)
      modifies `queue, `when, `due
      ensures Valid() && Near(j0) && due == old(due)[b := Due(delay, now)]
      ensures forall x :: x in queue <==> x in old(queue) || x == b
      ensures Inserted(Without(old(queue), b), queue, due, b)
    {
      WakeIsDue(delay, now);
      InsertAt(b, Wake(delay, now), Due(delay, now), j0);
    }

    /** The same, for a wake-up time w that stands for due time d. */
    method InsertAt(b: BlockId, w: nat, ghost d: Time, ghost j0: nat)
      requires Valid() && Near(j0) && w == When(d) && (d.At? ==> w != NEVER && j0 - REACH <= d.t <= j0 + REACH)
      modifies `queue, `when, `due
      ensures Valid() && Near(j0) && due == old(due)[b := d]
      ensures forall x :: x in queue <==> x in old(queue) || x == b
      ensures Inserted(Without(old(queue), b), queue, due, b)
    {
      var r := Without(queue, b);
      WithoutKeepsDistinct(queue, b);
      WithoutSorted(queue, due, b);
      assert Timed(r, when, due) && Around(r, due, j0);
      var i := |r|;
      if w != NEVER {
        i := Find(r, w, d, j0);
      }
      Place(r, i, b, w, d, j0);
    }

    /** list_add_tail before position i. */
    method Place(r: seq<BlockId>, i: nat, b: BlockId, w: nat, ghost d: Time, ghost j0: nat)
      requires i <= |r| && b !in r && Distinct(r) && Timed(r, when, due) && Around(r, due, j0) && Sorted(r, due)
      requires Fits(r, due, d, i)
      requires w == When(d) && (d.At? ==> w != NEVER && j0 - REACH <= d.t <= j0 + REACH)
      modifies `queue, `when, `due
      ensures due == old(due)[b := d] && (forall x :: x in queue <==> x in r || x == b)
      ensures Timed(queue, when, due) && Around(queue, due, j0) && Sorted(queue, due) && Distinct(queue)
      ensures Inserted(r, queue, due, b)
    {
      SortedElsewhere(r, due, b, d);
      due := due[b := d];
      when := when[b := w];
      queue := r[..i] + [b] + r[i..];
      assert r == r[..i] + r[i..];
      assert Fits(r, due, d, i);
      InsertSorted(r, due, b, i);
      DistinctInsert(r, b, i);
    }

    /** The walk to the first block due later. */
    method Find(r: seq<BlockId>, w: nat, ghost d: Time, ghost j0: nat) returns (i: nat)
      requires Timed(r, when, due) && Around(r, due, j0) && Sorted(r, due)
      requires d.At? && w == When(d) && j0 - REACH <= d.t <= j0 + REACH
      ensures i <= |r| && Fits(r, due, d, i)
    {
      i := 0;
      while i < |r|
        invariant i <= |r| && forall x :: x in r[..i] ==> !Later(due[x], d)
      {
        if due[r[i]].At? {
          TimeAfterIsLater(due[r[i]].t, d.t);
        }
        if TimeAfter(when[r[i]], w) || when[r[i]] == NEVER {
          LaterOn(r, due, i, d);
          return;
        }
        i := i + 1;
      }
    }

    ghost function State(): View
      reads this
    {
      View(queue, due, tried.Keys + ended, off, woken)
    }

    /** Blocks whose time comes before limit. */
    ghost function Soon(limit: nat): set<BlockId>
      reads this
    {
      SoonIn(queue, due, limit)
    }

    /** nlmsvc_remove_block. */
    method Remove(b: BlockId)
      requires Valid()
      modifies `queue
      ensures Valid() && queue == Without(old(queue), b)
    {
      WithoutKeepsDistinct(queue, b);
      WithoutSorted(queue, due, b);
      queue := Without(queue, b);
    }

    /**
    nlmsvc_grant_blocked: the block is taken off, the lock tried unless it was granted before, and the block put back:
    for ever while the filesystem or the client has to answer, for ten seconds after a failure.
    */
    method GrantBlocked(b: BlockId, lock: Attempt, sent: bool, now: nat, ghost j0: nat)
      requires Valid() && Near(j0) && b in queue && j0 <= now <= j0 + LONGEST
      modifies `queue, `when, `due, `granted
      ensures Valid() && Near(j0) && Requeued(old(queue), old(due), queue, due, b, now + 7 * hz)
      ensures granted == if b in old(granted) || lock == Got then old(granted) + {b} else old(granted)
      ensures due[b] == if (if b in granted then sent else lock == Pending) then Never else Due(10 * hz, now)
    {
      Remove(b);
      if b !in granted && lock != Got {
        Requeue(b, if lock == Pending then NEVER else 10 * hz, now, j0);
        return;
      }
      granted := granted + {b};
      Requeue(b, NEVER, now, j0);
      if !sent {
        Requeue(b, 10 * hz, now, j0);
      }
    }

    /** Insert, as far as the retries need to know it. */
    method Renew(b: BlockId, delay: nat, now: nat, ghost j0: nat)
      requires Valid() && Near(j0) && j0 <= now <= j0 + LONGEST && (delay == NEVER || delay <= 60 * hz)
      modifies `queue, `when, `due
      ensures Valid() && Near(j0) && due == old(due)[b := Due(delay, now)]
      ensures forall x :: x in queue <==> x in old(queue) || x == b
    {
      Insert(b, delay, now, j0);
    }

    /** The same for NLM_TIMEOUT or longer. */
    method Requeue(b: BlockId, delay: nat, now: nat, ghost j0: nat)
      requires Valid() && Near(j0) && j0 <= now <= j0 + LONGEST && (delay == NEVER || 7 * hz <= delay <= 60 * hz)
      modifies `queue, `when, `due
      ensures Valid() && Near(j0) && Requeued(old(queue) + [b], old(due), queue, due, b, now + 7 * hz)
      ensures due[b] == Due(delay, now)
    {
      Renew(b, delay, now, j0);
    }

    /** retry_deferred_block: wait again for the request to be taken up. */
    method RetryDeferred(b: BlockId, now: nat, ghost j0: nat)
      requires Valid() && Near(j0) && b in queue && j0 <= now <= j0 + LONGEST
      modifies `queue, `when, `due
      ensures Valid() && Near(j0) && Requeued(old(queue), old(due), queue, due, b, now + 7 * hz)
      ensures due[b] == Due(7 * hz, now)
    {
      Requeue(b, 7 * hz, now, j0);
    }

    /**
    nlmsvc_grant_callback, by another thread: a block that is still queued when its call ends waits ten or
    sixty seconds.
    */
    method GrantCallback(b: BlockId, failed: bool, now: nat, ghost j0: nat)
      requires Valid() && Near(j0) && j0 <= now <= j0 + LONGEST
      modifies `queue, `when, `due
      ensures Valid() && Near(j0)
      ensures b !in old(queue) ==> queue == old(queue) && due == old(due)
      ensures b in old(queue) ==> Requeued(old(queue), old(due), queue, due, b, now + 7 * hz)
      ensures b in old(queue) ==> due[b] == Due(if failed then 10 * hz else 60 * hz, now)
    {
      if b !in queue {
        return;
      }
      Requeue(b, if failed then 10 * hz else 60 * hz, now, j0);
    }

    /** One block whose time has come: an attempt at its lock, or for a deferred one another wait. */
    method RetryOne(b: BlockId, now: nat, env: Env, ghost j0: nat)
      requires Valid() && Near(j0) && b in queue && j0 <= now <= j0 + LONGEST
      modifies `queue, `when, `due, `granted, `tried
      ensures Valid() && Near(j0) && Requeued(old(queue), old(due), queue, due, b, now + 7 * hz)
      ensures tried == old(tried)[b := now]
      ensures granted == if b !in deferred && env.lock(b, now) == Got then old(granted) + {b} else old(granted)
      ensures due[b] ==
              if b in deferred then Due(7 * hz, now)
              else if (if b in granted then env.sent(b, now) else env.lock(b, now) == Pending) then Never
              else Due(10 * hz, now)
    {
      tried := tried[b := now];
      if b in deferred {
        RetryDeferred(b, now, j0);
      } else {
        GrantBlocked(b, env.lock(b, now), env.sent(b, now), now, j0);
      }
    }

    /** Other threads end calls, take blocks off, and tell of blocks to retry, the last no more than `notices` times. */
    method Interfere(now: nat, notices: nat, ghost j0: nat, ghost limit: nat) returns (left: nat)
      requires Valid() && Near(j0) && j0 <= now <= j0 + LONGEST && limit <= now + 7 * hz
      modifies `queue, `when, `due, `granted, `ended, `off, `woken
      ensures Valid() && Near(j0) && Passed(old(State()), State(), limit) && left <= notices
      ensures left == notices ==> Soon(limit) <= old(Soon(limit))
      ensures old(granted) <= granted <= old(granted) + woken && old(woken) <= woken
    {
      left := notices;
      var acts: int := *;
      while 0 < acts
        invariant Valid() && Near(j0) && Passed(old(State()), State(), limit) && left <= notices
        invariant left == notices ==> Soon(limit) <= old(Soon(limit))
        invariant old(granted) <= granted <= old(granted) + woken && old(woken) <= woken
      {
        var k: int := *;
        if 0 <= k < |queue| {
          ghost var before := State();
          left := Act(queue[k], now, left, j0, limit);
          PassedOn(old(State()), before, State(), limit, limit);
        }
        acts := acts - 1;
      }
    }

    /** What another thread does to one queued block. */
    method Act(b: BlockId, now: nat, notices: nat, ghost j0: nat, ghost limit: nat) returns (left: nat)
      requires Valid() && Near(j0) && b in queue && j0 <= now <= j0 + LONGEST && limit <= now + 7 * hz
      modifies `queue, `when, `due, `granted, `ended, `off, `woken
      ensures Valid() && Near(j0) && Passed(old(State()), State(), limit) && left <= notices
      ensures left == notices ==> Soon(limit) <= old(Soon(limit))
      ensures old(granted) <= granted <= old(granted) + woken && old(woken) <= woken
    {
      left := notices;
      if {
        case true =>
          var failed := *;
          EndCall(b, failed, now, j0, limit);
        case true =>
          TakeOff(b, j0, limit);
        case left > 0 =>
          var grant := *;
          left := left - 1;
          Notify(b, grant, now, j0, limit);
      }
    }

    /** The end of the call for one queued block. */
    method EndCall(b: BlockId, failed: bool, now: nat, ghost j0: nat, ghost limit: nat)
      requires Valid() && Near(j0) && b in queue && j0 <= now <= j0 + LONGEST && limit <= now + 7 * hz
      modifies `queue, `when, `due, `ended
      ensures Valid() && Near(j0) && Passed(old(State()), State(), limit) && Soon(limit) <= old(Soon(limit))
    {
      GrantCallback(b, failed, now, j0);
      ended := ended + {b};
      RequeuedPasses(old(State()), State(), b, now + 7 * hz, limit);
    }

    /** nlmsvc_remove_block by another thread, as for a host that goes or a lock that is cancelled. */
    method TakeOff(b: BlockId, ghost j0: nat, ghost limit: nat)
      requires Valid() && Near(j0) && b in queue
      modifies `queue, `off
      ensures Valid() && Near(j0) && Passed(old(State()), State(), limit) && Soon(limit) <= old(Soon(limit))
    {
      off := off + {b};
      Remove(b);
    }

    /** nlmsvc_notify_blocked, or nlmsvc_grant_deferred with its verdict: the block is to be retried at once. */
    method Notify(b: BlockId, grant: bool, now: nat, ghost j0: nat, ghost limit: nat)
      requires Valid() && Near(j0) && b in queue && j0 <= now <= j0 + LONGEST
      modifies `queue, `when, `due, `granted, `woken
      ensures Valid() && Near(j0) && Passed(old(State()), State(), limit) && due == old(due)[b := Due(0, now)]
      ensures granted == (if grant then old(granted) + {b} else old(granted)) && woken == old(woken) + {b}
    {
      woken := woken + {b};
      if grant {
        granted := granted + {b};
      }
      Renew(b, 0, now, j0);
      NotifiedPasses(old(State()), State(), b, limit);
    }

    /**
    nlmsvc_retry_blocked, in which the clock shows from j0 on and does not reach `end`.  It ends, however long that
    is, however often a block comes due again meanwhile, and whatever other threads do.  Unless the thread is told to
    stop, for which it looks before each turn, every block that was due has been retried, or its call has ended, or it
    was taken off or put first by another thread; no block is due any more; and the result is the time to the earliest
    one, unless that came due between the two looks at the clock.  What the filesystem gives to a block that is retried
    is granted.
    */
    method RetryBlocked(j0: nat, end: nat, notices: nat, env: Env)
      returns (timeout: nat, stopped: bool, ghost now: nat, ghost later: nat, turns: nat)
      requires Valid() && Near(j0) && j0 < end <= j0 + LONGEST && tried == map[]
      modifies `queue, `when, `due, `granted, `tried, `ended, `off, `woken
      ensures Valid() && j0 <= now <= later < end
      ensures Passed(old(State()), State(), j0 + 7 * hz)
      ensures Granting(tried, deferred, env, old(granted), granted, woken)
      ensures Retries(tried, old(queue), j0, end, turns) && Heeded(env, turns) && (stopped ==> env.stop(turns))
      ensures !stopped ==> NoneDue(queue, due, now) && Sleeps(queue, due, later, timeout)
      ensures !stopped ==> Served(old(State()), State(), now)
    {
      timeout, stopped, now, later, turns := MAX_SCHEDULE_TIMEOUT, false, j0, j0, 0;
      var clock, left := j0, notices;
      ghost var from := j0;              // from here on no block is retried twice before NLM_TIMEOUT has passed
      while queue != []
        invariant Valid() && Near(j0) && j0 <= from <= clock < end && now == later == clock && !stopped
        invariant timeout == MAX_SCHEDULE_TIMEOUT && Passed(old(State()), State(), j0 + 7 * hz)
        invariant Granting(tried, deferred, env, old(granted), granted, woken)
        invariant Retries(tried, old(queue), j0, end, turns) && Heeded(env, turns)
        decreases left, end - from, Soon(from + 7 * hz)
      {
        stopped := env.stop(turns);
        if stopped {                                   // kthread_should_stop
          return;
        }
        HeededAgain(env, turns);
        turns := turns + 1;
        var b := queue[0];
        if when[b] == NEVER {
          break;
        }
        var wait;
        wait, timeout, clock, later := Look(b, clock, end, j0);
        now := clock;
        if wait {
          break;
        }
        OneMore(tried, old(queue), j0, end, turns - 1, b, clock);
        left, from := RetryInWindow(b, clock, left, env, j0, from, old(State()), old(granted));
      }
      PassEnds(old(State()), State(), now, later, timeout, j0 + 7 * hz);
    }

    /** Whether the first block has to wait, by one look at the clock, and then how long, by another. */
    method Look(b: BlockId, clock: nat, end: nat, ghost j0: nat)
      returns (wait: bool, timeout: nat, now: nat, ghost later: nat)
      requires Valid() && Near(j0) && b in queue && due[b].At? && j0 <= clock < end <= j0 + LONGEST
      ensures clock <= now <= later < end && (wait <==> Later(due[b], At(now)))
      ensures if wait then timeout == due[b].t - later <==> later <= due[b].t
              else timeout == MAX_SCHEDULE_TIMEOUT && later == now
    {
      now := Tick(clock, end);
      timeout, later := MAX_SCHEDULE_TIMEOUT, now;
      TimeAfterIsLater(due[b].t, now);
      wait := TimeAfter(when[b], now % U64);
      if wait {
        var t := Tick(now, end);
        later := t;
        timeout := (when[b] - t % U64) % U64;
        RemainingTime(due[b].t, t);
      }
    }

    /** The body of the loop for a due block, and what other threads do meanwhile. */
    method RetryAndGoOn(b: BlockId, now: nat, notices: nat, env: Env, ghost j0: nat, ghost limit: nat,
                        ghost first: View, ghost least: nat)
      returns (left: nat)
      requires Valid() && Near(j0) && b in queue && j0 <= now <= j0 + LONGEST && limit <= now + 7 * hz
      requires Passed(first, State(), least) && least <= limit && due[b].At? && due[b].t < limit
      modifies `queue, `when, `due, `granted, `tried, `ended, `off, `woken
      ensures Valid() && Near(j0) && Passed(first, State(), least) && left <= notices
      ensures left == notices ==> Soon(limit) < old(Soon(limit))
      ensures tried == old(tried)[b := now] && old(woken) <= woken
      ensures old(granted) <= granted <= old(granted) + {b} + woken
      ensures b !in deferred && env.lock(b, now) == Got ==> b in granted
    {
      assert b in Soon(limit);
      RetryOne(b, now, env, j0);
      ghost var between := State();
      RequeuedPasses(old(State()), between, b, now + 7 * hz, limit);
      PassedOn(first, old(State()), between, least, limit);
      left := Interfere(now, notices, j0, limit);
      PassedOn(first, between, State(), least, limit);
    }

    /** The same, with the time from which no block is retried twice before NLM_TIMEOUT has passed moved on. */
    method RetryInWindow(b: BlockId, now: nat, notices: nat, env: Env, ghost j0: nat, ghost from: nat,
                         ghost first: View, ghost given: set<BlockId>)
      returns (left: nat, ghost from': nat)
      requires Valid() && Near(j0) && b in queue && j0 <= from <= now <= j0 + LONGEST
      requires Passed(first, State(), j0 + 7 * hz) && due[b].At? && due[b].t <= now
      requires Granting(tried, deferred, env, given, granted, woken)
      modifies `queue, `when, `due, `granted, `tried, `ended, `off, `woken
      ensures Valid() && Near(j0) && Passed(first, State(), j0 + 7 * hz) && left <= notices && from <= from' <= now
      ensures left == notices && from' == from ==> Soon(from + 7 * hz) < old(Soon(from + 7 * hz))
      ensures tried == old(tried)[b := now] && Granting(tried, deferred, env, given, granted, woken)
    {
      from' := if now >= from + 7 * hz then now else from;
      left := RetryAndGoOn(b, now, notices, env, j0, from' + 7 * hz, first, j0 + 7 * hz);
    }
  }

  /** A later look at the clock. */
  method Tick(now: nat, end: nat) returns (t: nat)
    requires now < end
    ensures now <= t < end
  {
    t := *;
    if !(now <= t < end) {
      t := now;
    }
  }

  ghost function SoonIn(q: seq<BlockId>, due: map<BlockId, Time>, limit: nat): set<BlockId> {
    set b | b in q && b in due && due[b].At? && due[b].t < limit
  }

  /** Only b has a new time: never, or from some time on. */
  ghost predicate Requeued(q: seq<BlockId>, due: map<BlockId, Time>, q': seq<BlockId>, due': map<BlockId, Time>,
                           b: BlockId, from: nat) {
    && (forall x :: x in q' <==> x in q)
    && (forall x :: x in due && x != b ==> x in due' && due'[x] == due[x])
    && b in due' && (due'[b].At? ==> due'[b].t >= from)
  }

  /** The queue, and what has happened to its blocks: retried or answered, taken off, put first. */
  datatype View = View(queue: seq<BlockId>, due: map<BlockId, Time>, moved: set<BlockId>, off: set<BlockId>,
                       woken: set<BlockId>)

  /**
  From v to w no block came in, and those that left were taken off; a queued block kept its time, unless it was put
  first, or retried or answered, and then it has no time or one from the limit on.
  */
  ghost predicate Passed(v: View, w: View, limit: nat) {
    && v.moved <= w.moved && v.off <= w.off && v.woken <= w.woken
    && (forall x :: x in w.queue ==> x in v.queue)
    && (forall x :: x in v.queue ==> x in w.queue || x in w.off)
    && (forall x :: x in w.queue && x in v.due ==> x in w.due && PassedBlock(v.due[x], w.due[x], x, w, limit))
  }

  ghost predicate PassedBlock(t: Time, t': Time, x: BlockId, w: View, limit: nat) {
    t' == t || x in w.woken || (x in w.moved && (t'.At? ==> t'.t >= limit))
  }

  lemma PassedOn(u: View, v: View, w: View, limit: nat, later: nat)
    requires Passed(u, v, limit) && Passed(v, w, later) && limit <= later
    ensures Passed(u, w, limit)
  {
    forall x | x in w.queue && x in u.due ensures x in w.due && PassedBlock(u.due[x], w.due[x], x, w, limit) {
      assert x in v.queue && x in v.due && PassedBlock(u.due[x], v.due[x], x, v, limit);
      assert PassedBlock(v.due[x], w.due[x], x, w, later);
    }
  }

  lemma RequeuedPasses(v: View, w: View, b: BlockId, from: nat, limit: nat)
    requires Requeued(v.queue, v.due, w.queue, w.due, b, from) && limit <= from
    requires forall x :: x in v.queue ==> x in v.due
    requires w.moved == v.moved + {b} && w.off == v.off && w.woken == v.woken
    ensures Passed(v, w, limit)
    ensures SoonIn(w.queue, w.due, limit) <= SoonIn(v.queue, v.due, limit) && b !in SoonIn(w.queue, w.due, limit)
  {
  }

  lemma NotifiedPasses(v: View, w: View, b: BlockId, limit: nat)
    requires b in v.queue && (forall x :: x in w.queue <==> x in v.queue || x == b)
    requires b in w.due && w.due == v.due[b := w.due[b]]
    requires w.moved == v.moved && w.off == v.off && w.woken == v.woken + {b}
    ensures Passed(v, w, limit)
  {
  }

  /** Every block due by now was retried or answered, taken off, or put first. */
  ghost predicate Served(v: View, w: View, now: nat) {
    forall b :: b in v.queue && b in v.due && !Later(v.due[b], At(now)) ==> b in w.moved || b in w.off || b in w.woken
  }

  lemma PassEnds(v: View, w: View, now: nat, later: nat, timeout: nat, limit: nat)
    requires Passed(v, w, limit) && (forall x :: x in w.queue ==> x in w.due) && Sorted(w.queue, w.due)
    requires w.queue != [] ==> Later(w.due[w.queue[0]], At(now))
    requires w.queue == [] || w.due[w.queue[0]].Never? ==> timeout == MAX_SCHEDULE_TIMEOUT
    requires w.queue != [] && w.due[w.queue[0]].At? ==>
               (timeout == w.due[w.queue[0]].t - later <==> later <= w.due[w.queue[0]].t)
    ensures NoneDue(w.queue, w.due, now) && Sleeps(w.queue, w.due, later, timeout) && Served(v, w, now)
  {
    HeadDecides(w.queue, w.due, now, later, timeout);
    PassedServes(v, w, now, limit);
  }

  lemma PassedServes(v: View, w: View, now: nat, limit: nat)
    requires Passed(v, w, limit) && (forall x :: x in w.queue ==> x in w.due) && NoneDue(w.queue, w.due, now)
    ensures Served(v, w, now)
  {
    forall b | b in v.queue && b in v.due && !Later(v.due[b], At(now))
      ensures b in w.moved || b in w.off || b in w.woken
    {
      if b in w.queue {
        assert PassedBlock(v.due[b], w.due[b], b, w, limit) && Later(w.due[b], At(now));
      }
    }
  }

  ghost predicate NoneDue(q: seq<BlockId>, due: map<BlockId, Time>, now: nat)
    requires forall x :: x in q ==> x in due
  {
    forall x :: x in q ==> Later(due[x], At(now))
  }

  /**
  The timeout is the time from now to the earliest block, unless that has come due, and the longest one if no block will
  ever be due.
  */
  ghost predicate Sleeps(q: seq<BlockId>, due: map<BlockId, Time>, now: nat, timeout: nat)
    requires forall x :: x in q ==> x in due
  {
    && ((forall x :: x in q ==> due[x].Never?) ==> timeout == MAX_SCHEDULE_TIMEOUT)
    && forall x :: x in q && due[x].At? ==>
         due[q[0]].At? && due[q[0]].t <= due[x].t && (timeout == due[q[0]].t - now <==> now <= due[q[0]].t)
  }

  /** What the first block of a sorted queue says holds of the queue. */
  lemma HeadDecides(q: seq<BlockId>, due: map<BlockId, Time>, now: nat, later: nat, timeout: nat)
    requires (forall x :: x in q ==> x in due) && Sorted(q, due)
    requires q != [] ==> Later(due[q[0]], At(now))
    requires q == [] || due[q[0]].Never? ==> timeout == MAX_SCHEDULE_TIMEOUT
    requires q != [] && due[q[0]].At? ==> (timeout == due[q[0]].t - later <==> later <= due[q[0]].t)
    ensures NoneDue(q, due, now) && Sleeps(q, due, later, timeout)
  {
    forall x | x in q ensures !Later(due[q[0]], due[x]) {
      HeadIsFirst(q, due, x);
    }
  }

  /** A look at the clock after the due time wraps the wait around: it is longer than the longest one. */
  lemma LateLookWraps(due: nat, later: nat)
    requires due < later < due + HALF
    ensures (due % U64 - later % U64) % U64 == U64 - (later - due) > MAX_SCHEDULE_TIMEOUT
  {
    SameClass(due % U64 - later % U64, due - later);
    SameClass(due - later, U64 - (later - due));
    assert (U64 - (later - due)) % U64 == U64 - (later - due);
  }

  lemma RemainingTime(due: nat, now: nat)
    requires due - HALF < now < due + HALF
    ensures (due % U64 - now % U64) % U64 == due - now <==> now <= due
  {
    SameClass(due % U64 - now % U64, due - now);
    if now <= due {
      assert (due - now) % U64 == due - now;
    }
  }
}
