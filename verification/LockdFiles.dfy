/**
The NLM server's per-file records and host table (bundle/fs/lockd/svcsubs.c, svcshare.c, host.c):
what a file holds for remote hosts, and what a traversal that visits every holder does to it.
*/
module LockdFiles {
  import opened Common

  type HostId = nat
  type NetId = nat
  type Handle = seq<nat>

  /**
  struct nlm_host: the parts the collector reads and writes; count is h_count less what blocks hold through their
  calls.
  */
  datatype Host = Host(net: NetId, inuse: bool, expires: nat, count: nat)

  /** struct nlm_block as its file sees it: owner, whether it is on the retry queue, whether a call still holds it. */
  datatype Block = Block(host: HostId, queued: bool, inflight: bool)

  /** struct nlm_share. It takes no reference on its host. */
  datatype Share = Share(host: HostId, owner: seq<nat>, access: bv32, mode: bv32)

  /** An entry of the inode's POSIX lock list: one of lockd's, or some local process's. */
  datatype PosixLock = PosixLock(remote: bool, host: HostId, pid: nat)

  /** struct nlm_file; locks is f_locks, the remembered number of remote locks. */
  datatype File = File(handle: Handle, count: nat, blocks: seq<Block>, shares: seq<Share>,
                       locks: nat, posix: seq<PosixLock>)

  /** The match callbacks: mark the hosts of a net (None: of all nets), release one host's, release everything. */
  datatype Match = Mark(net: Option<NetId>) | Same(host: HostId) | All

  predicate Hits(m: Match, h: HostId) {
    match m
    case Mark(_) => false
    case Same(x) => h == x
    case All => true
  }

  predicate InNet(net: Option<NetId>, x: Host) {
    net == None || net == Some(x.net)
  }

  // ------------------------------------------------------------ what a visit leaves behind

  /** Each element replaced by what the rule makes of it, in order. */
  function Sift<T>(s: seq<T>, rule: T -> seq<T>): seq<T> {
    if s == [] then [] else Sift(s[..|s| - 1], rule) + rule(s[|s| - 1])
  }

  lemma {:induction false} SiftConcat<T>(a: seq<T>, b: seq<T>, rule: T -> seq<T>)
    ensures Sift(a + b, rule) == Sift(a, rule) + Sift(b, rule)
    decreases |b|
  {
    if b == [] {
      assert a + b == a;
    } else {
      assert (a + b)[..|a + b| - 1] == a + b[..|b| - 1];
      SiftConcat(a, b[..|b| - 1], rule);
    }
  }

  lemma SiftOne<T>(x: T, rule: T -> seq<T>)
    ensures Sift([x], rule) == rule(x)
  {
    assert [x][..0] == [];
  }

  lemma {:induction false} SiftFixed<T>(s: seq<T>, rule: T -> seq<T>)
    requires forall i :: 0 <= i < |s| ==> rule(s[i]) == [s[i]]
    ensures Sift(s, rule) == s
  {
    if s != [] {
      SiftFixed(s[..|s| - 1], rule);
    }
  }

  /** One element replaced early by a step the rule sees through: the end result is the same. */
  lemma SiftStep<T>(a: seq<T>, x: T, b: seq<T>, y: seq<T>, rule: T -> seq<T>)
    requires Sift(y, rule) == rule(x)
    ensures Sift(a + y + b, rule) == Sift(a + [x] + b, rule)
  {
    SiftConcat(a + y, b, rule);
    SiftConcat(a, y, rule);
    SiftConcat(a + [x], b, rule);
    SiftConcat(a, [x], rule);
    SiftOne(x, rule);
  }

  /** What a rule that keeps or drops leaves of s: exactly the kept elements. */
  lemma {:induction false} SiftMember<T>(s: seq<T>, rule: T -> seq<T>, x: T)
    requires forall y :: rule(y) == [] || rule(y) == [y]
    ensures x in Sift(s, rule) <==> x in s && rule(x) == [x]
  {
    if s != [] {
      SiftMember(s[..|s| - 1], rule, x);
      assert rule(s[|s| - 1]) == [] || rule(s[|s| - 1]) == [s[|s| - 1]];
    }
  }

  function ShareRule(m: Match): Share -> seq<Share> {
    (s: Share) => if Hits(m, s.host) then [] else [s]
  }

  function LockRule(m: Match): PosixLock -> seq<PosixLock> {
    (l: PosixLock) => if l.remote && Hits(m, l.host) then [] else [l]
  }

  /** Unlocking the whole range takes away every lock of one owner. */
  function OwnerRule(o: PosixLock): PosixLock -> seq<PosixLock> {
    (l: PosixLock) => if l.remote && l.host == o.host && l.pid == o.pid then [] else [l]
  }

  /** A block off the retry queue is left alone; one a call still holds is only taken off the queue. */
  function BlockRule(m: Match): Block -> seq<Block> {
    (b: Block) => if !b.queued || !Hits(m, b.host) then [b] else if b.inflight then [b.(queued := false)] else []
  }

  function Remotes(p: seq<PosixLock>): nat {
    if p == [] then 0 else Remotes(p[..|p| - 1]) + if p[|p| - 1].remote then 1 else 0
  }

  lemma {:induction false} RemotesFound(p: seq<PosixLock>)
    ensures Remotes(p) > 0 <==> exists i :: 0 <= i < |p| && p[i].remote
  {
    if p != [] {
      RemotesFound(p[..|p| - 1]);
    }
  }

  /** Dropping the locks of one hit owner first makes no difference to which locks survive the visit. */
  lemma {:induction false} OwnerGoneFirst(p: seq<PosixLock>, o: PosixLock, m: Match)
    requires Hits(m, o.host)
    ensures Sift(Sift(p, OwnerRule(o)), LockRule(m)) == Sift(p, LockRule(m))
  {
    if p != [] {
      var q, l := p[..|p| - 1], p[|p| - 1];
      OwnerGoneFirst(q, o, m);
      SiftConcat(Sift(q, OwnerRule(o)), OwnerRule(o)(l), LockRule(m));
      SiftOne(l, LockRule(m));
    }
  }

  lemma {:induction false} OwnerRuleShrinks(p: seq<PosixLock>, o: PosixLock)
    ensures |Sift(p, OwnerRule(o))| <= |p|
    ensures o in p && o.remote ==> |Sift(p, OwnerRule(o))| < |p|
  {
    if p != [] {
      OwnerRuleShrinks(p[..|p| - 1], o);
    }
  }

  /** nlm_inspect_file, when every unlock succeeds. */
  function Inspected(f: File, m: Match): File
    requires f.count >= |f.blocks|
  {
    BlockCount(f.blocks, m);
    var blocks := Sift(f.blocks, BlockRule(m));
    var posix := Sift(f.posix, LockRule(m));
    f.(count := f.count - (|f.blocks| - |blocks|), blocks := blocks, shares := Sift(f.shares, ShareRule(m)),
       posix := posix, locks := if f.posix == [] then f.locks else Remotes(posix))
  }

  lemma {:induction false} BlockCount(b: seq<Block>, m: Match)
    ensures |Sift(b, BlockRule(m))| <= |b|
  {
    if b != [] {
      BlockCount(b[..|b| - 1], m);
    }
  }

  /** Everything a remote host can own in a file. */
  predicate Owns(f: File, h: HostId) {
    || (exists i :: 0 <= i < |f.blocks| && f.blocks[i].host == h)
    || (exists i :: 0 <= i < |f.shares| && f.shares[i].host == h)
    || (exists i :: 0 <= i < |f.posix| && f.posix[i].remote && f.posix[i].host == h)
  }

  predicate Holds(f: File) {
    f.count > 0 || f.blocks != [] || f.shares != [] || exists i :: 0 <= i < |f.posix| && f.posix[i].remote
  }

  /** The test nlm_traverse_files makes before it lets a file go: it trusts f_locks. */
  predicate Unused(f: File) {
    f.count == 0 && f.blocks == [] && f.shares == [] && f.locks == 0
  }

  /** Straight after an inspection f_locks can be trusted, and a file let go holds nothing. */
  lemma InspectedUnused(f: File, m: Match)
    requires f.count >= |f.blocks|
    ensures Unused(Inspected(f, m)) ==> !Holds(Inspected(f, m))
    ensures Holds(Inspected(f, m)) <== Inspected(f, m).locks > 0 && f.posix != []
  {
    RemotesFound(Inspected(f, m).posix);
  }

  /** Marking changes no file but its f_locks. */
  lemma MarkOnlyLooks(f: File, net: Option<NetId>)
    requires f.count >= |f.blocks|
    ensures Inspected(f, Mark(net)) == f.(locks := if f.posix == [] then f.locks else Remotes(f.posix))
  {
    SiftFixed(f.blocks, BlockRule(Mark(net)));
    SiftFixed(f.shares, ShareRule(Mark(net)));
    SiftFixed(f.posix, LockRule(Mark(net)));
  }

  /** Releasing a host's resources leaves it no share and no lock, and every other host what it had. */
  lemma SameHostReleased(f: File, h: HostId)
    requires f.count >= |f.blocks|
    ensures var f' := Inspected(f, Same(h));
            && (forall x :: x in f'.shares <==> x in f.shares && x.host != h)
            && (forall x :: x in f'.posix <==> x in f.posix && !(x.remote && x.host == h))
            && (forall x: Block :: x.host != h ==> (x in f'.blocks <==> x in f.blocks))
            && (forall x: Block :: x in f'.blocks && x.host == h ==> !x.queued)
  {
    forall x: Share ensures x in Inspected(f, Same(h)).shares <==> x in f.shares && x.host != h {
      SiftMember(f.shares, ShareRule(Same(h)), x);
    }
    forall x: PosixLock ensures x in Inspected(f, Same(h)).posix <==> x in f.posix && !(x.remote && x.host == h) {
      SiftMember(f.posix, LockRule(Same(h)), x);
    }
    forall x: Block ensures x in Inspected(f, Same(h)).blocks ==> x.host != h || !x.queued
                    ensures x.host != h ==> (x in Inspected(f, Same(h)).blocks <==> x in f.blocks) {
      BlocksLeft(f.blocks, h, x);
    }
  }

  lemma {:induction false} BlocksLeft(b: seq<Block>, h: HostId, x: Block)
    ensures x in Sift(b, BlockRule(Same(h))) ==> x.host != h || !x.queued
    ensures x.host != h ==> (x in Sift(b, BlockRule(Same(h))) <==> x in b)
  {
    if b != [] {
      BlocksLeft(b[..|b| - 1], h, x);
    }
  }

  // ------------------------------------------------------------ traversals and other threads

  /** What other threads do to a file that a traversal holds, between its inspection and its test of f_locks. */
  datatype Event =
    | Other(count: nat, blocks: seq<Block>, shares: seq<Share>)
    | Install(lock: PosixLock)
    | Remove(at: nat)
    | Recount

  function After(f: File, e: Event): File {
    match e
    case Other(n, b, s) => f.(count := n + 1, blocks := b, shares := s)
    case Install(l) => f.(posix := f.posix + [l])
    case Remove(i) => if i < |f.posix| then f.(posix := f.posix[..i] + f.posix[i + 1..]) else f
    case Recount => if f.posix == [] then f else f.(locks := Remotes(f.posix))
  }

  function AfterAll(f: File, es: seq<Event>): File {
    if es == [] then f else After(AfterAll(f, es[..|es| - 1]), es[|es| - 1])
  }

  /** f_locks may be trusted: zero means no remote lock. */
  ghost predicate Trusted(f: File) {
    f.locks == 0 ==> Remotes(f.posix) == 0
  }

  /** A recount makes the count right again, whatever it was. */
  lemma RecountIsTrusted(f: File)
    ensures Trusted(After(f, Recount)) && (f.posix != [] ==> After(f, Recount).locks == Remotes(f.posix))
  {
  }

  lemma {:induction false} RemotesConcat(p: seq<PosixLock>, q: seq<PosixLock>)
    ensures Remotes(p + q) == Remotes(p) + Remotes(q)
    decreases |q|
  {
    if q == [] {
      assert p + q == p;
    } else {
      assert (p + q)[..|p + q| - 1] == p + q[..|q| - 1];
      RemotesConcat(p, q[..|q| - 1]);
    }
  }

  /** The one event after which f_locks misleads: a remote lock set while it stands at zero. */
  lemma TrustBrokenIff(f: File, e: Event)
    requires Trusted(f)
    ensures Trusted(After(f, e)) <==> !(e.Install? && e.lock.remote && f.locks == 0)
  {
    match e
    case Install(l) =>
      RemotesConcat(f.posix, [l]);
      assert [l][..0] == [];
    case Remove(i) =>
      if i < |f.posix| {
        assert f.posix == f.posix[..i] + [f.posix[i]] + f.posix[i + 1..];
        RemotesConcat(f.posix[..i] + [f.posix[i]], f.posix[i + 1..]);
        RemotesConcat(f.posix[..i], [f.posix[i]]);
        RemotesConcat(f.posix[..i], f.posix[i + 1..]);
      }
    case _ =>
  }

  /** No remote lock is set while f_locks stands at zero. */
  ghost predicate Noticed(f: File, es: seq<Event>) {
    forall i :: 0 <= i < |es| && es[i].Install? && es[i].lock.remote ==> AfterAll(f, es[..i]).locks != 0
  }

  lemma NoticedPrefix(f: File, es: seq<Event>)
    requires Noticed(f, es) && es != []
    ensures Noticed(f, es[..|es| - 1])
  {
    var p := es[..|es| - 1];
    forall i | 0 <= i < |p| && p[i].Install? && p[i].lock.remote ensures AfterAll(f, p[..i]).locks != 0 {
      assert p[..i] == es[..i];
    }
  }

  /** As long as no remote lock is set while f_locks stands at zero, f_locks stays to be trusted. */
  lemma {:induction false} TrustedAfterAll(f: File, es: seq<Event>)
    requires Trusted(f) && f.count > 0 && Noticed(f, es)
    ensures Trusted(AfterAll(f, es)) && AfterAll(f, es).count > 0
  {
    if es != [] {
      NoticedPrefix(f, es);
      TrustedAfterAll(f, es[..|es| - 1]);
      TrustBrokenIff(AfterAll(f, es[..|es| - 1]), es[|es| - 1]);
    }
  }

  /**
  Whatever else happens meanwhile, more locks on a file that has some among it, a traversal beside which no remote
  lock is set while f_locks stands at zero drops only files that hold nothing.
  */
  lemma QuietTraversalIsSafe(f: File, m: Match, es: seq<Event>)
    requires f.count > |f.blocks| && Noticed(Inspected(f, m), es)
    ensures var x := AfterAll(Inspected(f, m), es);
            Trusted(x) && x.count > 0 &&
            var y := x.(count := x.count - 1);
            Unused(y) ==> !Holds(y)
  {
    TrustedAfterAll(Inspected(f, m), es);
    RemotesFound(AfterAll(Inspected(f, m), es).posix);
  }

  /** And it can go wrong otherwise: a lock granted on an idle file in that gap is dropped with the file. */
  lemma GrantBesideTraversalIsLost(f: File, m: Match, l: PosixLock)
    requires f.count == 1 && f.blocks == [] && f.shares == [] && f.posix == [] && f.locks == 0 && l.remote
    ensures var x := After(After(After(Inspected(f, m), Other(1, [], [])), Install(l)), Other(0, [], []));
            var y := x.(count := x.count - 1);
            Unused(y) && Holds(y)
  {
    var x := After(After(After(Inspected(f, m), Other(1, [], [])), Install(l)), Other(0, [], []));
    assert x.posix == [l] && x.posix[0].remote;
  }
}
