/**
The NLM server's file table, its traversals, and the mark-and-sweep collector of hosts
(bundle/fs/lockd/svcsubs.c, svcshare.c, and nlm_gc_hosts in host.c).
*/
module LockdHosts {
  import opened Common
  import opened LockdFiles

  type FileId = nat

  /** time_before(a, b): the 64-bit difference a - b is negative. */
  predicate TimeBefore(a: nat, b: nat) {
    (a - b) % U64 >= U64 / 2
  }

  /** Within half the clock's range the wrapped comparison is the true one. */
  lemma TimeBeforeIsEarlier(a: nat, b: nat)
    requires b - U64 / 2 <= a < b + U64 / 2
    ensures TimeBefore(a % U64, b % U64) <==> a < b
  {
    var x := a % U64 - b % U64;
    assert (x - (a - b)) % U64 == 0;
    SameClass(x, a - b);
    if a < b {
      assert (a - b + U64) % U64 == a - b + U64;
      SameClass(a - b, a - b + U64);
    }
  }

  /** The hosts among the visited ones that a marking callback flags. */
  function Marked(hosts: map<HostId, Host>, m: Match, visited: set<HostId>): map<HostId, Host> {
    map h | h in hosts ::
      if h in visited && m.Mark? && InNet(m.net, hosts[h]) then hosts[h].(inuse := true) else hosts[h]
  }

  function ShareOwner(): Share -> Option<HostId> {
    (s: Share) => Some(s.host)
  }

  function BlockOwner(): Block -> Option<HostId> {
    (b: Block) => Some(b.host)
  }

  function LockOwner(): PosixLock -> Option<HostId> {
    (l: PosixLock) => if l.remote then Some(l.host) else None
  }

  ghost function HostsOf<T>(s: seq<T>, who: T -> Option<HostId>): set<HostId> {
    set i | 0 <= i < |s| && who(s[i]).Some? :: who(s[i]).value
  }

  /** The callback run on one owner. */
  function Flag(hosts: map<HostId, Host>, m: Match, h: Option<HostId>): map<HostId, Host> {
    if m.Mark? && h.Some? && h.value in hosts && InNet(m.net, hosts[h.value])
    then hosts[h.value := hosts[h.value].(inuse := true)] else hosts
  }

  /** The callback run on the owners of a list in turn. */
  function Visits<T>(hosts: map<HostId, Host>, m: Match, s: seq<T>, who: T -> Option<HostId>): map<HostId, Host> {
    if s == [] then hosts else Flag(Visits(hosts, m, s[..|s| - 1], who), m, who(s[|s| - 1]))
  }

  lemma {:induction false} VisitsMark<T>(hosts: map<HostId, Host>, m: Match, s: seq<T>, who: T -> Option<HostId>)
    ensures Visits(hosts, m, s, who) == Marked(hosts, m, HostsOf(s, who))
  {
    if s != [] {
      var q, o := s[..|s| - 1], who(s[|s| - 1]);
      VisitsMark(hosts, m, q, who);
      assert HostsOf(s, who) == HostsOf(q, who) + if o.Some? then {o.value} else {};
    }
  }

  ghost function Owners(f: File): set<HostId> {
    HostsOf(f.blocks, BlockOwner()) + HostsOf(f.shares, ShareOwner()) + HostsOf(f.posix, LockOwner())
  }

  ghost function OwnersIn(files: map<FileId, File>, some: seq<FileId>): set<HostId> {
    set f, h | f in some && f in files && h in Owners(files[f]) :: h
  }

  lemma OwnersOwn(f: File, h: HostId)
    ensures h in Owners(f) <==> Owns(f, h)
  {
  }

  lemma MarkedTwice(hosts: map<HostId, Host>, m: Match, a: set<HostId>, b: set<HostId>)
    ensures Marked(Marked(hosts, m, a), m, b) == Marked(hosts, m, a + b)
  {
  }

  /** Each file accounts for its blocks. */
  ghost predicate Referenced(files: map<FileId, File>) {
    forall f :: f in files ==> files[f].count >= |files[f].blocks|
  }

  /** An inspection cut short by a failed unlock: a remote lock is left, and no lock of another host is gone. */
  ghost predicate Partly(f: File, x: File, m: Match)
    requires f.count >= |f.blocks|
  {
    && x == Inspected(f, m).(posix := x.posix, locks := x.locks)
    && x.locks > 0 && Sift(x.posix, LockRule(m)) == Sift(f.posix, LockRule(m))
  }

  /** What became of one file: dropped, having nothing; or kept, inspected, and with a reason to stay. */
  ghost predicate Settled(f: File, r: Option<File>, m: Match, failed: bool)
    requires f.count >= |f.blocks|
  {
    match r
    case None => Unused(Inspected(f, m)) && !Holds(Inspected(f, m))
    case Some(x) => !Unused(x) && (x == Inspected(f, m) || (failed && Partly(f, x, m)))
  }

  ghost predicate Traversed(files: map<FileId, File>, files': map<FileId, File>, m: Match, done: seq<FileId>,
                            failed: bool)
    requires Referenced(files)
  {
    && files'.Keys <= files.Keys
    && (forall f :: f in files && f !in done ==> f in files' && files'[f] == files[f])
    && (forall f :: f in files && f in done ==>
          Settled(files[f], if f in files' then Some(files'[f]) else None, m, failed))
  }

  /** The list holds exactly the files of the table, each once; the next file gets an identity of its own. */
  ghost predicate Listed(files: map<FileId, File>, list: seq<FileId>, nextId: FileId) {
    Distinct(list) && (forall f :: f in list <==> f in files) && forall f :: f in files ==> f < nextId
  }

  ghost predicate OnePerHandle(files: map<FileId, File>) {
    forall f, g :: f in files && g in files && files[f].handle == files[g].handle ==> f == g
  }

  /** Whoever owns something is a live host. */
  ghost predicate OwnersLive(files: map<FileId, File>, live: set<HostId>) {
    forall f, h :: f in files && Owns(files[f], h) ==> h in live
  }

  /** Share i is the owner's first. */
  ghost predicate FirstOf(s: seq<Share>, i: nat, host: HostId, owner: seq<nat>)
    requires i < |s|
  {
    s[i].host == host && s[i].owner == owner && forall j :: 0 <= j < i ==> s[j].host != host || s[j].owner != owner
  }

  datatype Status = Granted | Denied | DeniedNolocks

  class Server {
    var hosts: map<HostId, Host>
    /** nlm_server_hosts in the order a walk meets them. */
    var order: seq<HostId>
    var files: map<FileId, File>
    /** nlm_files in the order a walk meets them. */
    var list: seq<FileId>
    var nextId: FileId
    const hz: nat

    ghost predicate Valid()
      reads this
    {
      && Listed(files, list, nextId) && OnePerHandle(files) && Referenced(files) && OwnersLive(files, hosts.Keys)
      && Distinct(order) && (forall h :: h in order <==> h in hosts.Keys)
    }

    constructor (hz: nat)
      ensures Valid() && files == map[] && hosts == map[] && this.hz == hz
    {
      hosts, order, files, list, nextId, this.hz := map[], [], map[], [], 0, hz;
    }

    /** Rewrite one file's record. */
    method Update(f: FileId, x: File)
      requires Valid() && f in files
      requires x.handle == files[f].handle && x.count >= |x.blocks|
      requires forall h :: Owns(x, h) ==> h in hosts
      modifies `files
      ensures Valid() && files == old(files)[f := x]
    {
      files := files[f := x];
    }

    // ---------------------------------------------------------- shares

    /** nlmsvc_share_file. */
    method ShareFile(f: FileId, host: HostId, owner: seq<nat>, access: bv32, mode: bv32, memory: bool)
      returns (r: Status)
      requires Valid() && f in files && host in hosts
      modifies `files
      ensures Valid()
      ensures r != Granted ==> files == old(files)
      ensures r == Granted ==> files == old(files)[f := old(files[f]).(shares := files[f].shares)]
      ensures r == Granted ==> Shared(old(files[f].shares), files[f].shares, Share(host, owner, access, mode))
      ensures r == Denied <==> Conflicts(old(files[f]).shares, Share(host, owner, access, mode))
      ensures r == DeniedNolocks ==> !memory
    {
      var wanted := Share(host, owner, access, mode);
      var s;
      s, r := Admit(files[f].shares, wanted, memory);
      if r == Granted {
        SharedOwners(files[f], s, wanted);
        Update(f, files[f].(shares := s));
      }
    }

    /** nlmsvc_unshare_file: the owner's first share goes; without one nothing changes. */
    method UnshareFile(f: FileId, host: HostId, owner: seq<nat>)
      requires Valid() && f in files
      modifies `files
      ensures Valid() && files == old(files)[f := old(files[f]).(shares := files[f].shares)]
      ensures var s := old(files[f].shares);
              || (files[f].shares == s && forall j :: 0 <= j < |s| ==> s[j].host != host || s[j].owner != owner)
              || exists i :: 0 <= i < |s| && FirstOf(s, i, host, owner) && files[f].shares == s[..i] + s[i + 1..]
    {
      var s := files[f].shares;
      var i := 0;
      while i < |s|
        invariant 0 <= i <= |s|
        invariant forall j :: 0 <= j < i ==> s[j].host != host || s[j].owner != owner
      {
        if s[i].host == host && s[i].owner == owner {
          assert FirstOf(s, i, host, owner);
          FewerShares(files[f], s[..i] + s[i + 1..]);
          Update(f, files[f].(shares := s[..i] + s[i + 1..]));
          return;
        }
        i := i + 1;
      }
      assert files[f] == files[f].(shares := s);
    }

    // ---------------------------------------------------------- inspecting one file

    /** A match callback on one owner. */
    method Visit(m: Match, h: HostId) returns (hit: bool)
      modifies `hosts
      ensures hit == Hits(m, h) && hosts == Flag(old(hosts), m, Some(h))
    {
      hit := false;
      match m
      case Mark(net) =>
        if h in hosts && InNet(net, hosts[h]) {
          hosts := hosts[h := hosts[h].(inuse := true)];
        }
      case Same(x) => hit := h == x;
      case All => hit := true;
    }

    /** The walk over the shares from one place to the next share of a matching host. */
    method NextShare(s: seq<Share>, from: nat, m: Match) returns (i: nat)
      requires from <= |s|
      modifies `hosts
      ensures from <= i <= |s| && (i < |s| ==> Hits(m, s[i].host))
      ensures forall j :: from <= j < i ==> ShareRule(m)(s[j]) == [s[j]]
      ensures m.Mark? ==> i == |s| && (from == 0 ==> hosts == Visits(old(hosts), m, s, ShareOwner()))
      ensures !m.Mark? ==> hosts == old(hosts)
    {
      i := from;
      while i < |s|
        invariant from <= i <= |s| && forall j :: from <= j < i ==> ShareRule(m)(s[j]) == [s[j]]
        invariant m.Mark? && from == 0 ==> hosts == Visits(old(hosts), m, s[..i], ShareOwner())
        invariant !m.Mark? ==> hosts == old(hosts)
      {
        assert s[..i + 1][..i] == s[..i];
        var hit := Visit(m, s[i].host);
        if hit {
          return;
        }
        i := i + 1;
      }
      assert s[..i] == s;
    }

    /** nlmsvc_traverse_shares: a share that matches is taken out, and the walk goes on where it was. */
    method TraverseShares(s: seq<Share>, m: Match) returns (s': seq<Share>)
      modifies `hosts
      ensures s' == Sift(s, ShareRule(m)) && (m.Mark? ==> hosts == Visits(old(hosts), m, s, ShareOwner()))
      ensures !m.Mark? ==> hosts == old(hosts)
    {
      s' := s;
      var i := 0;
      while true
        invariant i <= |s'| && Sift(s', ShareRule(m)) == Sift(s, ShareRule(m))
        invariant forall j :: 0 <= j < i ==> ShareRule(m)(s'[j]) == [s'[j]]
        invariant hosts == old(hosts) && (m.Mark? ==> s' == s && i == 0)
        decreases |s'|
      {
        i := NextShare(s', i, m);
        if i == |s'| {
          SiftFixed(s', ShareRule(m));
          return;
        }
        s' := Unshared(s', i, m);
      }
    }

    /** nlmsvc_traverse_blocks: start again after every block it takes off. */
    method TraverseBlocks(b: seq<Block>, m: Match) returns (b': seq<Block>)
      modifies `hosts
      ensures b' == Sift(b, BlockRule(m)) && (m.Mark? ==> hosts == Visits(old(hosts), m, b, BlockOwner()))
      ensures !m.Mark? ==> hosts == old(hosts)
    {
      b' := b;
      var i := 0;
      while i < |b'|
        invariant 0 <= i <= |b'| && Sift(b', BlockRule(m)) == Sift(b, BlockRule(m))
        invariant forall j :: 0 <= j < i ==> BlockRule(m)(b'[j]) == [b'[j]]
        invariant if m.Mark? then b' == b && hosts == Visits(old(hosts), m, b[..i], BlockOwner())
                  else hosts == old(hosts)
        decreases Queued(b'), |b'| - i
      {
        assert b'[..i + 1][..i] == b'[..i];
        var hit := Visit(m, b'[i].host);
        if hit && b'[i].queued {
          b' := Unlinked(b', i, m);
          i := 0;
        } else {
          i := i + 1;
        }
      }
      SiftFixed(b', BlockRule(m));
      assert b'[..i] == b';
    }

    /** One scan of the lock list up to the first lock of a matching host; it counts the remote locks it meets. */
    method FirstHit(p: seq<PosixLock>, m: Match) returns (i: nat, locks: nat)
      modifies `hosts
      ensures i <= |p| && (i < |p| ==> p[i].remote && Hits(m, p[i].host))
      ensures forall j :: 0 <= j < i ==> LockRule(m)(p[j]) == [p[j]]
      ensures locks == Remotes(p[..i]) + if i < |p| then 1 else 0
      ensures m.Mark? ==> i == |p| && hosts == Visits(old(hosts), m, p, LockOwner())
      ensures !m.Mark? ==> hosts == old(hosts)
    {
      i, locks := 0, 0;
      while i < |p|
        invariant i <= |p| && locks == Remotes(p[..i])
        invariant forall j :: 0 <= j < i ==> LockRule(m)(p[j]) == [p[j]]
        invariant if m.Mark? then hosts == Visits(old(hosts), m, p[..i], LockOwner()) else hosts == old(hosts)
      {
        assert p[..i + 1][..i] == p[..i];
        if p[i].remote {
          locks := locks + 1;
          var hit := Visit(m, p[i].host);
          if hit {
            return;
          }
        }
        i := i + 1;
      }
      assert p[..i] == p;
    }

    /**
    nlm_traverse_locks: start again after every owner it unlocks; a failed unlock ends it. The filesystem does not
    unlock the owners that are stuck.
    */
    method TraverseLocks(p: seq<PosixLock>, locks: nat, m: Match, stuck: (HostId, nat) -> bool)
      returns (p': seq<PosixLock>, locks': nat, failed: bool)
      modifies `hosts
      ensures failed <==> Stuck(p, m, stuck)
      ensures m.Mark? ==> !failed && hosts == Visits(old(hosts), m, p, LockOwner())
      ensures !m.Mark? ==> hosts == old(hosts)
      ensures Sift(p', LockRule(m)) == Sift(p, LockRule(m)) && forall l :: l in p' ==> l in p
      ensures !failed ==> p' == Sift(p, LockRule(m)) && locks' == if p == [] then locks else Remotes(p')
      ensures failed ==> locks' > 0
    {
      p', locks', failed := p, locks, false;
      if p == [] {
        return;
      }
      while true
        invariant Sift(p', LockRule(m)) == Sift(p, LockRule(m)) && (forall l :: l in p' ==> l in p)
        invariant hosts == old(hosts) && (m.Mark? ==> p' == p) && (Stuck(p, m, stuck) <==> Stuck(p', m, stuck))
        decreases |p'|
      {
        var i;
        i, locks' := FirstHit(p', m);
        if i == |p'| {
          SiftFixed(p', LockRule(m));
          assert p'[..i] == p';
          NoneHit(p', m, stuck);
          return;
        }
        if stuck(p'[i].host, p'[i].pid) {
          failed := true;
          return;
        }
        StuckStays(p', i, m, stuck);
        p' := Unlocked(p', i, m);
      }
    }

    /** The three walks of nlm_inspect_file. */
    method InspectLists(x: File, m: Match, stuck: (HostId, nat) -> bool) returns (y: File, failed: bool)
      requires x.count >= |x.blocks|
      modifies `hosts
      ensures failed <==> Stuck(x.posix, m, stuck)
      ensures hosts == Marked(old(hosts), m, Owners(x)) && (m.Mark? ==> !failed)
      ensures if failed then Partly(x, y, m) else y == Inspected(x, m)
      ensures y.handle == x.handle && y.count >= |y.blocks| && forall h :: Owns(y, h) ==> Owns(x, h)
    {
      var b := TraverseBlocks(x.blocks, m);
      var s := TraverseShares(x.shares, m);
      var p, n;
      p, n, failed := TraverseLocks(x.posix, x.locks, m, stuck);
      InspectMarks(old(hosts), m, x);
      BlockCount(x.blocks, m);
      y := x.(count := x.count - (|x.blocks| - |b|), blocks := b, shares := s, posix := p, locks := n);
      InspectedOwners(x, m, p);
    }

    // ---------------------------------------------------------- the file table

    /** Unhash a file. */
    method Drop(f: FileId)
      requires Valid() && f in files
      modifies `files, `list
      ensures Valid() && f !in files && Elsewhere(old(files), files, f)
    {
      WithoutKeepsDistinct(list, f);
      list := Without(list, f);
      files := files - {f};
    }

    /** One step of nlm_traverse_files: hold the file, inspect it, let go of it if it looks unused. */
    method VisitFile(f: FileId, m: Match, stuck: (HostId, nat) -> bool) returns (failed: bool)
      requires Valid() && f in files
      modifies `files, `hosts, `list
      ensures failed <==> Stuck(old(files[f]).posix, m, stuck)
      ensures Valid() && (m.Mark? ==> !failed)
      ensures hosts == Marked(old(hosts), m, Owners(old(files[f])))
      ensures Elsewhere(old(files), files, f)
      ensures Settled(old(files[f]), if f in files then Some(files[f]) else None, m, failed)
    {
      var x := files[f];
      var y;
      y, failed := InspectLists(x.(count := x.count + 1), m, stuck);
      HeldLonger(x, m);
      SettledNow(x, y, m, failed);
      assert hosts.Keys == old(hosts.Keys);
      y := y.(count := y.count - 1);
      if Unused(y) {
        Drop(f);
      } else {
        Update(f, y);
      }
    }

    /**
    nlm_traverse_files. Every file is inspected once; those it lets go hold nothing; the owners of everything there was
    are marked.
    */
    method TraverseFiles(m: Match, stuck: (HostId, nat) -> bool) returns (failed: bool)
      requires Valid()
      modifies `files, `hosts, `list
      ensures failed <==> exists f :: f in old(files) && Stuck(old(files)[f].posix, m, stuck)
      ensures Valid() && (m.Mark? ==> !failed)
      ensures forall f :: f in old(files) ==>
                Settled(old(files)[f], if f in files then Some(files[f]) else None, m, failed)
      ensures files.Keys <= old(files).Keys
      ensures forall h :: h in hosts <==> h in old(hosts)
      ensures forall h :: h in hosts && m.Mark? && InNet(m.net, hosts[h]) && Owner(old(files), h) ==>
                hosts[h] == old(hosts)[h].(inuse := true)
      ensures forall h :: h in hosts && !(m.Mark? && InNet(m.net, hosts[h]) && Owner(old(files), h)) ==>
                hosts[h] == old(hosts)[h]
    {
      failed := false;
      var walk := list;
      NothingMarked(hosts, m, files);
      for k := 0 to |walk|
        invariant Valid() && (m.Mark? ==> !failed)
        invariant Reached(old(files), old(hosts), files, hosts, m, walk[..k], failed)
        invariant failed <==> exists f :: f in walk[..k] && f in old(files) && Stuck(old(files)[f].posix, m, stuck)
      {
        DistinctAt(walk, k);
        ghost var before := files;
        var bad := VisitFile(walk[k], m, stuck);
        ReachedMore(old(files), old(hosts), before, files, m, walk[..k], walk[k], failed, bad);
        failed := failed || bad;
      }
      assert walk[..|walk|] == walk;
      OwnersAll(old(files), walk);
    }

    /** nlmsvc_free_host_resources; the caller stops the machine when it fails. */
    method FreeHostResources(h: HostId, stuck: (HostId, nat) -> bool) returns (failed: bool)
      requires Valid()
      modifies `files, `hosts, `list
      ensures failed <==> exists f :: f in old(files) && Stuck(old(files)[f].posix, Same(h), stuck)
      ensures Valid() && hosts == old(hosts)
      ensures !failed ==> forall f :: f in files ==> f in old(files) && files[f] == Inspected(old(files)[f], Same(h))
      ensures !failed ==> forall f :: f in old(files) && f !in files ==> !Holds(Inspected(old(files)[f], Same(h)))
      ensures !failed ==> forall f :: f in files ==> forall x :: x in files[f].shares ==> x.host != h
      ensures !failed ==> forall f :: f in files ==> forall x :: x in files[f].posix ==> !x.remote || x.host != h
    {
      failed := TraverseFiles(Same(h), stuck);
      if !failed {
        forall f | f in files
          ensures forall x :: x in files[f].shares ==> x.host != h
          ensures forall x :: x in files[f].posix ==> !x.remote || x.host != h
        {
          SameHostReleased(old(files)[f], h);
        }
      }
    }

    /**
    nlm_lookup_file: found or created, with one more reference; a failed open of a new file leaves the table
    alone.
    */
    method LookupFile(handle: Handle, opens: bool) returns (r: Option<FileId>)
      requires Valid()
      modifies `files, `list, `nextId
      ensures Valid()
      ensures r.None? ==> files == old(files) && !opens
      ensures r.Some? ==> r.value in files && files[r.value].handle == handle
      ensures r.Some? && r.value in old(files) ==>
                files == old(files)[r.value := old(files)[r.value].(count := old(files)[r.value].count + 1)]
      ensures r.Some? && r.value !in old(files) ==>
                opens && files == old(files)[r.value := File(handle, 1, [], [], 0, [])]
      ensures (r.None? || r.value !in old(files)) ==> forall f :: f in old(files) ==> old(files)[f].handle != handle
    {
      r := FindFile(handle);
      if r.Some? {
        Update(r.value, files[r.value].(count := files[r.value].count + 1));
        return;
      }
      if opens {
        var f := NewFile(handle);
        r := Some(f);
      }
    }

    /** The walk to the file of a handle. */
    method FindFile(handle: Handle) returns (r: Option<FileId>)
      requires Listed(files, list, nextId)
      ensures r.Some? ==> r.value in files && files[r.value].handle == handle
      ensures r.None? ==> forall f :: f in files ==> files[f].handle != handle
    {
      var i := 0;
      while i < |list|
        invariant 0 <= i <= |list| && forall f :: f in list[..i] ==> files[f].handle != handle
      {
        if files[list[i]].handle == handle {
          return Some(list[i]);
        }
        i := i + 1;
      }
      assert list[..i] == list;
      r := None;
    }

    /** A file is made and hashed. */
    method NewFile(handle: Handle) returns (f: FileId)
      requires Valid() && forall g :: g in files ==> files[g].handle != handle
      modifies `files, `list, `nextId
      ensures Valid() && f !in old(files) && files == old(files)[f := File(handle, 1, [], [], 0, [])]
    {
      f := nextId;
      DistinctAppend(list, f);
      assert forall h :: !Owns(File(handle, 1, [], [], 0, []), h);
      files, list, nextId := files[f := File(handle, 1, [], [], 0, [])], list + [f], nextId + 1;
    }

    /**
    nlm_release_file: nlm_file_inuse looks at the lock list itself, so what goes holds nothing, and what holds
    nothing goes.
    */
    method ReleaseFile(f: FileId)
      requires Valid() && f in files && files[f].count > |files[f].blocks|
      modifies `files, `list
      ensures Valid() && Elsewhere(old(files), files, f)
      ensures var x := old(files[f]).(count := old(files[f]).count - 1);
              (f in files <==> Holds(x)) && (f in files ==> files[f] == x)
    {
      var x := files[f].(count := files[f].count - 1);
      if x.count > 0 || x.blocks != [] || x.shares != [] {
        Update(f, x);
        return;
      }
      var i := 0;
      while i < |x.posix|
        invariant 0 <= i <= |x.posix| && forall j :: 0 <= j < i ==> !x.posix[j].remote
      {
        if x.posix[i].remote {
          Update(f, x);
          return;
        }
        i := i + 1;
      }
      Drop(f);
    }

    // ---------------------------------------------------------- hosts, locks and blocks

    /**
    nlmsvc_lookup_host, but for the collection it may begin with, when the true time is now: found or made, first in
    the walk, with one more reference, and good for another 300 seconds.
    */
    method LookupHost(h: HostId, net: NetId, now: nat, memory: bool) returns (ok: bool)
      requires Valid() && (h in hosts ==> hosts[h].net == net)
      modifies `hosts, `order
      ensures Valid() && (ok <==> h in old(hosts) || memory)
      ensures ok ==> h in hosts && hosts == old(hosts)[h := hosts[h]]
      ensures ok ==> hosts[h].net == net && hosts[h].expires == (now + 300 * hz) % U64
      ensures ok ==> hosts[h].count == if h in old(hosts) then old(hosts)[h].count + 1 else 2
      ensures ok ==> (hosts[h].inuse <==> h in old(hosts) && old(hosts)[h].inuse)
      ensures !ok ==> hosts == old(hosts)
    {
      ok := true;
      var jiffies := now % U64;
      var expires := (jiffies + 300 * hz) % U64;
      SameClass(jiffies + 300 * hz, now + 300 * hz);
      WithoutKeepsDistinct(order, h);
      DistinctPrepend(h, Without(order, h));
      if h in hosts {
        hosts := hosts[h := hosts[h].(count := hosts[h].count + 1, expires := expires)];
      } else {
        if !memory {
          return false;
        }
        hosts := hosts[h := Host(net, false, expires, 2)];
      }
      order := [h] + Without(order, h);
    }

    /** nlmsvc_release_host: the host goes no sooner than with the next collection. */
    method ReleaseHost(h: HostId)
      requires Valid() && h in hosts && hosts[h].count > 0
      modifies `hosts
      ensures Valid() && hosts == old(hosts)[h := old(hosts)[h].(count := old(hosts)[h].count - 1)]
    {
      hosts := hosts[h := hosts[h].(count := hosts[h].count - 1)];
    }

    /** nlmsvc_lock, when the filesystem grants the lock. */
    method SetLock(f: FileId, host: HostId, pid: nat)
      requires Valid() && f in files && host in hosts
      modifies `files
      ensures Valid()
      ensures files == old(files)[f := old(files[f]).(posix := old(files[f].posix) + [PosixLock(true, host, pid)])]
    {
      var x := files[f].(posix := files[f].posix + [PosixLock(true, host, pid)]);
      OneOwnerMore(files[f], x, host);
      Update(f, x);
    }

    /** nlmsvc_lock, when the lock has to wait: a block, which holds a reference on the file, goes on the queue. */
    method Block(f: FileId, host: HostId)
      requires Valid() && f in files && host in hosts
      modifies `files
      ensures Valid()
      ensures var x := old(files[f]);
              var y := x.(count := x.count + 1, blocks := [LockdFiles.Block(host, true, false)] + x.blocks);
              files == old(files)[f := y]
    {
      var x := files[f];
      var y := x.(count := x.count + 1, blocks := [LockdFiles.Block(host, true, false)] + x.blocks);
      OneOwnerMore(x, y, host);
      Update(f, y);
    }

    /** nlmsvc_unlock: the locks of one owner go. */
    method Unlock(f: FileId, host: HostId, pid: nat)
      requires Valid() && f in files
      modifies `files
      ensures Valid()
      ensures var p := Without(old(files[f].posix), PosixLock(true, host, pid));
              files == old(files)[f := old(files[f]).(posix := p)]
    {
      var x := files[f].(posix := Without(files[f].posix, PosixLock(true, host, pid)));
      FewerLocks(files[f], x.posix);
      Update(f, x);
    }

    // ---------------------------------------------------------- the collector

    /** First pass of nlm_gc_hosts. */
    method ClearMarks(net: Option<NetId>)
      requires Valid()
      modifies `hosts
      ensures Valid() && hosts.Keys == old(hosts.Keys)
      ensures forall h :: h in hosts ==>
                hosts[h] == old(hosts)[h].(inuse := old(hosts)[h].inuse && !InNet(net, old(hosts)[h]))
    {
      for k := 0 to |order|
        invariant hosts.Keys == old(hosts.Keys)
        invariant forall h :: h in hosts ==> hosts[h] == old(hosts)[h].(inuse :=
                    old(hosts)[h].inuse && !(InNet(net, old(hosts)[h]) && h in order[..k]))
      {
        var h := order[k];
        assert order[..k + 1] == order[..k] + [h];
        if InNet(net, hosts[h]) {
          hosts := hosts[h := hosts[h].(inuse := false)];
        }
      }
      assert order[..|order|] == order;
    }

    /** Last pass of nlm_gc_hosts; jiffies(h) is the clock when host h is looked at. */
    method Sweep(net: Option<NetId>, jiffies: HostId -> nat)
      requires Valid()
      requires forall h :: h in hosts && InNet(net, hosts[h]) && !hosts[h].inuse ==> !Owner(files, h)
      modifies `hosts, `order
      ensures Valid()
      ensures forall h :: h in hosts <==>
                h in old(hosts) && !(Idle(old(hosts)[h], net, jiffies(h)) && !old(hosts)[h].inuse)
      ensures forall h :: h in hosts ==> hosts[h] == old(hosts)[h]
    {
      var walk := order;
      for k := 0 to |walk|
        invariant Valid()
        invariant forall h :: h in hosts <==>
                    h in old(hosts) && !(h in walk[..k] && Idle(old(hosts)[h], net, jiffies(h)) && !old(hosts)[h].inuse)
        invariant forall h :: h in hosts ==> hosts[h] == old(hosts)[h]
      {
        var h := walk[k];
        DistinctAt(walk, k);
        var x := hosts[h];
        if InNet(net, x) && !(x.inuse || TimeBefore(jiffies(h), x.expires)) && x.count == 1 {
          Destroy(h);
        }
      }
      assert walk[..|walk|] == walk;
    }

    method Destroy(h: HostId)
      requires Valid() && h in hosts && !Owner(files, h)
      modifies `hosts, `order
      ensures Valid() && hosts == old(hosts) - {h}
    {
      WithoutKeepsDistinct(order, h);
      order := Without(order, h);
      hosts := hosts - {h};
    }

    /**
    nlm_gc_hosts. A host goes exactly when it is in the swept net, owns nothing in any file, has expired, and the
    table's is the only reference; whoever owns something stays, though shares hold no reference. Nothing any host
    owns is touched.
    */
    method GcHosts(net: Option<NetId>, jiffies: HostId -> nat)
      requires Valid()
      modifies this
      ensures Valid()
      ensures forall h :: h in hosts <==>
                h in old(hosts) && !(Idle(old(hosts)[h], net, jiffies(h)) && !Owner(old(files), h))
      ensures forall h :: h in hosts && InNet(net, hosts[h]) ==>
                hosts[h] == old(hosts)[h].(inuse := Owner(old(files), h))
      ensures forall h :: h in hosts && !InNet(net, hosts[h]) ==> hosts[h] == old(hosts)[h]
      ensures forall f :: f in files ==> f in old(files) && files[f] == old(files)[f].(locks := files[f].locks)
      ensures forall f :: f in old(files) && f !in files ==> !Holds(old(files)[f])
    {
      ClearMarks(net);
      var failed := TraverseFiles(Mark(net), (_, _) => false);
      MarkKeeps(old(files), files, net);
      Sweep(net, jiffies);
    }

    /**
    The collection told by true times: clock(h) is the time when host h is looked at, expiry(h) the time its 300
    seconds are over. A host goes if and only if it is in the net, owns nothing, has no other reference, and its time
    is over.
    */
    method CollectAt(net: Option<NetId>, clock: HostId -> nat, ghost expiry: HostId -> nat)
      requires Valid()
      requires forall h :: h in hosts ==> hosts[h].expires == expiry(h) % U64
      requires forall h :: h in hosts ==> expiry(h) - U64 / 2 <= clock(h) < expiry(h) + U64 / 2
      modifies this
      ensures Valid() && hosts.Keys <= old(hosts.Keys)
      ensures forall h :: h in old(hosts) ==>
                (h !in hosts <==> InNet(net, old(hosts)[h]) && !Owner(old(files), h) && old(hosts)[h].count == 1
                                  && expiry(h) <= clock(h))
      ensures forall h :: h in hosts ==> hosts[h] == old(hosts)[h].(inuse := hosts[h].inuse)
      ensures forall f :: f in files ==> f in old(files) && files[f] == old(files)[f].(locks := files[f].locks)
    {
      forall h | h in hosts
        ensures Idle(hosts[h], net, clock(h) % U64) <==>
                  InNet(net, hosts[h]) && expiry(h) <= clock(h) && hosts[h].count == 1
      {
        IdleIff(hosts[h], net, expiry(h), clock(h));
      }
      GcHosts(net, h => clock(h) % U64);
    }
  }

  /** Not held by anyone but the table, and past its time. */
  predicate Idle(x: Host, net: Option<NetId>, now: nat) {
    InNet(net, x) && !TimeBefore(now, x.expires) && x.count == 1
  }

  /** With true times: the host's time is over at `now`. */
  lemma IdleIff(x: Host, net: Option<NetId>, expiry: nat, now: nat)
    requires x.expires == expiry % U64 && expiry - U64 / 2 <= now < expiry + U64 / 2
    ensures Idle(x, net, now % U64) <==> InNet(net, x) && expiry <= now && x.count == 1
  {
    TimeBeforeIsEarlier(now, expiry);
  }

  lemma MarkKeepsFile(f: File, r: Option<File>, net: Option<NetId>)
    requires f.count >= |f.blocks| && Settled(f, r, Mark(net), false)
    ensures r.Some? ==> r.value == f.(locks := r.value.locks) && forall h :: Owns(r.value, h) <==> Owns(f, h)
    ensures r.None? ==> !Holds(f) && forall h :: !Owns(f, h)
  {
    MarkOnlyLooks(f, net);
  }

  lemma MarkKeeps(files: map<FileId, File>, files': map<FileId, File>, net: Option<NetId>)
    requires Referenced(files) && files'.Keys <= files.Keys
    requires forall f :: f in files ==>
               Settled(files[f], if f in files' then Some(files'[f]) else None, Mark(net), false)
    ensures forall f :: f in files' ==> files'[f] == files[f].(locks := files'[f].locks)
    ensures forall f :: f in files && f !in files' ==> !Holds(files[f])
    ensures forall h :: Owner(files', h) <==> Owner(files, h)
  {
    forall f | f in files
      ensures f in files' ==> files'[f] == files[f].(locks := files'[f].locks) && forall h :: Owns(files'[f], h) <==>
                Owns(files[f], h)
      ensures f !in files' ==> !Holds(files[f]) && forall h :: !Owns(files[f], h)
    {
      MarkKeepsFile(files[f], if f in files' then Some(files'[f]) else None, net);
    }
  }

  /** Part of the files have been visited, and the owners in them marked. */
  ghost predicate Reached(files: map<FileId, File>, hosts: map<HostId, Host>, files': map<FileId, File>,
                          hosts': map<HostId, Host>,
                          m: Match, done: seq<FileId>, failed: bool)
  {
    && Referenced(files) && Traversed(files, files', m, done, failed)
    && hosts' == Marked(hosts, m, OwnersIn(files, done))
  }

  /** The two tables agree on every file but one, which the second may lack. */
  ghost predicate Elsewhere(a: map<FileId, File>, b: map<FileId, File>, f: FileId) {
    b.Keys <= a.Keys && forall g :: g in a && g != f ==> g in b && b[g] == a[g]
  }

  lemma SettledNow(x: File, z: File, m: Match, failed: bool)
    requires x.count >= |x.blocks|
    requires var held := x.(count := x.count + 1); if failed then Partly(held, z, m) else z == Inspected(held, m)
    ensures z.count > 0 && z.handle == x.handle && z.count > |z.blocks|
    ensures var y := z.(count := z.count - 1); Settled(x, if Unused(y) then None else Some(y), m, failed)
    ensures forall h :: Owns(z.(count := z.count - 1), h) ==> Owns(z, h)
  {
    HeldLonger(x, m);
    InspectedUnused(x, m);
  }

  lemma ReachedMore(files: map<FileId, File>, hosts: map<HostId, Host>, a: map<FileId, File>, b: map<FileId, File>,
                    m: Match, done: seq<FileId>, f: FileId, failed: bool, bad: bool)
    requires Referenced(files) && Traversed(files, a, m, done, failed) && f in a && f !in done && Elsewhere(a, b, f)
    requires Settled(a[f], if f in b then Some(b[f]) else None, m, bad)
    ensures var hosts' := Marked(Marked(hosts, m, OwnersIn(files, done)), m, Owners(a[f]));
            Reached(files, hosts, b, hosts', m, done + [f], failed || bad)
  {
    OwnersMore(hosts, files, m, done, f);
    TraversedMore(files, a, b, m, done, f, failed, bad);
  }

  lemma TraversedMore(files: map<FileId, File>, a: map<FileId, File>, b: map<FileId, File>,
                      m: Match, done: seq<FileId>, f: FileId, failed: bool, bad: bool)
    requires Referenced(files) && Traversed(files, a, m, done, failed) && f in a && f !in done && Elsewhere(a, b, f)
    requires Settled(a[f], if f in b then Some(b[f]) else None, m, bad)
    ensures Traversed(files, b, m, done + [f], failed || bad)
  {
    forall g | g in files && g in done + [f]
      ensures Settled(files[g], if g in b then Some(b[g]) else None, m, failed || bad)
    {
      if g != f {
        assert g in done && (g in b <==> g in a);
      }
    }
  }

  /** Share i taken out of the list. */
  function Unshared(s: seq<Share>, i: nat, m: Match): (r: seq<Share>)
    requires i < |s| && Hits(m, s[i].host)
    ensures |r| == |s| - 1 && r[..i] == s[..i] && Sift(r, ShareRule(m)) == Sift(s, ShareRule(m))
  {
    assert s == s[..i] + [s[i]] + s[i + 1..] && s[..i] + [] + s[i + 1..] == s[..i] + s[i + 1..];
    SiftStep(s[..i], s[i], s[i + 1..], [], ShareRule(m));
    s[..i] + s[i + 1..]
  }

  lemma SharedOwners(f: File, s: seq<Share>, t: Share)
    requires Shared(f.shares, s, t)
    ensures forall h :: Owns(f.(shares := s), h) ==> Owns(f, h) || h == t.host
  {
  }

  /** The walk of nlmsvc_share_file over a file's shares. */
  method Admit(s: seq<Share>, t: Share, memory: bool) returns (s': seq<Share>, r: Status)
    ensures r == Granted ==> Shared(s, s', t)
    ensures r == Denied <==> Conflicts(s, t)
    ensures r == DeniedNolocks <==> !Conflicts(s, t) && !memory && forall j :: 0 <= j < |s| ==> !Mine(s[j], t)
    ensures r != Granted ==> s' == s
  {
    s' := s;
    var i := 0;
    while i < |s|
      invariant 0 <= i <= |s|
      invariant forall j :: 0 <= j < i ==> !Mine(s[j], t) && !Clash(s[j], t)
    {
      if Mine(s[i], t) {
        return s[i := t], Granted;
      }
      if Clash(s[i], t) {
        return s, Denied;
      }
      i := i + 1;
    }
    if !memory {
      return s, DeniedNolocks;
    }
    return [t] + s, Granted;
  }

  predicate Mine(s: Share, t: Share) {
    s.host == t.host && s.owner == t.owner
  }

  predicate Clash(s: Share, t: Share) {
    t.access & s.mode != 0 || t.mode & s.access != 0
  }

  /** For reading (1) and writing (2): one of the two asks for a kind of access that the other denies. */
  lemma ClashMeans(s: Share, t: Share)
    requires s.access <= 3 && s.mode <= 3 && t.access <= 3 && t.mode <= 3
    ensures Clash(s, t) <==>
              || (t.access in {1, 3} && s.mode in {1, 3}) || (t.access in {2, 3} && s.mode in {2, 3})
              || (s.access in {1, 3} && t.mode in {1, 3}) || (s.access in {2, 3} && t.mode in {2, 3})
  {
  }

  /** Some share, not this owner's and not after it, denies what is asked. */
  ghost predicate Conflicts(s: seq<Share>, t: Share) {
    exists i :: 0 <= i < |s| && Clash(s[i], t) && forall j :: 0 <= j <= i ==> !Mine(s[j], t)
  }

  /** The owner's first share is replaced in place; without one the share goes to the front and clashes with none. */
  ghost predicate Shared(s: seq<Share>, s': seq<Share>, t: Share) {
    || (exists i :: 0 <= i < |s| && Mine(s[i], t) && s' == s[i := t]
          && forall j :: 0 <= j < i ==> !Mine(s[j], t) && !Clash(s[j], t))
    || (s' == [t] + s && forall j :: 0 <= j < |s| ==> !Mine(s[j], t) && !Clash(s[j], t))
  }

  function Queued(b: seq<Block>): nat {
    if b == [] then 0 else Queued(b[..|b| - 1]) + if b[|b| - 1].queued then 1 else 0
  }

  lemma {:induction false} QueuedConcat(a: seq<Block>, b: seq<Block>)
    ensures Queued(a + b) == Queued(a) + Queued(b)
    decreases |b|
  {
    if b == [] {
      assert a + b == a;
    } else {
      assert (a + b)[..|a + b| - 1] == a + b[..|b| - 1];
      QueuedConcat(a, b[..|b| - 1]);
    }
  }

  /** nlmsvc_unlink_block and release: the block leaves the queue, and the file too unless a call holds it. */
  function Unlinked(b: seq<Block>, i: nat, m: Match): (r: seq<Block>)
    requires i < |b| && Hits(m, b[i].host) && b[i].queued
    ensures Sift(r, BlockRule(m)) == Sift(b, BlockRule(m)) && Queued(r) < Queued(b)
  {
    var y := if b[i].inflight then [b[i].(queued := false)] else [];
    assert Sift(b[..i] + y + b[i + 1..], BlockRule(m)) == Sift(b, BlockRule(m)) by {
      assert b == b[..i] + [b[i]] + b[i + 1..];
      if b[i].inflight {
        SiftOne(b[i].(queued := false), BlockRule(m));
      }
      SiftStep(b[..i], b[i], b[i + 1..], y, BlockRule(m));
    }
    assert Queued(b[..i] + y + b[i + 1..]) < Queued(b) by {
      assert b == b[..i] + [b[i]] + b[i + 1..];
      QueuedConcat(b[..i] + y, b[i + 1..]);
      QueuedConcat(b[..i], y);
      QueuedConcat(b[..i] + [b[i]], b[i + 1..]);
      QueuedConcat(b[..i], [b[i]]);
    }
    b[..i] + y + b[i + 1..]
  }

  /** The filesystem does not unlock some owner that matches. */
  ghost predicate Stuck(p: seq<PosixLock>, m: Match, stuck: (HostId, nat) -> bool) {
    exists l :: l in p && l.remote && Hits(m, l.host) && stuck(l.host, l.pid)
  }

  lemma NoneHit(p: seq<PosixLock>, m: Match, stuck: (HostId, nat) -> bool)
    requires forall j :: 0 <= j < |p| ==> LockRule(m)(p[j]) == [p[j]]
    ensures !Stuck(p, m, stuck)
  {
  }

  lemma StuckStays(p: seq<PosixLock>, i: nat, m: Match, stuck: (HostId, nat) -> bool)
    requires i < |p| && p[i].remote && Hits(m, p[i].host) && !stuck(p[i].host, p[i].pid)
    ensures Stuck(p, m, stuck) <==> Stuck(Unlocked(p, i, m), m, stuck)
  {
  }

  /** What the rule leaves as it is stays. */
  lemma {:induction false} SiftKeeps<T(!new)>(s: seq<T>, rule: T -> seq<T>)
    ensures forall x :: x in s && x in rule(x) ==> x in Sift(s, rule)
  {
    if s != [] {
      SiftKeeps(s[..|s| - 1], rule);
    }
  }

  /** nlm_unlock_files on the owner of lock i. */
  function Unlocked(p: seq<PosixLock>, i: nat, m: Match): (r: seq<PosixLock>)
    requires i < |p| && p[i].remote && Hits(m, p[i].host)
    ensures Sift(r, LockRule(m)) == Sift(p, LockRule(m)) && |r| < |p| && (forall l :: l in r ==> l in p)
    ensures forall l :: l in p && !(l.remote && l.host == p[i].host && l.pid == p[i].pid) ==> l in r
  {
    SiftKeeps(p, OwnerRule(p[i]));
    OwnerGoneFirst(p, p[i], m);
    OwnerRuleShrinks(p, p[i]);
    SiftSubset(p, OwnerRule(p[i]));
    Sift(p, OwnerRule(p[i]))
  }

  lemma SiftSubset(p: seq<PosixLock>, rule: PosixLock -> seq<PosixLock>)
    requires forall y :: rule(y) == [] || rule(y) == [y]
    ensures forall l :: l in Sift(p, rule) ==> l in p
  {
    forall l | l in Sift(p, rule) ensures l in p {
      SiftMember(p, rule, l);
    }
  }

  /** A lock or a block more. */
  lemma OneOwnerMore(f: File, x: File, host: HostId)
    requires x.shares == f.shares
    requires forall b :: b in x.blocks ==> b in f.blocks || b.host == host
    requires forall l :: l in x.posix ==> l in f.posix || l.host == host
    ensures forall h :: Owns(x, h) ==> Owns(f, h) || h == host
  {
    forall h | Owns(x, h) && h != host ensures Owns(f, h) {
      if i :| 0 <= i < |x.blocks| && x.blocks[i].host == h {
        assert x.blocks[i] in f.blocks;
      } else if i :| 0 <= i < |x.posix| && x.posix[i].remote && x.posix[i].host == h {
        assert x.posix[i] in f.posix;
      }
    }
  }

  lemma FewerLocks(f: File, p: seq<PosixLock>)
    requires forall x :: x in p ==> x in f.posix
    ensures forall h :: Owns(f.(posix := p), h) ==> Owns(f, h)
  {
    forall h | Owns(f.(posix := p), h) ensures Owns(f, h) {
      if i :| 0 <= i < |p| && p[i].remote && p[i].host == h {
        assert p[i] in f.posix;
      }
    }
  }

  lemma FewerShares(f: File, s: seq<Share>)
    requires forall x :: x in s ==> x in f.shares
    ensures forall h :: Owns(f.(shares := s), h) ==> Owns(f, h)
  {
    forall h | Owns(f.(shares := s), h) ensures Owns(f, h) {
      if i :| 0 <= i < |s| && s[i].host == h {
        assert s[i] in f.shares;
      }
    }
  }

  lemma InspectMarks(hosts: map<HostId, Host>, m: Match, x: File)
    ensures !m.Mark? ==> Marked(hosts, m, Owners(x)) == hosts
    ensures Visits(Visits(Visits(hosts, m, x.blocks, BlockOwner()), m, x.shares, ShareOwner()), m, x.posix, LockOwner())
            == Marked(hosts, m, Owners(x))
    ensures Marked(hosts, m, Owners(x)).Keys == hosts.Keys
  {
    var a, b, c := HostsOf(x.blocks, BlockOwner()), HostsOf(x.shares, ShareOwner()), HostsOf(x.posix, LockOwner());
    VisitsMark(hosts, m, x.blocks, BlockOwner());
    VisitsMark(Marked(hosts, m, a), m, x.shares, ShareOwner());
    MarkedTwice(hosts, m, a, b);
    VisitsMark(Marked(hosts, m, a + b), m, x.posix, LockOwner());
    MarkedTwice(hosts, m, a + b, c);
  }

  /** An inspection gives no host anything. */
  lemma InspectedOwners(x: File, m: Match, p: seq<PosixLock>)
    requires forall l :: l in p ==> l in x.posix
    ensures var y := x.(blocks := Sift(x.blocks, BlockRule(m)), shares := Sift(x.shares, ShareRule(m)), posix := p);
            forall h :: Owns(y, h) ==> Owns(x, h)
  {
    var b, s := Sift(x.blocks, BlockRule(m)), Sift(x.shares, ShareRule(m));
    forall h | Owns(x.(blocks := b, shares := s, posix := p), h) ensures Owns(x, h) {
      if i :| 0 <= i < |b| && b[i].host == h {
        BlockSource(x.blocks, m, b[i]);
      } else if i :| 0 <= i < |s| && s[i].host == h {
        SiftMember(x.shares, ShareRule(m), s[i]);
        assert s[i] in x.shares;
      } else {
        var i :| 0 <= i < |p| && p[i].remote && p[i].host == h;
        assert p[i] in x.posix;
      }
    }
  }

  lemma {:induction false} BlockSource(b: seq<Block>, m: Match, y: Block)
    requires y in Sift(b, BlockRule(m))
    ensures exists i :: 0 <= i < |b| && b[i].host == y.host
  {
    var q := b[..|b| - 1];
    if y in Sift(q, BlockRule(m)) {
      BlockSource(q, m, y);
      var i :| 0 <= i < |q| && q[i].host == y.host;
      assert b[i].host == y.host;
    } else {
      assert b[|b| - 1].host == y.host;
    }
  }

  lemma HeldLonger(x: File, m: Match)
    requires x.count >= |x.blocks|
    ensures Inspected(x.(count := x.count + 1), m) == Inspected(x, m).(count := Inspected(x, m).count + 1)
    ensures Owners(x.(count := x.count + 1)) == Owners(x)
    ensures forall h :: Owns(x.(count := x.count + 1), h) ==> Owns(x, h)
  {
  }

  lemma NothingMarked(hosts: map<HostId, Host>, m: Match, files: map<FileId, File>)
    ensures hosts == Marked(hosts, m, OwnersIn(files, []))
  {
  }

  lemma OwnersMore(hosts: map<HostId, Host>, files: map<FileId, File>, m: Match, done: seq<FileId>, f: FileId)
    requires f in files
    ensures Marked(Marked(hosts, m, OwnersIn(files, done)), m, Owners(files[f]))
            == Marked(hosts, m, OwnersIn(files, done + [f]))
  {
    assert OwnersIn(files, done + [f]) == OwnersIn(files, done) + Owners(files[f]);
    MarkedTwice(hosts, m, OwnersIn(files, done), Owners(files[f]));
  }

  /** h owns something in some file. */
  ghost predicate Owner(files: map<FileId, File>, h: HostId) {
    exists f :: f in files && Owns(files[f], h)
  }

  lemma OwnersAll(files: map<FileId, File>, done: seq<FileId>)
    requires forall f :: f in files ==> f in done
    ensures forall h :: h in OwnersIn(files, done) <==> Owner(files, h)
  {
    forall h ensures h in OwnersIn(files, done) <==> Owner(files, h) {
      if f :| f in files && Owns(files[f], h) {
        OwnersOwn(files[f], h);
      }
      if h in OwnersIn(files, done) {
        var f :| f in done && f in files && h in Owners(files[f]);
        OwnersOwn(files[f], h);
      }
    }
  }
}
