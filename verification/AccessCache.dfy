/**
The client's cache of access rights (bundle/fs/nfs/dir.c): per inode a tree and a list of entries in order
of use, a list of the inodes that have any, and one counter with a limit.
*/
module AccessCache {
  import opened Common
  import opened Credentials
  import opened AccessTree

  type InodeId = nat

  /** The cache fields of struct nfs_inode; onList is NFS_INO_ACL_LRU_SET, invalid is NFS_INO_INVALID_ACCESS. */
  datatype Inode = Inode(tree: Tree, lru: seq<Entry>, onList: bool, invalid: bool)

  /** Tree and list hold the same entries; the inode is flagged as listed exactly when it has any. */
  ghost predicate Good(x: Inode) {
    && Ordered(x.tree) && Distinct(x.lru)
    && (forall e :: e in x.lru <==> e in Elems(x.tree))
    && (x.onList <==> x.lru != [])
  }

  // ------------------------------------------------------------ one inode

  /** nfs_access_add_rbtree: a new entry at the tail; one of the same credential makes room for it. */
  function Added(x: Inode, e: Entry, found: Option<Entry>): Inode {
    x.(tree := Put(x.tree, e),
       lru := (if found.Some? then Without(x.lru, found.value) else x.lru) + [e],
       onList := true)
  }

  /** list_move_tail of an entry just used. */
  function Used(x: Inode, e: Entry): Inode {
    x.(lru := Without(x.lru, e) + [e])
  }

  /** The scan takes the entry longest unused. */
  function Evicted(x: Inode): Inode
    requires x.lru != []
  {
    x.(tree := Erase(x.tree, x.lru[0].cred), lru := x.lru[1..], onList := |x.lru| > 1)
  }

  /** nfs_access_zap_cache: nothing at all for an inode that is not listed. */
  function Zapped(x: Inode): Inode {
    if x.onList then x.(tree := Leaf, lru := [], onList := false, invalid := false) else x
  }

  /** What Search answers. */
  ghost predicate Found(x: Inode, c: Cred, r: Option<Entry>) {
    match r
    case Some(e) => e in x.lru && e.cred == c
    case None => forall e :: e in x.lru ==> e.cred != c
  }

  lemma AddedGood(x: Inode, e: Entry, found: Option<Entry>)
    requires Good(x) && Found(x, e.cred, found) && e !in x.lru
    ensures var y := Added(x, e, found);
            Good(y) && forall f :: f in y.lru <==> f == e || (f in x.lru && f.cred != e.cred)
  {
    PutAdds(x.tree, e);
    var q := if found.Some? then Without(x.lru, found.value) else x.lru;
    RestOfClass(x, e.cred, found);
    GoodWith(Added(x, e, found), q, e, Others(Elems(x.tree), e.cred));
  }

  /** A list and a tree that agree still do with one entry more in both. */
  lemma GoodWith(y: Inode, q: seq<Entry>, e: Entry, s: set<Entry>)
    requires y.lru == q + [e] && y.onList && Ordered(y.tree) && Elems(y.tree) == s + {e}
    requires Distinct(q) && e !in q && forall f :: f in q <==> f in s
    ensures Good(y) && forall f :: f in y.lru <==> f == e || f in q
  {
    DistinctAppend(q, e);
  }

  /** Without the entry found, the list holds the entries of other credentials. */
  lemma RestOfClass(x: Inode, c: Cred, found: Option<Entry>)
    requires Good(x) && Found(x, c, found)
    ensures var q := if found.Some? then Without(x.lru, found.value) else x.lru;
            Distinct(q) && forall f :: f in q <==> f in x.lru && f.cred != c
  {
    if found.Some? {
      WithoutKeepsDistinct(x.lru, found.value);
      forall f | f in x.lru ensures f.cred == c <==> f == found.value {
        if f.cred == c {
          OnePerCred(x.tree, f, found.value);
        }
      }
    }
  }

  lemma UsedGood(x: Inode, e: Entry)
    requires Good(x) && e in x.lru
    ensures Good(Used(x, e)) && forall f :: f in Used(x, e).lru <==> f in x.lru
  {
    WithoutKeepsDistinct(x.lru, e);
    DistinctAppend(Without(x.lru, e), e);
  }

  lemma {:induction false} TailDistinct<T>(q: seq<T>)
    requires Distinct(q) && q != []
    ensures Distinct(q[1..]) && q[0] !in q[1..]
  {
    if |q| > 1 {
      TailDistinct(q[..|q| - 1]);
      assert q[1..][..|q| - 2] == q[..|q| - 1][1..];
      assert q[1..] == q[..|q| - 1][1..] + [q[|q| - 1]];
    }
  }

  lemma EvictedGood(x: Inode)
    requires Good(x) && x.lru != []
    ensures Good(Evicted(x)) && forall f :: f in Evicted(x).lru <==> f in x.lru && f != x.lru[0]
  {
    var v := x.lru[0];
    EraseRemoves(x.tree, v.cred);
    TailDistinct(x.lru);
    assert x.lru == [v] + x.lru[1..];
    forall f | f in x.lru ensures f.cred == v.cred <==> f == v {
      if f.cred == v.cred {
        OnePerCred(x.tree, f, v);
      }
    }
  }

  // ------------------------------------------------------------ looking up

  datatype Answer = Mask(mask: nat) | NoEntry | Child | Error(code: nat)

  /**
  What the rest of the client answers during one lookup: whether the attributes need a check, what the check
  returned, and whether it found the cached rights invalid.
  */
  datatype Outside = Outside(stale: bool, err: nat, invalidated: bool)

  /** What the locked lookup answers and leaves behind. */
  ghost predicate LockedAnswer(x: Inode, c: Cred, mayBlock: bool, o: Outside, r: Answer, y: Inode) {
    if x.invalid then r == NoEntry && y == Zapped(x)
    else if forall e :: e in x.lru ==> e.cred != c then r == NoEntry && y == x
    else if o.stale && !mayBlock then r == Child && y == x
    else if o.stale && o.err != 0 then r == Error(o.err) && y == x
    else if o.stale && o.invalidated then r == NoEntry && y == Zapped(x)
    else exists e :: e in x.lru && e.cred == c && r == Mask(e.mask) && y == Used(x, e)
  }

  /** nfs_access_get_cached_locked on one inode. */
  method Locked(x: Inode, c: Cred, mayBlock: bool, o: Outside) returns (r: Answer, y: Inode)
    requires Good(x)
    ensures LockedAnswer(x, c, mayBlock, o, r, y)
  {
    y := x;
    var retry, invalid := true, x.invalid;
    while true
      invariant y == x && Good(x) && (invalid <==> x.invalid || (!retry && o.invalidated))
      invariant !retry ==> !x.invalid && o.stale && mayBlock && o.err == 0 && exists e :: e in x.lru && e.cred == c
      decreases retry
    {
      if invalid {
        return NoEntry, Zapped(x);
      }
      var e := Search(x.tree, c);
      if e.None? {
        return NoEntry, x;
      }
      assert e.value in x.lru;
      if !o.stale || !retry {
        return Mask(e.value.mask), Used(x, e.value);
      }
      if !mayBlock {
        return Child, x;
      }
      if o.err != 0 {
        return Error(o.err), x;
      }
      retry, invalid := false, o.invalidated;
    }
  }

  /** nfs_access_get_cached_rcu: only the entry used last, without the lock. */
  method Lockless(x: Inode, c: Cred, o: Outside) returns (r: Answer)
    ensures r.Mask? <==> !x.invalid && x.lru != [] && x.lru[|x.lru| - 1].cred == c && !o.stale
    ensures r.Mask? ==> r.mask == x.lru[|x.lru| - 1].mask
    ensures r.Mask? || r.Child?
  {
    if x.invalid || x.lru == [] {
      return Child;
    }
    var e := x.lru[|x.lru| - 1];
    EqualIffSame(c, e.cred);
    var cmp := FsCmp(c, e.cred, false, false);
    if cmp != 0 || o.stale {
      return Child;
    }
    r := Mask(e.mask);
  }

  /** Moving the last entry to the tail changes nothing. */
  lemma UsedLast(x: Inode)
    requires Good(x) && x.lru != []
    ensures Used(x, x.lru[|x.lru| - 1]) == x
  {
    var q, e := x.lru[..|x.lru| - 1], x.lru[|x.lru| - 1];
    WithoutAbsent(q, e);
    assert q + [e] == x.lru;
  }

  lemma {:induction false} WithoutAbsent<T(!new)>(q: seq<T>, x: T)
    requires x !in q
    ensures Without(q, x) == q
  {
    if q != [] {
      WithoutAbsent(q[..|q| - 1], x);
    }
  }

  /** Whenever the lockless path answers, the locked one gives the same mask and leaves the inode as it is. */
  lemma LocklessRefinesLocked(x: Inode, c: Cred, mayBlock: bool, o: Outside)
    requires Good(x) && !x.invalid && x.lru != [] && x.lru[|x.lru| - 1].cred == c && !o.stale
    ensures LockedAnswer(x, c, mayBlock, o, Mask(x.lru[|x.lru| - 1].mask), x)
    ensures forall r, y :: LockedAnswer(x, c, mayBlock, o, r, y) ==> r == Mask(x.lru[|x.lru| - 1].mask) && y == x
  {
    var e := x.lru[|x.lru| - 1];
    UsedLast(x);
    forall f | f in x.lru && f.cred == c ensures f == e {
      OnePerCred(x.tree, f, e);
    }
  }

  /** nfs_access_get_cached: with or without the lock, the answer and the inode are those of the locked lookup. */
  method GetCached(x: Inode, c: Cred, mayBlock: bool, o: Outside) returns (r: Answer, y: Inode)
    requires Good(x)
    ensures LockedAnswer(x, c, mayBlock, o, r, y) && Good(y)
  {
    r := Lockless(x, c, o);
    if r.Mask? {
      LocklessRefinesLocked(x, c, mayBlock, o);
      return r, x;
    }
    r, y := Locked(x, c, mayBlock, o);
    AnswerGood(x, c, mayBlock, o, r, y);
  }

  lemma AnswerGood(x: Inode, c: Cred, mayBlock: bool, o: Outside, r: Answer, y: Inode)
    requires Good(x) && LockedAnswer(x, c, mayBlock, o, r, y)
    ensures Good(y)
  {
    if r.Mask? {
      var e :| e in x.lru && e.cred == c && r == Mask(e.mask) && y == Used(x, e);
      UsedGood(x, e);
    }
  }

  // ------------------------------------------------------------ all inodes

  /** All entries there are. */
  ghost function All(inodes: map<InodeId, Inode>): set<Entry> {
    set i, e | i in inodes && e in inodes[i].lru :: e
  }

  /** Entries are with the inode they were made for, and the next is a new one. */
  ghost predicate Apart(inodes: map<InodeId, Inode>, nextId: nat) {
    forall i, e :: i in inodes && e in inodes[i].lru ==> e.home == i && e.id < nextId
  }

  ghost predicate AllGood(inodes: map<InodeId, Inode>) {
    forall i :: i in inodes ==> Good(inodes[i])
  }

  /** The list holds the inodes that have entries, each once. */
  ghost predicate ListGood(inodes: map<InodeId, Inode>, list: seq<InodeId>) {
    Distinct(list) && forall i :: i in list <==> i in inodes && inodes[i].onList
  }

  lemma AllMember(inodes: map<InodeId, Inode>, e: Entry, nextId: nat)
    requires Apart(inodes, nextId)
    ensures e in All(inodes) <==> e.home in inodes && e in inodes[e.home].lru
  {
  }

  /** One entry less. */
  lemma AllLess(inodes: map<InodeId, Inode>, i: InodeId, x: Inode, v: Entry, nextId: nat)
    requires i in inodes && Apart(inodes, nextId) && v in inodes[i].lru
    requires forall f :: f in x.lru <==> f in inodes[i].lru && f != v
    ensures Apart(inodes[i := x], nextId) && All(inodes[i := x]) == All(inodes) - {v} && v in All(inodes)
  {
    forall e ensures e in All(inodes[i := x]) <==> e in All(inodes) - {v} {
      AllMember(inodes, e, nextId);
      AllMember(inodes[i := x], e, nextId);
    }
  }

  /** One entry more, in place of one perhaps. */
  lemma AllMore(inodes: map<InodeId, Inode>, i: InodeId, x: Inode, e: Entry, nextId: nat)
    requires i in inodes && Apart(inodes, nextId) && e.id == nextId && e.home == i
    requires forall f :: f in x.lru <==> f == e || (f in inodes[i].lru && f.cred != e.cred)
    ensures Apart(inodes[i := x], nextId + 1) && e !in All(inodes)
    ensures forall f :: f in All(inodes[i := x]) <==> f == e || (f in All(inodes) && !(f.home == i && f.cred == e.cred))
  {
    forall f ensures f in All(inodes[i := x]) <==> f == e || (f in All(inodes) && !(f.home == i && f.cred == e.cred)) {
      AllMember(inodes, f, nextId);
      AllMember(inodes[i := x], f, nextId + 1);
    }
    AllMember(inodes, e, nextId);
  }

  lemma AllMoreCount(inodes: map<InodeId, Inode>, i: InodeId, x: Inode, e: Entry, found: Option<Entry>, nextId: nat)
    requires i in inodes && Good(inodes[i]) && Apart(inodes, nextId) && e.id == nextId && e.home == i
    requires Found(inodes[i], e.cred, found)
    requires forall f :: f in x.lru <==> f == e || (f in inodes[i].lru && f.cred != e.cred)
    ensures |All(inodes[i := x])| == |All(inodes)| + (if found.Some? then 0 else 1)
  {
    AllMore(inodes, i, x, e, nextId);
    FoundIsClass(inodes, i, e.cred, found, nextId);
    Exchanged(All(inodes), All(inodes[i := x]), e, found);
  }

  lemma Exchanged(s: set<Entry>, t: set<Entry>, e: Entry, found: Option<Entry>)
    requires e !in s && (found.Some? ==> found.value in s)
    requires forall f :: f in t <==> f == e || (f in s && found != Some(f))
    ensures |t| == |s| + (if found.Some? then 0 else 1)
  {
    if found.Some? {
      assert t == s - {found.value} + {e};
    } else {
      assert t == s + {e};
    }
  }

  /** The entry found is the only one of the inode with that credential. */
  lemma FoundIsClass(inodes: map<InodeId, Inode>, i: InodeId, c: Cred, found: Option<Entry>, nextId: nat)
    requires i in inodes && Good(inodes[i]) && Apart(inodes, nextId) && Found(inodes[i], c, found)
    ensures found.Some? ==> found.value in All(inodes)
    ensures forall f :: f in All(inodes) ==> (found == Some(f) <==> f.home == i && f.cred == c)
  {
    forall f | f in All(inodes) ensures found == Some(f) <==> f.home == i && f.cred == c {
      AllMember(inodes, f, nextId);
      if f.home == i && f.cred == c && found.Some? {
        OnePerCred(inodes[i].tree, f, found.value);
      }
    }
    if found.Some? {
      AllMember(inodes, found.value, nextId);
    }
  }

  ghost predicate Sound(inodes: map<InodeId, Inode>, list: seq<InodeId>, nextId: nat) {
    AllGood(inodes) && ListGood(inodes, list) && Apart(inodes, nextId)
  }

  /** Nothing is listed exactly when nothing is cached. */
  lemma EmptyList(inodes: map<InodeId, Inode>, list: seq<InodeId>, nextId: nat)
    requires Sound(inodes, list, nextId)
    ensures list == [] <==> All(inodes) == {}
  {
    if list == [] {
      forall e ensures e !in All(inodes) {
        AllMember(inodes, e, nextId);
        assert e.home in list <==> e.home in inodes && inodes[e.home].onList;
      }
    } else {
      assert list[0] in list;
      AllMember(inodes, inodes[list[0]].lru[0], nextId);
    }
  }

  // ------------------------------------------------------------ the scan

  ghost predicate Listed(inodes: map<InodeId, Inode>, list: seq<InodeId>) {
    forall i :: i in list ==> i in inodes
  }

  function ScanInodes(inodes: map<InodeId, Inode>, list: seq<InodeId>): map<InodeId, Inode>
    requires list != [] && list[0] in inodes
  {
    var x := inodes[list[0]];
    inodes[list[0] := if x.lru == [] then x.(onList := false) else Evicted(x)]
  }

  /** An inode with entries left goes to the tail. */
  function ScanList(inodes: map<InodeId, Inode>, list: seq<InodeId>): seq<InodeId>
    requires list != [] && list[0] in inodes
  {
    if |inodes[list[0]].lru| > 1 then list[1..] + [list[0]] else list[1..]
  }

  /**
  What a scan of n leaves, and how many entries it took: each time the first inode loses its oldest entry. The walk
  ends early after an inode that was alone on the list.
  */
  function Scanned(inodes: map<InodeId, Inode>, list: seq<InodeId>, n: nat): (map<InodeId, Inode>, seq<InodeId>, nat)
    requires Listed(inodes, list)
    decreases n
  {
    if n == 0 || list == [] then (inodes, list, 0)
    else
      var k := if inodes[list[0]].lru == [] then 0 else 1;
      if |list| == 1 then (ScanInodes(inodes, list), ScanList(inodes, list), k)
      else
        var r := Scanned(ScanInodes(inodes, list), ScanList(inodes, list), n - 1);
        (r.0, r.1, r.2 + k)
  }

  lemma ScanStep(inodes: map<InodeId, Inode>, list: seq<InodeId>, nextId: nat)
    requires Sound(inodes, list, nextId) && list != []
    ensures list[0] in inodes && inodes[list[0]].lru != []
    ensures Sound(ScanInodes(inodes, list), ScanList(inodes, list), nextId)
    ensures var v := inodes[list[0]].lru[0]; v in All(inodes) && All(ScanInodes(inodes, list)) == All(inodes) - {v}
  {
    var i := list[0];
    assert i in list;
    EvictedGood(inodes[i]);
    AllLess(inodes, i, Evicted(inodes[i]), inodes[i].lru[0], nextId);
    TailDistinct(list);
    DistinctAppend(list[1..], i);
    assert list == [i] + list[1..];
  }

  /** Everything is in order still, and some of the entries are gone. */
  ghost predicate Shrunk(inodes: map<InodeId, Inode>, nextId: nat, inodes': map<InodeId, Inode>, list': seq<InodeId>,
                         freed: nat) {
    Sound(inodes', list', nextId) && All(inodes') <= All(inodes) && |All(inodes')| == |All(inodes)| - freed
  }

  /** One step of the scan, and then the rest. */
  lemma ShrunkMore(inodes: map<InodeId, Inode>, list: seq<InodeId>, nextId: nat, inodes': map<InodeId, Inode>,
                   list': seq<InodeId>, freed: nat)
    requires Sound(inodes, list, nextId) && list != [] && list[0] in inodes
    requires Shrunk(ScanInodes(inodes, list), nextId, inodes', list', freed)
    ensures Shrunk(inodes, nextId, inodes', list', freed + 1)
  {
    ScanStep(inodes, list, nextId);
  }

  /** A scan keeps everything in order; it takes at most n entries, and one at least if there is any. */
  lemma {:induction false} ScannedSound(inodes: map<InodeId, Inode>, list: seq<InodeId>, nextId: nat, n: nat)
    requires Sound(inodes, list, nextId)
    ensures Listed(inodes, list)
    ensures var r := Scanned(inodes, list, n);
            Shrunk(inodes, nextId, r.0, r.1, r.2) && r.2 <= n && (n > 0 && list != [] ==> r.2 > 0)
    decreases n
  {
    if n > 0 && list != [] {
      ScanStep(inodes, list, nextId);
      var inodes1, list1 := ScanInodes(inodes, list), ScanList(inodes, list);
      if |list| > 1 {
        ScannedSound(inodes1, list1, nextId, n - 1);
        var r := Scanned(inodes1, list1, n - 1);
        ShrunkMore(inodes, list, nextId, r.0, r.1, r.2);
      } else {
        ShrunkMore(inodes, list, nextId, inodes1, list1, 0);
      }
    }
  }

  /** The inodes whose cached rights count. */
  ghost function Trusted(inodes: map<InodeId, Inode>): set<InodeId> {
    set i | i in inodes && !inodes[i].invalid
  }

  ghost predicate SameMarks(inodes: map<InodeId, Inode>, inodes': map<InodeId, Inode>) {
    inodes'.Keys == inodes.Keys && Trusted(inodes') == Trusted(inodes)
  }

  lemma PlacedMarks(inodes: map<InodeId, Inode>, i: InodeId, x: Inode)
    requires i in inodes && x.invalid == inodes[i].invalid
    ensures SameMarks(inodes, inodes[i := x])
  {
  }

  lemma {:induction false} ScannedMarks(inodes: map<InodeId, Inode>, list: seq<InodeId>, n: nat)
    requires Listed(inodes, list)
    ensures SameMarks(inodes, Scanned(inodes, list, n).0)
    decreases n
  {
    if n > 0 && |list| > 1 {
      ScannedMarks(ScanInodes(inodes, list), ScanList(inodes, list), n - 1);
    }
  }

  class Cache {
    var inodes: map<InodeId, Inode>
    /** nfs_access_lru_list. */
    var list: seq<InodeId>
    /** nfs_access_nr_entries. */
    var nr: int
    var nextId: nat
    /** nfs_access_max_cachesize. */
    const max: nat

    ghost predicate Valid()
      reads this
    {
      Sound(inodes, list, nextId) && nr == |All(inodes)|
    }

    constructor (max: nat, files: set<InodeId>)
      ensures Valid() && nr == 0 && inodes.Keys == files
    {
      inodes, list, nr, nextId, this.max := map i | i in files :: Inode(Leaf, [], false, false), [], 0, 0, max;
    }

    /** nfs_do_access_cache_scan. */
    method Scan(n: nat) returns (freed: nat)
      requires Valid()
      modifies `inodes, `list, `nr
      ensures Valid() && Listed(old(inodes), old(list)) && (inodes, list, freed) == Scanned(old(inodes), old(list), n)
      ensures nr == old(nr) - freed && SameMarks(old(inodes), inodes)
    {
      ScannedSound(inodes, list, nextId, n);
      ScannedMarks(inodes, list, n);
      freed := ScanLoop(n);
      nr := nr - freed;
    }

    /** The walk over the list of inodes. */
    method ScanLoop(n: nat) returns (freed: nat)
      requires Listed(inodes, list)
      modifies `inodes, `list
      ensures (inodes, list, freed) == old(Scanned(inodes, list, n))
    {
      freed := 0;
      var left := n;
      while list != []
        invariant Listed(inodes, list)
        invariant var r := Scanned(inodes, list, left); old(Scanned(inodes, list, n)) == (r.0, r.1, r.2 + freed)
        decreases left
      {
        if left == 0 {
          break;
        }
        var i, alone, next := list[0], |list| == 1, ScanList(inodes, list);
        var x := inodes[i];
        if x.lru == [] {
          inodes := inodes[i := x.(onList := false)];
        } else {
          inodes := inodes[i := Evicted(x)];
          freed := freed + 1;
        }
        list := next;
        if alone {
          break;
        }
        left := left - 1;
      }
    }

    /** nfs_access_cache_enforce_limit. */
    method EnforceLimit()
      requires Valid()
      modifies `inodes, `list, `nr
      ensures Valid() && SameMarks(old(inodes), inodes)
      ensures old(nr) <= max ==> inodes == old(inodes) && list == old(list) && nr == old(nr)
      ensures Listed(old(inodes), old(list))
      ensures old(nr) > max ==> (inodes, list, old(nr) - nr) == Scanned(old(inodes), old(list), Excess(old(nr), max))
      ensures old(nr) <= max + 1 ==> nr <= max
    {
      ScannedSound(inodes, list, nextId, 0);
      if nr < 0 || nr <= max {
        return;
      }
      EmptyList(inodes, list, nextId);
      ScannedSound(inodes, list, nextId, Excess(nr, max));
      var freed := Scan(Excess(nr, max));
    }

    /** The first half of nfs_access_add_cache: tree, lists and counter. */
    method Insert(e: Entry) returns (ghost found: Option<Entry>)
      requires Valid() && e.home in inodes && e.id == nextId
      modifies `inodes, `list, `nr, `nextId
      ensures Valid() && nextId == old(nextId) + 1 && nr == old(nr) + if found.Some? then 0 else 1
      ensures Found(old(inodes)[e.home], e.cred, found) && Grown(old(inodes), inodes, e, found)
      ensures inodes == InodesWith(old(inodes), e, found) && list == ListWith(old(inodes), old(list), e.home)
    {
      var r := Search(inodes[e.home].tree, e.cred);
      found := r;
      InsertSound(inodes, list, nextId, e, r);
      InsertGrows(inodes, nextId, e, r);
      Place(e, r);
    }

    /** The fields take on their new values. */
    method Place(e: Entry, found: Option<Entry>)
      requires e.home in inodes
      modifies `inodes, `list, `nr, `nextId
      ensures inodes == InodesWith(old(inodes), e, found) && list == ListWith(old(inodes), old(list), e.home)
      ensures nr == old(nr) + (if found.Some? then 0 else 1) && nextId == old(nextId) + 1
    {
      var x := inodes[e.home];
      inodes := inodes[e.home := Added(x, e, found)];
      if found.Some? {
        nr := nr - 1;
      }
      nr := nr + 1;
      if !x.onList {
        list := list + [e.home];
      }
      nextId := nextId + 1;
    }

    /**
    nfs_access_add_cache. The counter does not pass the limit; below it nothing is lost but the entry replaced; at it
    the new entry stays unless the limit is zero.
    */
    method Add(i: InodeId, c: Cred, mask: nat, memory: bool) returns (done: bool)
      requires Valid() && i in inodes
      modifies `inodes, `list, `nr, `nextId
      ensures Valid() && SameMarks(old(inodes), inodes) && done == memory
      ensures !done ==> inodes == old(inodes) && list == old(list) && nr == old(nr)
      ensures done ==> forall f :: f in All(inodes) ==>
                f == Entry(i, old(nextId), c, mask) || (f in old(All(inodes)) && !(f.home == i && f.cred == c))
      ensures done && old(nr) < max ==> forall f :: f in All(inodes) <==>
                f == Entry(i, old(nextId), c, mask) || (f in old(All(inodes)) && !(f.home == i && f.cred == c))
      ensures old(nr) <= max ==> nr <= max
      ensures done && old(nr) <= max ==> (Entry(i, old(nextId), c, mask) in All(inodes) <==> max > 0)
    {
      done := memory;
      if !done {
        return;
      }
      EmptyList(inodes, list, nextId);
      var e := Entry(i, nextId, c, mask);
      var found := Insert(e);
      if nr == max + 1 && old(nr) <= max && max > 0 {
        NewestIsNotFirst(old(inodes), old(list), old(nextId), inodes, list, i, e, found);
        ScanForOne(inodes, list, nextId);
      }
      if nr > max {
        ScannedSound(inodes, list, nextId, Excess(nr, max));
      }
      EnforceLimit();
    }

    /** nfs_access_zap_cache: first off the list, then every entry out of the tree, then the counter. */
    method Zap(i: InodeId)
      requires Valid() && i in inodes
      modifies `inodes, `list, `nr
      ensures Valid() && inodes == old(inodes)[i := Zapped(old(inodes)[i])] && list == Without(old(list), i)
      ensures nr == old(nr) - |old(inodes)[i].lru|
    {
      if !inodes[i].onList {
        WithoutAbsent(list, i);
        assert inodes == inodes[i := Zapped(inodes[i])];
        return;
      }
      ZapSound(inodes, list, nextId, i);
      list := Without(list, i);
      var freed := Empty(i);
      nr := nr - freed;
    }

    /** nfs_set_cache_invalid: the cached rights of an inode no longer count. */
    method Invalidate(i: InodeId)
      requires Valid() && i in inodes
      modifies `inodes
      ensures Valid() && inodes == old(inodes)[i := old(inodes)[i].(invalid := true)]
    {
      SameMembers(inodes, i, inodes[i].(invalid := true));
      inodes := inodes[i := inodes[i].(invalid := true)];
    }

    /** __nfs_access_zap_cache, after the flag is cleared: the tree is emptied from its first node on. */
    method Empty(i: InodeId) returns (freed: nat)
      requires i in inodes && Good(inodes[i]) && inodes[i].onList && Apart(inodes, nextId)
      modifies `inodes
      ensures inodes == old(inodes)[i := Zapped(old(inodes)[i])] && freed == old(|inodes[i].lru|)
      ensures |All(inodes)| == old(|All(inodes)|) - freed
    {
      var x := inodes[i];
      freed := 0;
      assert inodes == inodes[i := x];
      while x.tree.Node?
        invariant inodes == old(inodes)[i := x] && x == old(inodes)[i].(tree := x.tree, lru := x.lru)
        invariant Ordered(x.tree) && Distinct(x.lru) && (forall e :: e in x.lru <==> e in Elems(x.tree))
        invariant Apart(inodes, nextId)
        invariant |All(inodes)| == old(|All(inodes)|) - freed && |x.lru| == old(|inodes[i].lru|) - freed
        decreases |x.lru|
      {
        var e := Least(x.tree);
        LeastIsLeast(x.tree);
        WithoutKeepsDistinct(x.lru, e);
        WithoutShrinks(x.lru, e);
        AllLess(inodes, i, x.(tree := EraseLeast(x.tree), lru := Without(x.lru, e)), e, nextId);
        x := x.(tree := EraseLeast(x.tree), lru := Without(x.lru, e));
        inodes := inodes[i := x];
        freed := freed + 1;
      }
      EmptyIff(x.lru);
      SameMembers(inodes, i, x.(onList := false, invalid := false));
      inodes := inodes[i := x.(onList := false, invalid := false)];
    }

    /** nfs_access_get_cached on an inode of the cache. */
    method Get(i: InodeId, c: Cred, mayBlock: bool, o: Outside) returns (r: Answer)
      requires Valid() && i in inodes
      modifies `inodes, `list, `nr
      ensures Valid() && i in inodes && inodes == old(inodes)[i := inodes[i]]
      ensures LockedAnswer(old(inodes)[i], c, mayBlock, o, r, inodes[i])
      ensures nr <= old(nr) && (r.Mask? ==> list == old(list) && nr == old(nr))
    {
      var y;
      r, y := GetCached(inodes[i], c, mayBlock, o);
      Become(i, y, r.Mask?);
    }

    /** The inode takes on its new state: an entry used, everything zapped, or nothing changed. */
    method Become(i: InodeId, y: Inode, used: bool)
      requires Valid() && i in inodes
      requires if used then exists e ::
                 e in inodes[i].lru && y == Used(inodes[i], e) else y == inodes[i] || y == Zapped(inodes[i])
      modifies `inodes, `list, `nr
      ensures Valid() && inodes == old(inodes)[i := y] && nr <= old(nr)
      ensures used ==> list == old(list) && nr == old(nr)
    {
      if used {
        ghost var e :| e in inodes[i].lru && y == Used(inodes[i], e);
        UseSound(inodes, list, nextId, i, e);
        inodes := inodes[i := y];
      } else if y == inodes[i] {
        assert inodes == inodes[i := y];
      } else {
        Zap(i);
      }
    }
  }

  lemma EmptyIff(q: seq<Entry>)
    ensures q == [] <==> forall e :: e !in q
  {
    if q != [] {
      assert q[0] in q;
    }
  }

  lemma {:induction false} WithoutShrinks<T(!new)>(q: seq<T>, x: T)
    requires Distinct(q) && x in q
    ensures |Without(q, x)| == |q| - 1
  {
    if q[|q| - 1] == x {
      WithoutAbsent(q[..|q| - 1], x);
    } else {
      WithoutShrinks(q[..|q| - 1], x);
    }
  }

  lemma ZapSound(inodes: map<InodeId, Inode>, list: seq<InodeId>, nextId: nat, i: InodeId)
    requires Sound(inodes, list, nextId) && i in inodes && inodes[i].onList
    ensures Sound(inodes[i := Zapped(inodes[i])], Without(list, i), nextId)
  {
    WithoutKeepsDistinct(list, i);
  }

  lemma UseSound(inodes: map<InodeId, Inode>, list: seq<InodeId>, nextId: nat, i: InodeId, e: Entry)
    requires Sound(inodes, list, nextId) && i in inodes && e in inodes[i].lru
    ensures var inodes' := inodes[i := Used(inodes[i], e)]; Sound(inodes', list, nextId) && All(inodes') == All(inodes)
  {
    var x := Used(inodes[i], e);
    UsedGood(inodes[i], e);
    SameMembers(inodes, i, x);
  }

  /** The order of an inode's entries has no part in what is cached. */
  lemma SameMembers(inodes: map<InodeId, Inode>, i: InodeId, x: Inode)
    requires i in inodes && forall e :: e in x.lru <==> e in inodes[i].lru
    ensures All(inodes[i := x]) == All(inodes)
  {
    var inodes' := inodes[i := x];
    forall f ensures f in All(inodes') <==> f in All(inodes) {
      if j :| j in inodes && f in inodes[j].lru {
        assert f in inodes'[j].lru;
      }
      if j :| j in inodes' && f in inodes'[j].lru {
        assert f in inodes[j].lru;
      }
    }
  }

  function InodesWith(inodes: map<InodeId, Inode>, e: Entry, found: Option<Entry>): map<InodeId, Inode>
    requires e.home in inodes
  {
    inodes[e.home := Added(inodes[e.home], e, found)]
  }

  /** An inode with its first entry goes to the tail. */
  function ListWith(inodes: map<InodeId, Inode>, list: seq<InodeId>, i: InodeId): seq<InodeId>
    requires i in inodes
  {
    if inodes[i].onList then list else list + [i]
  }

  /** With a new entry e: everything is in order, and one of the same credential has gone. */
  ghost predicate Grown(inodes: map<InodeId, Inode>, inodes': map<InodeId, Inode>, e: Entry, found: Option<Entry>) {
    && SameMarks(inodes, inodes')
    && |All(inodes')| == |All(inodes)| + (if found.Some? then 0 else 1)
    && forall f :: f in All(inodes') <==> f == e || (f in All(inodes) && !(f.home == e.home && f.cred == e.cred))
  }

  lemma InsertSound(inodes: map<InodeId, Inode>, list: seq<InodeId>, nextId: nat, e: Entry, found: Option<Entry>)
    requires Sound(inodes, list, nextId) && e.home in inodes && e.id == nextId && Found(inodes[e.home], e.cred, found)
    ensures Sound(InodesWith(inodes, e, found), ListWith(inodes, list, e.home), nextId + 1)
  {
    var x := Added(inodes[e.home], e, found);
    AddedApart(inodes, nextId, e, found);
    InsertLists(inodes, list, e.home, x);
  }

  /** The inode is in order, and what it has gained is e. */
  lemma AddedApart(inodes: map<InodeId, Inode>, nextId: nat, e: Entry, found: Option<Entry>)
    requires Apart(inodes, nextId) && e.home in inodes && e.id == nextId
    requires Good(inodes[e.home]) && Found(inodes[e.home], e.cred, found)
    ensures Good(Added(inodes[e.home], e, found)) && Apart(InodesWith(inodes, e, found), nextId + 1)
    ensures forall f :: f in Added(inodes[e.home], e, found).lru <==>
              f == e || (f in inodes[e.home].lru && f.cred != e.cred)
  {
    NewEntry(inodes, nextId, e);
    AddedGood(inodes[e.home], e, found);
    AllMore(inodes, e.home, Added(inodes[e.home], e, found), e, nextId);
  }

  lemma NewEntry(inodes: map<InodeId, Inode>, nextId: nat, e: Entry)
    requires Apart(inodes, nextId) && e.home in inodes && e.id == nextId
    ensures e !in inodes[e.home].lru
  {
  }

  lemma InsertGrows(inodes: map<InodeId, Inode>, nextId: nat, e: Entry, found: Option<Entry>)
    requires Apart(inodes, nextId) && e.home in inodes && e.id == nextId
    requires Good(inodes[e.home]) && Found(inodes[e.home], e.cred, found)
    ensures Grown(inodes, InodesWith(inodes, e, found), e, found)
  {
    var x := Added(inodes[e.home], e, found);
    AddedApart(inodes, nextId, e, found);
    AllMore(inodes, e.home, x, e, nextId);
    AllMoreCount(inodes, e.home, x, e, found, nextId);
    PlacedMarks(inodes, e.home, x);
  }

  lemma InsertLists(inodes: map<InodeId, Inode>, list: seq<InodeId>, i: InodeId, x: Inode)
    requires ListGood(inodes, list) && i in inodes && x.onList
    ensures ListGood(inodes[i := x], ListWith(inodes, list, i))
  {
    if !inodes[i].onList {
      DistinctAppend(list, i);
    }
  }

  /** A scan for one entry takes the oldest of the first inode. */
  lemma ScanForOne(inodes: map<InodeId, Inode>, list: seq<InodeId>, nextId: nat)
    requires Sound(inodes, list, nextId) && list != []
    ensures Listed(inodes, list) && list[0] in inodes && inodes[list[0]].lru != []
    ensures All(Scanned(inodes, list, 1).0) == All(inodes) - {inodes[list[0]].lru[0]}
  {
    ScanStep(inodes, list, nextId);
    var inodes1, list1 := ScanInodes(inodes, list), ScanList(inodes, list);
    assert Scanned(inodes, list, 1).0 == inodes1;
  }

  /** A new entry added beside others is not the next to go. */
  lemma NewestIsNotFirst(inodes: map<InodeId, Inode>, list: seq<InodeId>, nextId: nat, inodes': map<InodeId, Inode>,
                         list': seq<InodeId>,
                         i: InodeId, e: Entry, found: Option<Entry>)
    requires Sound(inodes, list, nextId) && i in inodes && All(inodes) != {} && e.home == i && e.id == nextId
    requires found == None && inodes' == InodesWith(inodes, e, found) && list' == ListWith(inodes, list, i)
    ensures list' != [] && list'[0] in inodes' && inodes'[list'[0]].lru != [] && inodes'[list'[0]].lru[0] != e
  {
    EmptyList(inodes, list, nextId);
    assert list[0] in list && list'[0] == list[0];
    assert inodes[list[0]].lru[0].id < nextId;
  }

  /** How many to scan for: those above the limit, a hundred at most. */
  function Excess(nr: int, max: nat): nat
    requires nr > max
  {
    if nr - max < 100 then nr - max else 100
  }
}
