/**
Whole runs of the cache of access rights (bundle/fs/nfs/dir.c), against the plain record of what was last learned
about each inode and credential.
*/
module AccessRuns {
  import opened Common
  import opened Credentials
  import opened AccessTree
  import opened AccessCache

  /** A call on the cache. */
  datatype Use =
    | Adding(i: InodeId, c: Cred, mask: nat, memory: bool)
    | Asking(i: InodeId, c: Cred, mayBlock: bool, o: Outside)
    | Zapping(i: InodeId)
    | Invalidating(i: InodeId)
    | Scanning(n: nat)

  /** A lookup has an answer. */
  datatype Reply = Answered(answer: Answer) | Silent

  /** The rights last learned; a cache may know less. */
  type Record = map<(InodeId, Cred), nat>

  function Learned(known: Record, op: Use): Record {
    if op.Adding? && op.memory then known[(op.i, op.c) := op.mask]
    else if op.Zapping? || op.Invalidating? then map k | k in known && k.0 != op.i :: known[k]
    else known
  }

  /** The record after a run. */
  function Known(known: Record, ops: seq<Use>): Record {
    if ops == [] then known else Learned(Known(known, ops[..|ops| - 1]), ops[|ops| - 1])
  }

  /** The call has a say on the rights of credential c to inode i. */
  predicate Decides(op: Use, i: InodeId, c: Cred) {
    || (op.Adding? && op.i == i && op.c == c && op.memory)
    || ((op.Zapping? || op.Invalidating?) && op.i == i)
  }

  ghost predicate Undecided(ops: seq<Use>, from: nat, i: InodeId, c: Cred) {
    forall k :: from <= k < |ops| ==> !Decides(ops[k], i, c)
  }

  /** Call k added mask m, and no later one has a say. */
  ghost predicate LastWord(ops: seq<Use>, k: int, i: InodeId, c: Cred, m: nat) {
    0 <= k < |ops| && ops[k] == Adding(i, c, m, true) && Undecided(ops, k + 1, i, c)
  }

  ghost predicate Has(known: Record, i: InodeId, c: Cred, m: nat) {
    (i, c) in known && known[(i, c)] == m
  }

  /** A mask is on record exactly when it was added last, or known at first and never touched. */
  lemma {:induction false} OnRecordIff(known: Record, ops: seq<Use>, i: InodeId, c: Cred, m: nat)
    ensures Has(Known(known, ops), i, c, m) <==>
              (exists k :: LastWord(ops, k, i, c, m)) || (Has(known, i, c, m) && Undecided(ops, 0, i, c))
  {
    if ops != [] {
      var n := |ops| - 1;
      var ops1 := ops[..n];
      OnRecordIff(known, ops1, i, c, m);
      if Decides(ops[n], i, c) {
        assert forall k :: LastWord(ops, k, i, c, m) ==> k == n;
        assert LastWord(ops, n, i, c, m) <==> ops[n] == Adding(i, c, m, true);
      } else {
        assert Has(Known(known, ops), i, c, m) <==> Has(Known(known, ops1), i, c, m);
        forall k ensures LastWord(ops, k, i, c, m) <==> LastWord(ops1, k, i, c, m) {
          EarlierWord(ops, k, i, c, m);
        }
      }
    }
  }

  /** A last call that has no say leaves the last word where it was. */
  lemma EarlierWord(ops: seq<Use>, k: int, i: InodeId, c: Cred, m: nat)
    requires |ops| > 0 && !Decides(ops[|ops| - 1], i, c)
    ensures LastWord(ops, k, i, c, m) <==> LastWord(ops[..|ops| - 1], k, i, c, m)
  {
  }

  /** If its entries count, they have the rights on record. */
  ghost predicate Honest(i: InodeId, x: Inode, known: Record) {
    x.invalid || forall e :: e in x.lru ==> Has(known, i, e.cred, e.mask)
  }

  ghost predicate Agrees(inodes: map<InodeId, Inode>, known: Record) {
    forall i :: i in inodes ==> Honest(i, inodes[i], known)
  }

  /** Every lookup is answered, and a mask given is the one on record. */
  ghost predicate Truthful(known: Record, op: Use, r: Reply) {
    && (op.Asking? <==> r.Answered?)
    && (op.Asking? && r.answer.Mask? ==> Has(known, op.i, op.c, r.answer.mask))
  }

  /** One entry more, and perhaps some less, agree with the record that has learned of it. */
  lemma AddedAgrees(inodes: map<InodeId, Inode>, inodes': map<InodeId, Inode>, nextId: nat, known: Record, op: Use)
    requires op.Adding? && op.memory && Agrees(inodes, known) && SameMarks(inodes, inodes') && Apart(inodes, nextId)
    requires Apart(inodes', nextId + 1)
    requires forall f :: f in All(inodes') ==>
               f == Entry(op.i, nextId, op.c, op.mask) || (f in All(inodes) && !(f.home == op.i && f.cred == op.c))
    ensures Agrees(inodes', Learned(known, op))
  {
    var known' := Learned(known, op);
    forall i | i in inodes' ensures Honest(i, inodes'[i], known') {
      assert i in Trusted(inodes') <==> i in Trusted(inodes);
      forall e | e in inodes'[i].lru && !inodes'[i].invalid
        ensures Has(known', i, e.cred, e.mask)
      {
        AllMember(inodes', e, nextId + 1);
        AllMember(inodes, e, nextId);
      }
    }
  }

  /** Eviction takes away nothing but entries. */
  lemma FewerAgree(inodes: map<InodeId, Inode>, inodes': map<InodeId, Inode>, nextId: nat, known: Record)
    requires Agrees(inodes, known) && SameMarks(inodes, inodes') && Apart(inodes, nextId) && Apart(inodes', nextId)
    requires All(inodes') <= All(inodes)
    ensures Agrees(inodes', known)
  {
    forall i | i in inodes' ensures Honest(i, inodes'[i], known) {
      assert i in Trusted(inodes') <==> i in Trusted(inodes);
      forall e | e in inodes'[i].lru && !inodes'[i].invalid
        ensures Has(known, i, e.cred, e.mask)
      {
        AllMember(inodes', e, nextId);
        AllMember(inodes, e, nextId);
      }
    }
  }

  /** An answer is on record, and so is what the lookup leaves. */
  lemma LookupHonest(x: Inode, known: Record, op: Use, r: Answer, y: Inode)
    requires op.Asking? && Good(x) && Honest(op.i, x, known) && LockedAnswer(x, op.c, op.mayBlock, op.o, r, y)
    ensures Honest(op.i, y, known) && Truthful(known, op, Answered(r))
  {
    if r.Mask? {
      var e :| e in x.lru && e.cred == op.c && r == Mask(e.mask) && y == Used(x, e);
      UsedGood(x, e);
    }
  }

  lemma LookupAgrees(inodes: map<InodeId, Inode>, inodes': map<InodeId, Inode>, known: Record, op: Use, r: Answer)
    requires op.Asking? && op.i in inodes && Good(inodes[op.i]) && Agrees(inodes, known)
    requires op.i in inodes' && inodes' == inodes[op.i := inodes'[op.i]]
    requires LockedAnswer(inodes[op.i], op.c, op.mayBlock, op.o, r, inodes'[op.i])
    ensures inodes'.Keys == inodes.Keys && Agrees(inodes', Learned(known, op))
    ensures Truthful(known, op, Answered(r))
  {
    LookupHonest(inodes[op.i], known, op, r, inodes'[op.i]);
  }

  /** An inode that is zapped or marked has nothing that counts. */
  lemma ForgottenAgrees(inodes: map<InodeId, Inode>, x: Inode, known: Record, op: Use)
    requires (op.Zapping? || op.Invalidating?) && op.i in inodes && Agrees(inodes, known) && (x.invalid || x.lru == [])
    ensures Agrees(inodes[op.i := x], Learned(known, op))
  {
  }

  /** After a call: everything is in order, the limit kept, and record and answers agree. */
  twostate predicate Served(cache: Cache, known: Record, op: Use, r: Reply)
    reads cache
  {
    && cache.Valid() && cache.inodes.Keys == old(cache.inodes.Keys)
    && (old(cache.nr) <= cache.max ==> cache.nr <= cache.max)
    && Agrees(cache.inodes, Learned(known, op)) && Truthful(known, op, r)
  }

  /** nfs_access_add_cache. */
  method Add(cache: Cache, op: Use, ghost known: Record) returns (r: Reply)
    requires cache.Valid() && Agrees(cache.inodes, known) && op.Adding? && op.i in cache.inodes
    modifies cache
    ensures Served(cache, known, op, r)
  {
    var done := cache.Add(op.i, op.c, op.mask, op.memory);
    r := Silent;
    if done {
      AddedAgrees(old(cache.inodes), cache.inodes, old(cache.nextId), known, op);
    }
  }

  /** nfs_access_get_cached. */
  method Ask(cache: Cache, op: Use, ghost known: Record) returns (r: Reply)
    requires cache.Valid() && Agrees(cache.inodes, known) && op.Asking? && op.i in cache.inodes
    modifies cache
    ensures Served(cache, known, op, r)
  {
    var answer := cache.Get(op.i, op.c, op.mayBlock, op.o);
    r := Answered(answer);
    LookupAgrees(old(cache.inodes), cache.inodes, known, op, answer);
  }

  /** nfs_access_zap_cache, or nfs_set_cache_invalid. */
  method Forget(cache: Cache, op: Use, ghost known: Record) returns (r: Reply)
    requires cache.Valid() && Agrees(cache.inodes, known) && (op.Zapping? || op.Invalidating?) && op.i in cache.inodes
    modifies cache
    ensures Served(cache, known, op, r)
  {
    if op.Zapping? {
      cache.Zap(op.i);
    } else {
      cache.Invalidate(op.i);
    }
    r := Silent;
    ForgottenAgrees(old(cache.inodes), cache.inodes[op.i], known, op);
  }

  /** nfs_do_access_cache_scan. */
  method Scan(cache: Cache, op: Use, ghost known: Record) returns (r: Reply)
    requires cache.Valid() && Agrees(cache.inodes, known) && op.Scanning?
    modifies cache
    ensures Served(cache, known, op, r)
  {
    ScannedSound(cache.inodes, cache.list, cache.nextId, op.n);
    var freed := cache.Scan(op.n);
    r := Silent;
    FewerAgree(old(cache.inodes), cache.inodes, cache.nextId, known);
  }

  /** Any one call. */
  method Step(cache: Cache, op: Use, ghost known: Record) returns (r: Reply)
    requires cache.Valid() && Agrees(cache.inodes, known) && (op.Scanning? || op.i in cache.inodes)
    modifies cache
    ensures Served(cache, known, op, r)
  {
    match op
    case Adding(_, _, _, _) => r := Add(cache, op, known);
    case Asking(_, _, _, _) => r := Ask(cache, op, known);
    case Scanning(_) => r := Scan(cache, op, known);
    case _ => r := Forget(cache, op, known);
  }

  /** Every answer fits the record as it was at the time. */
  ghost predicate AllTruthful(known: Record, ops: seq<Use>, rs: seq<Reply>) {
    |rs| == |ops| && forall k :: 0 <= k < |ops| ==> Truthful(Known(known, ops[..k]), ops[k], rs[k])
  }

  lemma TruthfulMore(known: Record, ops: seq<Use>, k: nat, rs: seq<Reply>, r: Reply)
    requires k < |ops| && AllTruthful(known, ops[..k], rs) && Truthful(Known(known, ops[..k]), ops[k], r)
    ensures Known(known, ops[..k + 1]) == Learned(Known(known, ops[..k]), ops[k])
    ensures AllTruthful(known, ops[..k + 1], rs + [r])
  {
    assert ops[..k + 1][..k] == ops[..k];
    forall j | 0 <= j < k + 1 ensures Truthful(Known(known, ops[..k + 1][..j]), ops[..k + 1][j], (rs + [r])[j]) {
      assert ops[..k + 1][..j] == ops[..j];
      if j < k {
        assert ops[..k][..j] == ops[..j];
      }
    }
  }

  /**
  Any run of calls on a cache that agrees with what is known at first, as an empty one does: every mask it gives is the
  one last learned for that inode and credential, with no zap and no invalidation since; and the counter stays in its
  limit.
  */
  method Run(cache: Cache, ops: seq<Use>, ghost known: Record) returns (rs: seq<Reply>)
    requires cache.Valid() && Agrees(cache.inodes, known)
    requires forall k :: 0 <= k < |ops| ==> ops[k].Scanning? || ops[k].i in cache.inodes
    modifies cache
    ensures cache.Valid() && (old(cache.nr) <= cache.max ==> cache.nr <= cache.max) && |rs| == |ops|
    ensures Agrees(cache.inodes, Known(known, ops))
    ensures AllTruthful(known, ops, rs)
  {
    rs := [];
    assert ops[..0] == [];
    for k := 0 to |ops|
      invariant cache.Valid() && (old(cache.nr) <= cache.max ==> cache.nr <= cache.max) && |rs| == k
      invariant cache.inodes.Keys == old(cache.inodes.Keys) && Agrees(cache.inodes, Known(known, ops[..k]))
      invariant AllTruthful(known, ops[..k], rs)
    {
      var r := Step(cache, ops[k], Known(known, ops[..k]));
      TruthfulMore(known, ops, k, rs, r);
      rs := rs + [r];
    }
    assert ops[..|ops|] == ops;
  }

  /** What has just been added to an inode whose rights count is found, unless the limit is zero. */
  method AddThenAsk(cache: Cache, i: InodeId, c: Cred, mask: nat, mayBlock: bool, o: Outside) returns (r: Answer)
    requires cache.Valid() && i in cache.inodes && !cache.inodes[i].invalid && cache.nr <= cache.max && cache.max > 0
    requires !o.stale
    modifies cache
    ensures cache.Valid() && r == Mask(mask)
  {
    ghost var e := Entry(i, cache.nextId, c, mask);
    assert i in Trusted(cache.inodes);
    var done := cache.Add(i, c, mask, true);
    assert i in Trusted(cache.inodes);
    AllMember(cache.inodes, e, cache.nextId);
    ghost var x := cache.inodes[i];
    r := cache.Get(i, c, mayBlock, o);
    ghost var f :| f in x.lru && f.cred == c && r == Mask(f.mask);
    OnePerCred(x.tree, e, f);
  }
}
