/** Accounting of direct I/O completions (nfs_direct_count_bytes in bundle/fs/nfs/direct.c). */
module DirectIo {
  import opened Common

  /** A completed struct nfs_pgio_header: where it starts, how much of it is good, its flags and its error. */
  datatype Header = Header(start: nat, length: nat, good: nat, failed: bool, eof: bool, error: int)

  predicate Flagged(h: Header) {
    h.failed || h.eof
  }

  /** What the header makes the request's error: an end of file clears it. */
  function Outcome(h: Header): int {
    if h.failed then h.error else 0
  }

  /** How far from the request's start the good bytes of a header reach. */
  function End(h: Header, start: nat): nat {
    if h.start + h.good > start then h.start + h.good - start else 0
  }

  /** max_count, count and error of a request. */
  datatype Account = Account(max: nat, count: nat, error: int)

  function Truncated(a: Account, h: Header, len: nat): Account {
    if Flagged(h) && a.max >= len
    then Account(len, if a.count > len then len else a.count, Outcome(h))
    else a
  }

  function Counted(a: Account, h: Header, start: nat): Account {
    var len := End(h, start);
    var a1 := Truncated(a, h, len);
    var len1 := if len > a1.max then a1.max else len;
    a1.(count := if a1.count < len1 then len1 else a1.count)
  }

  /** A request of n bytes at start whose headers completed in this order. */
  function After(hs: seq<Header>, start: nat, n: nat): Account {
    if hs == [] then Account(n, 0, 0) else Counted(After(hs[..|hs| - 1], start, n), hs[|hs| - 1], start)
  }

  class Request {
    const start: nat
    const length: nat
    var maxCount: nat
    var count: nat
    var error: int
    ghost var done: seq<Header>

    ghost predicate Valid()
      reads this
    {
      Account(maxCount, count, error) == After(done, start, length)
    }

    constructor (start: nat, length: nat)
      ensures Valid() && done == [] && this.start == start && this.length == length
    {
      this.start, this.length, maxCount, count, error, done := start, length, length, 0, 0, [];
    }

    /** nfs_direct_handle_truncated. */
    method HandleTruncated(h: Header, len: nat)
      modifies `maxCount, `count, `error
      ensures Account(maxCount, count, error) == Truncated(old(Account(maxCount, count, error)), h, len)
    {
      if !(h.failed || h.eof) {
        return;
      }
      if maxCount >= len {
        maxCount := len;
        if count > len {
          count := len;
        }
        if h.failed {
          error := h.error;
        } else {
          error := 0;
        }
      }
    }

    /** nfs_direct_count_bytes. */
    method CountBytes(h: Header)
      requires Valid()
      modifies this
      ensures Valid() && done == old(done) + [h]
    {
      var end, len := h.start + h.good, 0;
      if end > start {
        len := end - start;
      }
      HandleTruncated(h, len);
      if len > maxCount {
        len := maxCount;
      }
      if count < len {
        count := len;
      }
      done := done + [h];
      assert done[..|done| - 1] == old(done);
    }
  }

  // ------------------------------------------------------------ what the account means

  /** x is the least of n and the ends of the flagged headers. */
  ghost predicate IsLimit(hs: seq<Header>, start: nat, n: nat, x: nat) {
    && x <= n
    && (forall i :: 0 <= i < |hs| && Flagged(hs[i]) ==> x <= End(hs[i], start))
    && (x == n || exists i :: 0 <= i < |hs| && Flagged(hs[i]) && End(hs[i], start) == x)
  }

  /** m is the greatest end of all headers, or 0. */
  ghost predicate IsReach(hs: seq<Header>, start: nat, m: nat) {
    && (forall i :: 0 <= i < |hs| ==> End(hs[i], start) <= m)
    && (m == 0 || exists i :: 0 <= i < |hs| && End(hs[i], start) == m)
  }

  function Reach(hs: seq<Header>, start: nat): (m: nat)
    ensures IsReach(hs, start, m)
  {
    if hs == [] then 0
    else
      var m := Reach(hs[..|hs| - 1], start);
      if End(hs[|hs| - 1], start) > m then End(hs[|hs| - 1], start) else m
  }

  /** max_count is the limit, and count the smaller of limit and reach. */
  lemma {:induction false} AccountMeans(hs: seq<Header>, start: nat, n: nat)
    ensures IsLimit(hs, start, n, After(hs, start, n).max)
    ensures After(hs, start, n).count == Min(After(hs, start, n).max, Reach(hs, start))
  {
    if hs != [] {
      var p := hs[..|hs| - 1];
      AccountMeans(p, start, n);
      var a, b := After(p, start, n), After(hs, start, n);
      if b.max == a.max && a.max != n {
        var i :| 0 <= i < |p| && Flagged(p[i]) && End(p[i], start) == a.max;
        assert hs[i] == p[i];
      } else if b.max != n {
        assert End(hs[|hs| - 1], start) == b.max;
      }
    }
  }

  /** Completion order does not matter to max_count and count. */
  lemma OrderIrrelevant(hs: seq<Header>, ks: seq<Header>, start: nat, n: nat)
    requires multiset(hs) == multiset(ks)
    ensures After(hs, start, n).max == After(ks, start, n).max && After(hs, start, n).count == After(ks, start, n).count
  {
    AccountMeans(hs, start, n);
    AccountMeans(ks, start, n);
    LimitTravels(hs, ks, start, n);
    LimitTravels(ks, hs, start, n);
  }

  lemma LimitTravels(hs: seq<Header>, ks: seq<Header>, start: nat, n: nat)
    requires multiset(hs) == multiset(ks)
    ensures forall x :: IsLimit(hs, start, n, x) ==> forall y :: IsLimit(ks, start, n, y) ==> x <= y
    ensures Reach(hs, start) >= Reach(ks, start)
  {
    forall i | 0 <= i < |ks| ensures exists j :: 0 <= j < |hs| && hs[j] == ks[i] {
      assert ks[i] in multiset(ks);
    }
  }

  // ------------------------------------------------------------ headers that tile the request

  /** The headers cover n bytes from start on, one after the other, and those without a flag are complete. */
  predicate Tiles(hs: seq<Header>, start: nat, n: nat) {
    if hs == [] then n == 0
    else
      && hs[0].start == start && hs[0].length <= n && hs[0].good <= hs[0].length
      && (Flagged(hs[0]) || hs[0].good == hs[0].length)
      && Tiles(hs[1..], start + hs[0].length, n - hs[0].length)
  }

  /** The good bytes at the front: whole headers up to the first flagged one, and its good part. */
  function GoodPrefix(hs: seq<Header>): nat {
    if hs == [] then 0
    else if Flagged(hs[0]) then hs[0].good
    else hs[0].length + GoodPrefix(hs[1..])
  }

  lemma {:induction false} TilesBounds(hs: seq<Header>, start: nat, n: nat, base: nat, i: nat)
    requires Tiles(hs, start, n) && base <= start && i < |hs|
    ensures start - base <= End(hs[i], base) <= start - base + n
    ensures Flagged(hs[i]) ==> start - base + GoodPrefix(hs) <= End(hs[i], base)
  {
    if i > 0 {
      TilesBounds(hs[1..], start + hs[0].length, n - hs[0].length, base, i - 1);
    }
  }

  lemma {:induction false} PrefixBounds(hs: seq<Header>, start: nat, n: nat)
    requires Tiles(hs, start, n)
    ensures GoodPrefix(hs) <= n
    ensures GoodPrefix(hs) < n ==> exists i :: 0 <= i < |hs| && Flagged(hs[i])
  {
    if hs != [] {
      if Flagged(hs[0]) {
        assert Flagged(hs[0]);
      } else {
        PrefixBounds(hs[1..], start + hs[0].length, n - hs[0].length);
        if GoodPrefix(hs) < n {
          var i :| 0 <= i < |hs[1..]| && Flagged(hs[1..][i]);
          assert Flagged(hs[i + 1]);
        }
      }
    }
  }

  /** The good prefix is where some header's good bytes end: the first flagged one's, or the last one's. */
  lemma {:induction false} PrefixIsAnEnd(hs: seq<Header>, start: nat, n: nat, base: nat)
    requires Tiles(hs, start, n) && base <= start && hs != []
    ensures exists i :: 0 <= i < |hs| && End(hs[i], base) == start - base + GoodPrefix(hs)
              && ((forall j :: 0 <= j < |hs| ==> !Flagged(hs[j])) || Flagged(hs[i]))
  {
    if Flagged(hs[0]) {
      assert End(hs[0], base) == start - base + GoodPrefix(hs);
    } else if |hs| == 1 {
      assert hs[1..] == [];
      assert End(hs[0], base) == start - base + GoodPrefix(hs);
    } else {
      PrefixIsAnEnd(hs[1..], start + hs[0].length, n - hs[0].length, base);
      var i :| 0 <= i < |hs[1..]| && End(hs[1..][i], base) == start - base + GoodPrefix(hs)
        && ((forall j :: 0 <= j < |hs[1..]| ==> !Flagged(hs[1..][j])) || Flagged(hs[1..][i]));
      assert hs[i + 1] == hs[1..][i];
      if !Flagged(hs[1..][i]) {
        forall j | 0 <= j < |hs| ensures !Flagged(hs[j]) {
          assert j > 0 ==> hs[j] == hs[1..][j - 1];
        }
      }
    }
  }

  /** Whatever the completion order, headers that tile the request make count exactly the good contiguous prefix. */
  lemma CountIsGoodPrefix(hs: seq<Header>, ks: seq<Header>, start: nat, n: nat)
    requires Tiles(hs, start, n) && multiset(ks) == multiset(hs)
    ensures After(ks, start, n).count == GoodPrefix(hs)
  {
    OrderIrrelevant(ks, hs, start, n);
    AccountMeans(hs, start, n);
    if hs != [] {
      PrefixBounds(hs, start, n);
      PrefixIsAnEnd(hs, start, n, start);
      forall i | 0 <= i < |hs|
        ensures End(hs[i], start) <= n && (Flagged(hs[i]) ==> GoodPrefix(hs) <= End(hs[i], start))
      {
        TilesBounds(hs, start, n, start, i);
      }
    }
  }

  // ------------------------------------------------------------ the error

  /** A flagged header that ends at the limit. */
  predicate AtLimit(h: Header, start: nat, x: nat) {
    Flagged(h) && End(h, start) == x
  }

  /** Header i ends at the limit, and none that completes after it does. */
  ghost predicate LastAtLimit(hs: seq<Header>, start: nat, x: nat, i: nat) {
    i < |hs| && AtLimit(hs[i], start, x) && forall j :: i < j < |hs| ==> !AtLimit(hs[j], start, x)
  }

  /** The error is that of the last header to complete among those that end at the limit, or none. */
  ghost predicate IsError(hs: seq<Header>, start: nat, x: nat, error: int) {
    if exists i :: 0 <= i < |hs| && AtLimit(hs[i], start, x)
    then exists i: nat :: LastAtLimit(hs, start, x, i) && error == Outcome(hs[i])
    else error == 0
  }

  lemma {:induction false} ErrorMeans(hs: seq<Header>, start: nat, n: nat)
    ensures IsError(hs, start, After(hs, start, n).max, After(hs, start, n).error)
  {
    if hs != [] {
      var p, h := hs[..|hs| - 1], hs[|hs| - 1];
      ErrorMeans(p, start, n);
      AccountMeans(p, start, n);
      var a, b := After(p, start, n), After(hs, start, n);
      if AtLimit(h, start, b.max) {
        assert LastAtLimit(hs, start, b.max, |hs| - 1) && b.error == Outcome(hs[|hs| - 1]);
      } else {
        assert b.max == a.max && b.error == a.error;
        ErrorStays(p, h, start, a.max, a.error);
        assert p + [h] == hs;
      }
    }
  }

  lemma ErrorStays(p: seq<Header>, h: Header, start: nat, x: nat, error: int)
    requires IsError(p, start, x, error) && !AtLimit(h, start, x)
    ensures IsError(p + [h], start, x, error)
  {
    var hs := p + [h];
    if i: nat :| LastAtLimit(p, start, x, i) && error == Outcome(p[i]) {
      assert LastAtLimit(hs, start, x, i) && error == Outcome(hs[i]);
    } else {
      assert forall i :: 0 <= i < |p| ==> hs[i] == p[i];
    }
  }

  /** The headers that end at the limit agree on the error. */
  ghost predicate Agree(hs: seq<Header>, start: nat, x: nat) {
    forall i, j :: 0 <= i < |hs| && 0 <= j < |hs| && AtLimit(hs[i], start, x) && AtLimit(hs[j], start, x) ==>
      Outcome(hs[i]) == Outcome(hs[j])
  }

  /** hs with header i completing last. */
  function Last(hs: seq<Header>, i: nat): (r: seq<Header>)
    requires i < |hs|
    ensures multiset(r) == multiset(hs) && |r| == |hs| && r[|r| - 1] == hs[i]
  {
    assert hs == hs[..i] + [hs[i]] + hs[i + 1..];
    hs[..i] + hs[i + 1..] + [hs[i]]
  }

  lemma LastDecides(hs: seq<Header>, start: nat, n: nat, i: nat)
    requires i < |hs| && AtLimit(hs[i], start, After(hs, start, n).max)
    ensures After(Last(hs, i), start, n).error == Outcome(hs[i])
  {
    var r := Last(hs, i);
    OrderIrrelevant(hs, r, start, n);
    assert AtLimit(r[|r| - 1], start, After(r, start, n).max);
    ErrorMeans(r, start, n);
  }

  /** The error does not depend on the order exactly when the headers that end at the limit agree on it. */
  lemma ErrorOrderIrrelevantIff(hs: seq<Header>, start: nat, n: nat)
    ensures Agree(hs, start, After(hs, start, n).max) <==>
            forall ks :: multiset(ks) == multiset(hs) ==> After(ks, start, n).error == After(hs, start, n).error
  {
    var x := After(hs, start, n).max;
    if Agree(hs, start, x) {
      forall ks | multiset(ks) == multiset(hs) ensures After(ks, start, n).error == After(hs, start, n).error {
        AgreedError(hs, ks, start, n);
      }
    } else {
      var i, j :| 0 <= i < |hs| && 0 <= j < |hs| && AtLimit(hs[i], start, x) && AtLimit(hs[j], start, x)
        && Outcome(hs[i]) != Outcome(hs[j]);
      LastDecides(hs, start, n, i);
      LastDecides(hs, start, n, j);
    }
  }

  lemma AgreedError(hs: seq<Header>, ks: seq<Header>, start: nat, n: nat)
    requires multiset(ks) == multiset(hs) && Agree(hs, start, After(hs, start, n).max)
    ensures After(ks, start, n).error == After(hs, start, n).error
  {
    OrderIrrelevant(ks, hs, start, n);
    ErrorMeans(hs, start, n);
    ErrorMeans(ks, start, n);
    SameError(hs, ks, start, After(hs, start, n).max, After(hs, start, n).error, After(ks, start, n).error);
  }

  lemma SameError(hs: seq<Header>, ks: seq<Header>, start: nat, x: nat, e: int, f: int)
    requires multiset(ks) == multiset(hs) && Agree(hs, start, x) && IsError(hs, start, x, e) && IsError(ks, start, x, f)
    ensures e == f
  {
    if k :| 0 <= k < |ks| && AtLimit(ks[k], start, x) {
      var j: nat :| LastAtLimit(ks, start, x, j) && f == Outcome(ks[j]);
      var m := SameHeader(hs, ks, j);
      var i: nat :| LastAtLimit(hs, start, x, i) && e == Outcome(hs[i]);
    } else if i :| 0 <= i < |hs| && AtLimit(hs[i], start, x) {
      var m := SameHeader(ks, hs, i);
    }
  }

  lemma SameHeader(hs: seq<Header>, ks: seq<Header>, i: nat) returns (j: nat)
    requires multiset(ks) == multiset(hs) && i < |ks|
    ensures j < |hs| && hs[j] == ks[i]
  {
    assert ks[i] in multiset(ks);
    j :| 0 <= j < |hs| && hs[j] == ks[i];
  }
}
