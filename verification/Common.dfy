/** Small definitions shared by the models: options, lists as sequences, machine words. */
module Common {

  datatype Option<+T> = None | Some(value: T)

  type Byte = n: nat | n < 256

  const U32 := 0x1_0000_0000
  const U64 := 0x1_0000_0000_0000_0000

  function Min(a: nat, b: nat): nat {
    if a < b then a else b
  }

  function Bit(b: bool): int {
    if b then 1 else 0
  }

  /** (s32)(a - b) > 0 for two unsigned 32-bit values. */
  predicate Newer32(a: nat, b: nat) {
    0 < (a - b) % U32 < 0x8000_0000
  }

  /** Within half the range the wrapped comparison is the true one. */
  lemma NewerIsLater(a: nat, b: nat)
    requires b - 0x8000_0000 <= a < b + 0x8000_0000
    ensures Newer32(a % U32, b % U32) <==> a > b
  {
    var x := a % U32 - b % U32;
    var k := (x - (a - b)) / U32;
    assert (x - (a - b)) % U32 == 0;
    assert x == a - b + k * U32;
    assert x % U32 == (a - b) % U32;
    if a < b {
      assert (a - b + U32) % U32 == a - b + U32;
    }
  }

  lemma SameClass(x: int, y: int)
    requires (x - y) % U64 == 0
    ensures x % U64 == y % U64
  {
    var k := (x - y) / U64;
    assert x == y + k * U64;
  }

  /** A list holds no element twice. */
  predicate Distinct<T(==)>(q: seq<T>) {
    q == [] || (q[|q| - 1] !in q[..|q| - 1] && Distinct(q[..|q| - 1]))
  }

  /** Element k does not occur before its own place. */
  lemma {:induction false} DistinctAt<T>(q: seq<T>, k: nat)
    requires Distinct(q) && k < |q|
    ensures q[k] !in q[..k] && q[..k + 1] == q[..k] + [q[k]]
  {
    if k < |q| - 1 {
      DistinctAt(q[..|q| - 1], k);
      assert q[..|q| - 1][..k] == q[..k];
    }
  }

  lemma DistinctAppend<T>(q: seq<T>, x: T)
    requires Distinct(q) && x !in q
    ensures Distinct(q + [x])
  {
    assert (q + [x])[..|q|] == q;
  }

  lemma {:induction false} DistinctPrepend<T>(x: T, q: seq<T>)
    requires Distinct(q) && x !in q
    ensures Distinct([x] + q)
  {
    if q == [] {
      assert [x] + q == [x] && [x][..0] == [];
    } else {
      DistinctPrepend(x, q[..|q| - 1]);
      assert ([x] + q)[..|q|] == [x] + q[..|q| - 1];
    }
  }

  lemma DistinctPairs<T>(q: seq<T>)
    requires Distinct(q)
    ensures forall i, j :: 0 <= i < j < |q| ==> q[i] != q[j]
  {
    forall i, j | 0 <= i < j < |q| ensures q[i] != q[j] {
      DistinctAt(q, j);
      assert q[i] in q[..j];
    }
  }

  lemma {:induction false} PairsDistinct<T>(q: seq<T>)
    requires forall i, j :: 0 <= i < j < |q| ==> q[i] != q[j]
    ensures Distinct(q)
  {
    if q != [] {
      PairsDistinct(q[..|q| - 1]);
    }
  }

  /** list_del: the list without x, the others in their order. */
  function Without<T(==,!new)>(q: seq<T>, x: T): (r: seq<T>)
    ensures forall y :: y in r <==> y in q && y != x
  {
    if q == [] then []
    else
      var r := Without(q[..|q| - 1], x);
      if q[|q| - 1] == x then r else r + [q[|q| - 1]]
  }

  lemma {:induction false} WithoutKeepsDistinct<T(!new)>(q: seq<T>, x: T)
    requires Distinct(q)
    ensures Distinct(Without(q, x))
  {
    if q != [] {
      WithoutKeepsDistinct(q[..|q| - 1], x);
    }
  }
}
