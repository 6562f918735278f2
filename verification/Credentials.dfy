/** Credentials as file access sees them, and their order (cred_fscmp in bundle/kernel/cred.c). */
module Credentials {
  import opened Common

  /** fsuid, fsgid and the supplementary groups; group_info may be NULL. */
  datatype Cred = Cred(fsuid: nat, fsgid: nat, groups: Option<seq<nat>>)

  /** Lexicographic order of number sequences: -1, 0 or 1. */
  function Lex(a: seq<nat>, b: seq<nat>): (r: int)
    ensures -1 <= r <= 1
  {
    if a == [] then (if b == [] then 0 else -1)
    else if b == [] then 1
    else if a[0] < b[0] then -1
    else if a[0] > b[0] then 1
    else Lex(a[1..], b[1..])
  }

  function GroupKey(g: Option<seq<nat>>): seq<nat> {
    match g case None => [0] case Some(g) => [1, |g|] + g
  }

  /** What the order goes by: no groups before any groups, then fewer before more, then the first that differ. */
  function Key(c: Cred): seq<nat> {
    [c.fsuid, c.fsgid] + GroupKey(c.groups)
  }

  lemma {:induction false} LexEqual(a: seq<nat>, b: seq<nat>)
    ensures Lex(a, b) == 0 <==> a == b
  {
    if a != [] && b != [] {
      LexEqual(a[1..], b[1..]);
      assert a == [a[0]] + a[1..] && b == [b[0]] + b[1..];
    }
  }

  lemma {:induction false} LexOpposite(a: seq<nat>, b: seq<nat>)
    ensures Lex(b, a) == -Lex(a, b)
  {
    if a != [] && b != [] {
      LexOpposite(a[1..], b[1..]);
    }
  }

  lemma {:induction false} LexTransitive(a: seq<nat>, b: seq<nat>, c: seq<nat>)
    requires Lex(a, b) < 0 && Lex(b, c) < 0
    ensures Lex(a, c) < 0
  {
    if a != [] && b != [] && c != [] && a[0] == b[0] && b[0] == c[0] {
      LexTransitive(a[1..], b[1..], c[1..]);
    }
  }

  lemma {:induction false} LexPrefix(p: seq<nat>, a: seq<nat>, b: seq<nat>)
    ensures Lex(p + a, p + b) == Lex(a, b)
  {
    if p == [] {
      assert p + a == a && p + b == b;
    } else {
      assert (p + a)[1..] == p[1..] + a && (p + b)[1..] == p[1..] + b;
      LexPrefix(p[1..], a, b);
    }
  }

  /** Two credentials compare equal exactly when fsuid, fsgid and group list are the same. */
  lemma EqualIffSame(a: Cred, b: Cred)
    ensures Lex(Key(a), Key(b)) == 0 <==> a == b
  {
    LexEqual(Key(a), Key(b));
    if Key(a) == Key(b) {
      assert Key(a)[0] == a.fsuid && Key(b)[0] == b.fsuid && Key(a)[1] == a.fsgid && Key(b)[1] == b.fsgid;
      assert Key(a)[2] == if a.groups.None? then 0 else 1;
      assert Key(b)[2] == if b.groups.None? then 0 else 1;
      if a.groups.Some? {
        assert Key(a)[4..] == a.groups.value && Key(b)[4..] == b.groups.value;
      }
    }
  }

  lemma LexFirst(p: seq<nat>, x: nat, y: nat, a: seq<nat>, b: seq<nat>)
    requires x != y
    ensures Lex(p + [x] + a, p + [y] + b) == if x < y then -1 else 1
  {
    assert p + [x] + a == p + ([x] + a) && p + [y] + b == p + ([y] + b);
    LexPrefix(p, [x] + a, [y] + b);
  }

  /** The scan over two group lists of one length. */
  method GroupsCmp(g: seq<nat>, h: seq<nat>) returns (r: int)
    requires |g| == |h|
    ensures r == Lex(g, h)
  {
    var i := 0;
    while i < |g|
      invariant i <= |g| && g[..i] == h[..i]
    {
      assert g == g[..i] + [g[i]] + g[i + 1..] && h == h[..i] + [h[i]] + h[i + 1..];
      if g[i] < h[i] {
        LexFirst(g[..i], g[i], h[i], g[i + 1..], h[i + 1..]);
        return -1;
      }
      if g[i] > h[i] {
        LexFirst(g[..i], g[i], h[i], g[i + 1..], h[i + 1..]);
        return 1;
      }
      i := i + 1;
    }
    assert g == g[..i] && h == h[..i];
    LexEqual(g, h);
    r := 0;
  }

  /** cred_fscmp; same and shared say that the two credentials, or their group lists, are one object. */
  method FsCmp(a: Cred, b: Cred, same: bool, shared: bool) returns (r: int)
    requires (same ==> a == b) && (shared ==> a.groups == b.groups)
    ensures r == Lex(Key(a), Key(b))
  {
    EqualIffSame(a, b);
    if same {
      return 0;
    }
    if a.fsuid != b.fsuid {
      return if a.fsuid < b.fsuid then -1 else 1;
    }
    if a.fsgid != b.fsgid {
      LexPrefix([a.fsuid], Key(a)[1..], Key(b)[1..]);
      assert Key(a) == [a.fsuid] + Key(a)[1..] && Key(b) == [b.fsuid] + Key(b)[1..];
      return if a.fsgid < b.fsgid then -1 else 1;
    }
    LexPrefix([a.fsuid, a.fsgid], GroupKey(a.groups), GroupKey(b.groups));
    if shared || (a.groups.None? && b.groups.None?) {
      return 0;
    }
    if a.groups.None? {
      return -1;
    }
    if b.groups.None? {
      return 1;
    }
    var g, h := a.groups.value, b.groups.value;
    assert GroupKey(a.groups) == [1] + [|g|] + g && GroupKey(b.groups) == [1] + [|h|] + h;
    if |g| != |h| {
      LexFirst([1], |g|, |h|, g, h);
      return if |g| < |h| then -1 else 1;
    }
    LexPrefix([1, |g|], g, h);
    r := GroupsCmp(g, h);
  }
}
