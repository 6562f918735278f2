/**
What the shares of one file come to (bundle/fs/lockd/svcshare.c).

A host's owner has at most one share of a file. A newcomer's share is granted only if it gets on with all the others.
A share that replaces its owner's earlier one is compared with those before that one in the list and with none after,
so two owners can end up with shares that deny each other's access.
*/
module LockdShares {

  import opened LockdFiles
  import opened LockdHosts

  ghost predicate SameOwner(s: Share, t: Share) {
    s.host == t.host && s.owner == t.owner
  }

  /** No owner has two shares. */
  ghost predicate OneEach(s: seq<Share>) {
    forall i, j :: 0 <= i < j < |s| ==> !SameOwner(s[i], s[j])
  }

  /** No owner is denied what another has. */
  ghost predicate Compatible(s: seq<Share>) {
    forall i, j :: 0 <= i < j < |s| && !SameOwner(s[i], s[j]) ==> !Clash(s[i], s[j])
  }

  /** Share t gets on with the shares of all other owners. */
  ghost predicate Agrees(s: seq<Share>, t: Share) {
    forall j :: 0 <= j < |s| && !SameOwner(s[j], t) ==> !Clash(s[j], t)
  }

  lemma ClashIsMutual(s: Share, t: Share)
    ensures Clash(s, t) <==> Clash(t, s)
  {
    assert t.access & s.mode == s.mode & t.access && t.mode & s.access == s.access & t.mode;
  }

  /** A granted share is the only one of its owner, and all the others are as they were. */
  lemma GrantedIsOnlyOne(s: seq<Share>, s': seq<Share>, t: Share)
    requires OneEach(s) && Shared(s, s', t)
    ensures OneEach(s') && t in s'
    ensures forall u :: !SameOwner(u, t) ==> (u in s' <==> u in s)
    ensures forall u :: u in s' && SameOwner(u, t) ==> u == t
  {
    if s' == [t] + s {
      assert s'[0] == t && s'[1..] == s;
    } else {
      var i :| 0 <= i < |s| && Mine(s[i], t) && s' == s[i := t];
      assert s'[i] == t && forall j :: 0 <= j < |s| && j != i ==> s'[j] == s[j];
    }
  }

  /** The shares stay compatible exactly when the new one agrees with all others, as a newcomer's always does. */
  lemma CompatibleIff(s: seq<Share>, s': seq<Share>, t: Share)
    requires OneEach(s) && Compatible(s) && Shared(s, s', t)
    ensures Compatible(s') <==> Agrees(s, t)
    ensures (forall j :: 0 <= j < |s| ==> !SameOwner(s[j], t)) ==> Compatible(s')
  {
    forall u, v
      ensures Clash(u, v) <==> Clash(v, u)
    {
      ClashIsMutual(u, v);
    }
    if s' != [t] + s {
      var i :| 0 <= i < |s| && Mine(s[i], t) && s' == s[i := t];
      ReplacedIff(s, i, t);
    } else if Agrees(s, t) {
      forall i, j | 0 <= i < j < |s'| && !SameOwner(s'[i], s'[j])
        ensures !Clash(s'[i], s'[j])
      {
        assert s'[j] == s[j - 1] && (i > 0 ==> s'[i] == s[i - 1]);
      }
    }
  }

  lemma ReplacedIff(s: seq<Share>, i: nat, t: Share)
    requires OneEach(s) && Compatible(s) && i < |s| && SameOwner(s[i], t)
    requires forall u, v :: Clash(u, v) <==> Clash(v, u)
    ensures Compatible(s[i := t]) <==> Agrees(s, t)
  {
    var r := s[i := t];
    if Compatible(r) {
      forall j | 0 <= j < |s| && !SameOwner(s[j], t)
        ensures !Clash(s[j], t)
      {
        assert r[j] == s[j] && r[i] == t;
      }
    }
  }

  /** An owner who changes the share can be granted one that another owner's share denies. */
  lemma ReplacementCanClash()
    ensures var s, t := [Share(1, [1], 1, 0), Share(2, [2], 1, 2)], Share(1, [1], 2, 0);
            OneEach(s) && Compatible(s) && !Conflicts(s, t) && Shared(s, s[0 := t], t) && !Compatible(s[0 := t])
  {
    var s, t := [Share(1, [1], 1, 0), Share(2, [2], 1, 2)], Share(1, [1], 2, 0);
    assert Mine(s[0], t);
    var r := s[0 := t];
    assert !SameOwner(r[0], r[1]) && Clash(r[0], r[1]);
  }

  /** A share that goes leaves the others compatible. */
  lemma UnsharedStaysCompatible(s: seq<Share>, i: nat)
    requires i < |s| && OneEach(s) && Compatible(s)
    ensures OneEach(s[..i] + s[i + 1..]) && Compatible(s[..i] + s[i + 1..])
  {
    var r := s[..i] + s[i + 1..];
    assert forall j :: 0 <= j < |r| ==> r[j] == if j < i then s[j] else s[j + 1];
  }
}
