/**
The tree of one inode's cached access rights, ordered by credential (nfs_access_search_rbtree and
nfs_access_add_rbtree in bundle/fs/nfs/dir.c).  Node colours and rotations are not part of the model.
*/
module AccessTree {
  import opened Common
  import opened Credentials

  /** struct nfs_access_entry; the inode it was made for and a serial number are the object's identity. */
  datatype Entry = Entry(home: nat, id: nat, cred: Cred, mask: nat)

  datatype Tree = Leaf | Node(left: Tree, entry: Entry, right: Tree)

  function Order(a: Cred, b: Cred): int {
    Lex(Key(a), Key(b))
  }

  ghost function Elems(t: Tree): set<Entry> {
    match t
    case Leaf => {}
    case Node(l, e, r) => Elems(l) + {e} + Elems(r)
  }

  ghost predicate Ordered(t: Tree) {
    match t
    case Leaf => true
    case Node(l, e, r) =>
      && Ordered(l) && Ordered(r)
      && (forall x :: x in Elems(l) ==> Order(x.cred, e.cred) < 0)
      && (forall x :: x in Elems(r) ==> Order(x.cred, e.cred) > 0)
  }

  lemma Trichotomy(a: Cred, b: Cred)
    ensures Order(a, b) == 0 <==> a == b
    ensures Order(b, a) == -Order(a, b)
  {
    EqualIffSame(a, b);
    LexOpposite(Key(a), Key(b));
  }

  lemma Transitive(a: Cred, b: Cred, c: Cred)
    requires Order(a, b) < 0 && Order(b, c) < 0
    ensures Order(a, c) < 0
  {
    LexTransitive(Key(a), Key(b), Key(c));
  }

  /** An ordered tree holds one entry for a credential at most. */
  lemma {:induction false} OnePerCred(t: Tree, x: Entry, y: Entry)
    requires Ordered(t) && x in Elems(t) && y in Elems(t) && x.cred == y.cred
    ensures x == y
  {
    Trichotomy(x.cred, t.entry.cred);
    if x in Elems(t.left) {
      OnePerCred(t.left, x, y);
    } else if x in Elems(t.right) {
      OnePerCred(t.right, x, y);
    }
  }

  /** nfs_access_search_rbtree. */
  method Search(t: Tree, c: Cred) returns (r: Option<Entry>)
    requires Ordered(t)
    ensures r.Some? ==> r.value in Elems(t) && r.value.cred == c
    ensures r.None? ==> forall x :: x in Elems(t) ==> x.cred != c
  {
    var n := t;
    while n.Node?
      invariant Ordered(n) && Elems(n) <= Elems(t)
      invariant forall x :: x in Elems(t) && x.cred == c ==> x in Elems(n)
      decreases n
    {
      var e := n.entry;
      Trichotomy(c, e.cred);
      var cmp := FsCmp(c, e.cred, false, false);
      if cmp < 0 {
        n := n.left;
      } else if cmp > 0 {
        n := n.right;
      } else {
        return Some(e);
      }
    }
    r := None;
  }

  /** Link e where the descent ends, or replace the node of the same credential. */
  function Put(t: Tree, e: Entry): Tree {
    match t
    case Leaf => Node(Leaf, e, Leaf)
    case Node(l, x, r) =>
      if Order(e.cred, x.cred) < 0 then Node(Put(l, e), x, r)
      else if Order(e.cred, x.cred) > 0 then Node(l, x, Put(r, e))
      else Node(l, e, r)
  }

  ghost function Others(s: set<Entry>, c: Cred): set<Entry> {
    set x | x in s && x.cred != c
  }

  lemma {:induction false} PutAdds(t: Tree, e: Entry)
    requires Ordered(t)
    ensures Elems(Put(t, e)) == Others(Elems(t), e.cred) + {e} && Ordered(Put(t, e))
  {
    if t.Node? {
      Trichotomy(e.cred, t.entry.cred);
      if Order(e.cred, t.entry.cred) < 0 {
        PutAdds(t.left, e);
        LeftGrows(t, e, Put(t.left, e));
      } else if Order(e.cred, t.entry.cred) > 0 {
        PutAdds(t.right, e);
        RightGrows(t, e, Put(t.right, e));
      } else {
        PutAtRoot(t, e);
      }
    }
  }

  lemma LeftGrows(t: Tree, e: Entry, l: Tree)
    requires t.Node? && Ordered(t) && Order(e.cred, t.entry.cred) < 0
    requires Ordered(l) && Elems(l) == Others(Elems(t.left), e.cred) + {e}
    ensures Ordered(Node(l, t.entry, t.right)) && Elems(Node(l, t.entry, t.right)) == Others(Elems(t), e.cred) + {e}
  {
    OthersSide(t, e.cred);
  }

  lemma RightGrows(t: Tree, e: Entry, r: Tree)
    requires t.Node? && Ordered(t) && Order(e.cred, t.entry.cred) > 0
    requires Ordered(r) && Elems(r) == Others(Elems(t.right), e.cred) + {e}
    ensures Ordered(Node(t.left, t.entry, r)) && Elems(Node(t.left, t.entry, r)) == Others(Elems(t), e.cred) + {e}
  {
    OthersSide(t, e.cred);
  }

  lemma PutAtRoot(t: Tree, e: Entry)
    requires t.Node? && Ordered(t) && e.cred == t.entry.cred
    ensures Elems(Put(t, e)) == Others(Elems(t), e.cred) + {e} && Ordered(Put(t, e))
  {
    Trichotomy(e.cred, e.cred);
    OthersSide(t, e.cred);
  }

  /** A credential can only be on its own side of the root. */
  lemma OthersSide(t: Tree, c: Cred)
    requires Ordered(t) && t.Node?
    ensures var o := Order(c, t.entry.cred);
            && (o < 0 ==> Others(Elems(t), c) == Others(Elems(t.left), c) + {t.entry} + Elems(t.right))
            && (o > 0 ==> Others(Elems(t), c) == Elems(t.left) + {t.entry} + Others(Elems(t.right), c))
            && (o == 0 ==> Others(Elems(t), c) == Elems(t.left) + Elems(t.right))
  {
    Trichotomy(c, t.entry.cred);
  }

  function Least(t: Tree): Entry
    requires t.Node?
  {
    if t.left.Leaf? then t.entry else Least(t.left)
  }

  /** rb_erase: a node with two children gives its place to its successor. */
  function Erase(t: Tree, c: Cred): Tree {
    match t
    case Leaf => Leaf
    case Node(l, x, r) =>
      if Order(c, x.cred) < 0 then Node(Erase(l, c), x, r)
      else if Order(c, x.cred) > 0 then Node(l, x, Erase(r, c))
      else if l.Leaf? then r
      else if r.Leaf? then l
      else Node(l, Least(r), EraseLeast(r))
  }

  function EraseLeast(t: Tree): Tree
    requires t.Node?
  {
    if t.left.Leaf? then t.right else Node(EraseLeast(t.left), t.entry, t.right)
  }

  lemma {:induction false} LeastIsLeast(t: Tree)
    requires t.Node? && Ordered(t)
    ensures Least(t) in Elems(t) && Ordered(EraseLeast(t)) && Elems(EraseLeast(t)) == Elems(t) - {Least(t)}
    ensures forall x :: x in Elems(EraseLeast(t)) ==> Order(x.cred, Least(t).cred) > 0
  {
    if t.left.Leaf? {
      Trichotomy(t.entry.cred, t.entry.cred);
    } else {
      LeastIsLeast(t.left);
      var m := Least(t.left);
      Trichotomy(m.cred, t.entry.cred);
      forall x | x in Elems(t.right) ensures Order(x.cred, m.cred) > 0 && x != m {
        Trichotomy(x.cred, t.entry.cred);
        Transitive(m.cred, t.entry.cred, x.cred);
        Trichotomy(x.cred, m.cred);
      }
    }
  }

  lemma {:induction false} EraseRemoves(t: Tree, c: Cred)
    requires Ordered(t)
    ensures Elems(Erase(t, c)) == Others(Elems(t), c) && Ordered(Erase(t, c))
  {
    if t.Node? {
      Trichotomy(c, t.entry.cred);
      if Order(c, t.entry.cred) < 0 {
        EraseRemoves(t.left, c);
      } else if Order(c, t.entry.cred) > 0 {
        EraseRemoves(t.right, c);
      } else {
        EraseRootRemoves(t);
      }
    }
  }

  lemma EraseRootRemoves(t: Tree)
    requires t.Node? && Ordered(t)
    ensures Elems(Erase(t, t.entry.cred)) == Others(Elems(t), t.entry.cred) && Ordered(Erase(t, t.entry.cred))
  {
    Trichotomy(t.entry.cred, t.entry.cred);
    OthersSide(t, t.entry.cred);
    if t.left.Node? && t.right.Node? {
      SuccessorFits(t);
    }
  }

  /** The successor in the root's place leaves the tree in order. */
  lemma SuccessorFits(t: Tree)
    requires t.Node? && t.right.Node? && Ordered(t)
    ensures var t' := Node(t.left, Least(t.right), EraseLeast(t.right));
            Ordered(t') && Elems(t') == Elems(t.left) + Elems(t.right)
  {
    var m := Least(t.right);
    LeastIsLeast(t.right);
    Trichotomy(m.cred, t.entry.cred);
    forall x | x in Elems(t.left) ensures Order(x.cred, m.cred) < 0 {
      Transitive(x.cred, t.entry.cred, m.cred);
    }
  }
}
