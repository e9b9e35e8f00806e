/** The persistent treap that stores catalogs, reverse edges and search postings.
    A node's place is fixed by its key alone: binary search on the key, minimum heap on
    (priority, key). Hence content-identical trees are identical, whatever their history. */
module Treap {
  import opened Names
  import opened Wrappers

  /** What the tree takes from outside: the priority of a key, the revision of a value and
      the digest of a node's length-prefixed parts (SHA-256 in the original). */
  datatype Hashing<-T> = Hashing(priority: string -> nat, revision: T -> string, digest: seq<string> -> string)

  datatype Tree<T> =
    | Leaf
    | Node(key: string, value: T, priority: nat, left: Tree<T>, right: Tree<T>, size: nat, digest: string)

  const EMPTY_DIGEST := "semantic-catalog-v2-empty"

  function Len<T>(t: Tree<T>): nat {
    if t.Leaf? then 0 else t.size
  }

  function Digest<T>(t: Tree<T>): string {
    if t.Leaf? then EMPTY_DIGEST else t.digest
  }

  function MakeNode<T>(h: Hashing<T>, key: string, value: T, left: Tree<T>, right: Tree<T>): Tree<T> {
    Node(key, value, h.priority(key), left, right, 1 + Len(left) + Len(right),
         h.digest([Digest(left), key, h.revision(value), Digest(right)]))
  }

  /** The order a parent and child are compared by: stored priority, then key. */
  predicate Above<T>(a: Tree<T>, b: Tree<T>)
    requires a.Node? && b.Node?
  {
    a.priority < b.priority || (a.priority == b.priority && Less(a.key, b.key))
  }

  /** Binary search; `Get` below is the loop that computes it. */
  function Find<T>(t: Tree<T>, key: string): Option<T> {
    if t.Leaf? then None
    else if key == t.key then Some(t.value)
    else Find(if Less(key, t.key) then t.left else t.right, key)
  }

  method Get<T>(t: Tree<T>, key: string) returns (r: Option<T>)
    ensures r == Find(t, key)
  {
    var current := t;
    while current.Node?
      invariant Find(t, key) == Find(current, key)
      decreases current
    {
      if key == current.key { return Some(current.value); }
      current := if Less(key, current.key) then current.left else current.right;
    }
    return None;
  }

  function Insert<T>(h: Hashing<T>, t: Tree<T>, key: string, value: T): Tree<T> {
    if t.Leaf? then MakeNode(h, key, value, Leaf, Leaf)
    else if key == t.key then MakeNode(h, key, value, t.left, t.right)
    else if Less(key, t.key) then
      var left := Insert(h, t.left, key, value);
      if left.Node? && Above(left, t) then
        MakeNode(h, left.key, left.value, left.left, MakeNode(h, t.key, t.value, left.right, t.right))
      else MakeNode(h, t.key, t.value, left, t.right)
    else
      var right := Insert(h, t.right, key, value);
      if right.Node? && Above(right, t) then
        MakeNode(h, right.key, right.value, MakeNode(h, t.key, t.value, t.left, right.left), right.right)
      else MakeNode(h, t.key, t.value, t.left, right)
  }

  function Merge<T>(h: Hashing<T>, l: Tree<T>, r: Tree<T>): Tree<T> {
    if l.Leaf? then r
    else if r.Leaf? then l
    else if Above(l, r) then MakeNode(h, l.key, l.value, l.left, Merge(h, l.right, r))
    else MakeNode(h, r.key, r.value, Merge(h, l, r.left), r.right)
  }

  function Remove<T>(h: Hashing<T>, t: Tree<T>, key: string): Tree<T> {
    if t.Leaf? then t
    else if key == t.key then Merge(h, t.left, t.right)
    else if Less(key, t.key) then MakeNode(h, t.key, t.value, Remove(h, t.left, key), t.right)
    else MakeNode(h, t.key, t.value, t.left, Remove(h, t.right, key))
  }

  // ---- What a tree holds, and which trees are well formed ----

  ghost function Keys<T>(t: Tree<T>): set<string> {
    if t.Leaf? then {} else Keys(t.left) + {t.key} + Keys(t.right)
  }

  /** The strict order in which keys may sit above one another. */
  ghost predicate Precedes<T>(h: Hashing<T>, a: string, b: string) {
    h.priority(a) < h.priority(b) || (h.priority(a) == h.priority(b) && Less(a, b))
  }

  ghost predicate Divides<T>(h: Hashing<T>, l: set<string>, root: string, r: set<string>) {
    && (forall k | k in l :: Less(k, root) && Precedes(h, root, k))
    && (forall k | k in r :: Less(root, k) && Precedes(h, root, k))
  }

  /** Search tree, heap, and every cached field as `MakeNode` computes it. */
  ghost predicate Canonical<T>(h: Hashing<T>, t: Tree<T>) {
    t.Leaf? ||
    (&& t == MakeNode(h, t.key, t.value, t.left, t.right)
     && Canonical(h, t.left) && Canonical(h, t.right)
     && Divides(h, Keys(t.left), t.key, Keys(t.right)))
  }

  lemma PrecedesTransitive<T>(h: Hashing<T>, a: string, b: string, c: string)
    requires Precedes(h, a, b) && Precedes(h, b, c)
    ensures Precedes(h, a, c)
  {
    if Less(a, b) && Less(b, c) { LessTransitive(a, b, c); }
  }

  lemma PrecedesTotal<T>(h: Hashing<T>, a: string, b: string)
    ensures a == b || Precedes(h, a, b) || Precedes(h, b, a)
    ensures Precedes(h, a, b) ==> a != b && !Precedes(h, b, a)
  {
    LessTotal(a, b);
    LessIrreflexive(a);
    if Less(a, b) { LessAsymmetric(a, b); }
  }

  // ---- Shape of insertion ----

  /** A rotation regroups three key sets around the lifted key `k` and its old parent `m`. */
  lemma RightRegroup<T>(h: Hashing<T>, a: set<string>, k: string, b: set<string>, m: string, c: set<string>, l: set<string>)
    requires Divides(h, a, k, b) && Divides(h, l, m, c) && a + {k} + b == l + {k}
    requires Less(k, m) && Precedes(h, k, m)
    ensures Divides(h, b, m, c) && Divides(h, a, k, b + {m} + c)
    ensures a + {k} + (b + {m} + c) == l + {m} + c + {k}
  {
    forall q | q in b ensures q in l {
      LessIrreflexive(k);
    }
    forall q | q in c ensures Less(k, q) && Precedes(h, k, q) {
      LessTransitive(k, m, q);
      PrecedesTransitive(h, k, m, q);
    }
  }

  lemma LeftRegroup<T>(h: Hashing<T>, a: set<string>, m: string, b: set<string>, k: string, c: set<string>, r: set<string>)
    requires Divides(h, b, k, c) && Divides(h, a, m, r) && b + {k} + c == r + {k}
    requires Less(m, k) && Precedes(h, k, m)
    ensures Divides(h, a, m, b) && Divides(h, a + {m} + b, k, c)
    ensures (a + {m} + b) + {k} + c == a + {m} + r + {k}
  {
    forall q | q in b ensures q in r {
      LessIrreflexive(k);
    }
    forall q | q in a ensures Less(q, k) && Precedes(h, k, q) {
      LessTransitive(q, m, k);
      PrecedesTransitive(h, k, m, q);
    }
  }

  lemma MakeNodeCanonical<T>(h: Hashing<T>, key: string, value: T, left: Tree<T>, right: Tree<T>)
    requires Canonical(h, left) && Canonical(h, right) && Divides(h, Keys(left), key, Keys(right))
    ensures Canonical(h, MakeNode(h, key, value, left, right))
    ensures Keys(MakeNode(h, key, value, left, right)) == Keys(left) + {key} + Keys(right)
  {
  }

  lemma RotateRight<T>(h: Hashing<T>, key: string, value: T, right: Tree<T>, child: Tree<T>, l: set<string>)
    requires child.Node? && Canonical(h, child) && Canonical(h, right) && Divides(h, l, key, Keys(right))
    requires Keys(child) == l + {child.key} && Less(child.key, key) && Precedes(h, child.key, key)
    ensures var r := MakeNode(h, child.key, child.value, child.left, MakeNode(h, key, value, child.right, right));
            Canonical(h, r) && Keys(r) == l + {key} + Keys(right) + {child.key}
  {
    RightRegroup(h, Keys(child.left), child.key, Keys(child.right), key, Keys(right), l);
    MakeNodeCanonical(h, key, value, child.right, right);
    MakeNodeCanonical(h, child.key, child.value, child.left, MakeNode(h, key, value, child.right, right));
  }

  lemma RotateLeft<T>(h: Hashing<T>, key: string, value: T, left: Tree<T>, child: Tree<T>, r: set<string>)
    requires child.Node? && Canonical(h, child) && Canonical(h, left) && Divides(h, Keys(left), key, r)
    requires Keys(child) == r + {child.key} && Less(key, child.key) && Precedes(h, child.key, key)
    ensures var n := MakeNode(h, child.key, child.value, MakeNode(h, key, value, left, child.left), child.right);
            Canonical(h, n) && Keys(n) == Keys(left) + {key} + r + {child.key}
  {
    LeftRegroup(h, Keys(left), key, Keys(child.left), child.key, Keys(child.right), r);
    MakeNodeCanonical(h, key, value, left, child.left);
    MakeNodeCanonical(h, child.key, child.value, MakeNode(h, key, value, left, child.left), child.right);
  }

  /** No rotation: a root that may stay on top dominates everything below it. */
  lemma RootDominates<T>(h: Hashing<T>, t: Tree<T>, top: string)
    requires t.Node? && Canonical(h, t) && Precedes(h, top, t.key)
    ensures forall k | k in Keys(t) :: Precedes(h, top, k)
  {
    forall k | k in Keys(t) ensures Precedes(h, top, k) {
      if k != t.key { PrecedesTransitive(h, top, t.key, k); }
    }
  }

  lemma {:induction false} InsertShape<T>(h: Hashing<T>, t: Tree<T>, key: string, value: T)
    requires Canonical(h, t)
    ensures Canonical(h, Insert(h, t, key, value))
    ensures Keys(Insert(h, t, key, value)) == Keys(t) + {key}
    ensures Insert(h, t, key, value).Node?
  {
    if t.Leaf? || key == t.key {
    } else if Less(key, t.key) {
      InsertShape(h, t.left, key, value);
      var left := Insert(h, t.left, key, value);
      PrecedesTotal(h, left.key, t.key);
      if Above(left, t) {
        RotateRight(h, t.key, t.value, t.right, left, Keys(t.left));
      } else {
        RootDominates(h, left, t.key);
        MakeNodeCanonical(h, t.key, t.value, left, t.right);
      }
    } else {
      LessTotal(key, t.key);
      InsertShape(h, t.right, key, value);
      var right := Insert(h, t.right, key, value);
      PrecedesTotal(h, right.key, t.key);
      if Above(right, t) {
        RotateLeft(h, t.key, t.value, t.left, right, Keys(t.right));
      } else {
        RootDominates(h, right, t.key);
        MakeNodeCanonical(h, t.key, t.value, t.left, right);
      }
    }
  }

  lemma {:induction false} MergeShape<T>(h: Hashing<T>, l: Tree<T>, r: Tree<T>)
    requires Canonical(h, l) && Canonical(h, r)
    requires forall a, b | a in Keys(l) && b in Keys(r) :: Less(a, b)
    ensures Canonical(h, Merge(h, l, r)) && Keys(Merge(h, l, r)) == Keys(l) + Keys(r)
  {
    if l.Node? && r.Node? {
      PrecedesTotal(h, l.key, r.key);
      LessIrreflexive(l.key);
      if Above(l, r) {
        MergeShape(h, l.right, r);
        RootDominates(h, r, l.key);
        MakeNodeCanonical(h, l.key, l.value, l.left, Merge(h, l.right, r));
      } else {
        MergeShape(h, l, r.left);
        RootDominates(h, l, r.key);
        MakeNodeCanonical(h, r.key, r.value, Merge(h, l, r.left), r.right);
      }
    }
  }

  /** The keys on the two sides of a root, seen from the whole tree. */
  lemma Sides<T>(h: Hashing<T>, t: Tree<T>, k: string)
    requires t.Node? && Canonical(h, t)
    ensures k in Keys(t.left) <==> k in Keys(t) && Less(k, t.key)
    ensures k in Keys(t.right) <==> k in Keys(t) && Less(t.key, k)
    ensures k in Keys(t.left) ==> Find(t.left, k) == Find(t, k)
    ensures k in Keys(t.right) ==> Find(t.right, k) == Find(t, k)
  {
    LessIrreflexive(t.key);
    if Less(k, t.key) { LessAsymmetric(k, t.key); }
    if Less(t.key, k) { LessAsymmetric(t.key, k); }
  }

  lemma {:induction false} RemoveShape<T>(h: Hashing<T>, t: Tree<T>, key: string)
    requires Canonical(h, t)
    ensures Canonical(h, Remove(h, t, key)) && Keys(Remove(h, t, key)) == Keys(t) - {key}
  {
    if t.Leaf? {
    } else if key == t.key {
      Sides(h, t, key);
      LessIrreflexive(key);
      forall a, b | a in Keys(t.left) && b in Keys(t.right) ensures Less(a, b) {
        LessTransitive(a, t.key, b);
      }
      MergeShape(h, t.left, t.right);
    } else if Less(key, t.key) {
      Sides(h, t, key);
      LessAsymmetric(key, t.key);
      RemoveShape(h, t.left, key);
      MakeNodeCanonical(h, t.key, t.value, Remove(h, t.left, key), t.right);
    } else {
      Sides(h, t, key);
      RemoveShape(h, t.right, key);
      MakeNodeCanonical(h, t.key, t.value, t.left, Remove(h, t.right, key));
    }
  }

  // ---- Lookups after insertion and removal ----

  lemma {:induction false} FindKeys<T>(h: Hashing<T>, t: Tree<T>, k: string)
    requires Canonical(h, t)
    ensures Find(t, k).Some? <==> k in Keys(t)
  {
    if t.Node? {
      Sides(h, t, k);
      LessTotal(k, t.key);
      LessIrreflexive(t.key);
      if Less(k, t.key) { FindKeys(h, t.left, k); } else { FindKeys(h, t.right, k); }
    }
  }

  /** Rotations do not change what any search finds. */
  lemma RotationFind<T>(h: Hashing<T>, m: string, w: T, k: string, v: T, a: Tree<T>, b: Tree<T>, c: Tree<T>, q: string)
    requires Less(k, m)
    ensures Find(MakeNode(h, k, v, a, MakeNode(h, m, w, b, c)), q) == Find(MakeNode(h, m, w, MakeNode(h, k, v, a, b), c), q)
  {
    LessTotal(q, k);
    LessAsymmetric(k, m);
    if Less(q, k) { LessTransitive(q, k, m); LessAsymmetric(q, m); }
    if Less(m, q) { LessTransitive(k, m, q); LessAsymmetric(m, q); LessAsymmetric(k, q); }
  }

  lemma {:induction false} InsertFind<T>(h: Hashing<T>, t: Tree<T>, key: string, value: T, q: string)
    requires Canonical(h, t)
    ensures Find(Insert(h, t, key, value), q) == if q == key then Some(value) else Find(t, q)
  {
    if t.Leaf? || key == t.key {
    } else if Less(key, t.key) {
      InsertFind(h, t.left, key, value, q);
      InsertShape(h, t.left, key, value);
      InsertLeftFind(h, t, key, value, q);
      LessIrreflexive(t.key);
    } else {
      InsertFind(h, t.right, key, value, q);
      InsertShape(h, t.right, key, value);
      InsertRightFind(h, t, key, value, q);
    }
  }

  /** Whether or not it rotates, `Insert` finds what the plainly rebuilt node finds. */
  lemma InsertLeftFind<T>(h: Hashing<T>, t: Tree<T>, key: string, value: T, q: string)
    requires t.Node? && Canonical(h, t) && Less(key, t.key)
    requires var l := Insert(h, t.left, key, value); l.Node? && Keys(l) == Keys(t.left) + {key}
    ensures Find(Insert(h, t, key, value), q) == Find(MakeNode(h, t.key, t.value, Insert(h, t.left, key, value), t.right), q)
  {
    LessIrreflexive(t.key);
    var left := Insert(h, t.left, key, value);
    if Above(left, t) {
      RotationFind(h, t.key, t.value, left.key, left.value, left.left, left.right, t.right, q);
    }
  }

  lemma InsertRightFind<T>(h: Hashing<T>, t: Tree<T>, key: string, value: T, q: string)
    requires t.Node? && Canonical(h, t) && key != t.key && !Less(key, t.key)
    requires var r := Insert(h, t.right, key, value); r.Node? && Keys(r) == Keys(t.right) + {key}
    ensures Find(Insert(h, t, key, value), q) == Find(MakeNode(h, t.key, t.value, t.left, Insert(h, t.right, key, value)), q)
  {
    LessTotal(key, t.key);
    var right := Insert(h, t.right, key, value);
    if Above(right, t) {
      RotationFind(h, right.key, right.value, t.key, t.value, t.left, right.left, right.right, q);
    }
  }

  lemma {:induction false} MergeFind<T>(h: Hashing<T>, l: Tree<T>, r: Tree<T>, q: string)
    requires Canonical(h, l) && Canonical(h, r)
    requires forall a, b | a in Keys(l) && b in Keys(r) :: Less(a, b)
    ensures Find(Merge(h, l, r), q) == if q in Keys(l) then Find(l, q) else Find(r, q)
  {
    FindKeys(h, l, q);
    FindKeys(h, r, q);
    if l.Node? && r.Node? {
      if Above(l, r) {
        MergeFind(h, l.right, r, q);
        Sides(h, l, q);
        if q in Keys(r) { LessAsymmetric(l.key, q); }
      } else {
        MergeFind(h, l, r.left, q);
        Sides(h, r, q);
        if q in Keys(l) { LessAsymmetric(q, r.key); }
      }
    }
  }

  lemma {:induction false} RemoveFind<T>(h: Hashing<T>, t: Tree<T>, key: string, q: string)
    requires Canonical(h, t)
    ensures Find(Remove(h, t, key), q) == if q == key then None else Find(t, q)
  {
    if t.Leaf? {
    } else if key == t.key {
      forall a, b | a in Keys(t.left) && b in Keys(t.right) ensures Less(a, b) {
        LessTransitive(a, t.key, b);
      }
      MergeFind(h, t.left, t.right, q);
      Sides(h, t, q);
      FindKeys(h, t, q);
      FindKeys(h, t.right, q);
      LessIrreflexive(key);
      if q in Keys(t.left) {} else if q != key { FindKeys(h, t.left, q); LessTotal(q, key); }
    } else if Less(key, t.key) {
      RemoveFind(h, t.left, key, q);
      LessIrreflexive(t.key);
    } else {
      RemoveFind(h, t.right, key, q);
    }
  }

  // ---- The map a tree stands for ----

  ghost function Contents<T>(t: Tree<T>): map<string, T> {
    map k | k in Keys(t) && Find(t, k).Some? :: Find(t, k).value
  }

  /** A canonical tree is a map: lookups, insertion and removal are the map's own. */
  lemma ContentsFind<T>(h: Hashing<T>, t: Tree<T>, k: string)
    requires Canonical(h, t)
    ensures Find(t, k) == if k in Contents(t) then Some(Contents(t)[k]) else None
    ensures Contents(t).Keys == Keys(t)
  {
    forall q ensures Find(t, q).Some? <==> q in Keys(t) { FindKeys(h, t, q); }
  }

  lemma InsertContents<T>(h: Hashing<T>, t: Tree<T>, key: string, value: T)
    requires Canonical(h, t)
    ensures Canonical(h, Insert(h, t, key, value))
    ensures Contents(Insert(h, t, key, value)) == Contents(t)[key := value]
  {
    InsertShape(h, t, key, value);
    var r := Insert(h, t, key, value);
    forall q
      ensures q in Contents(r) <==> q in Contents(t)[key := value]
      ensures q in Contents(r) ==> Contents(r)[q] == Contents(t)[key := value][q]
    {
      InsertFind(h, t, key, value, q);
      ContentsFind(h, t, q);
      ContentsFind(h, r, q);
    }
  }

  lemma RemoveContents<T>(h: Hashing<T>, t: Tree<T>, key: string)
    requires Canonical(h, t)
    ensures Canonical(h, Remove(h, t, key))
    ensures Contents(Remove(h, t, key)) == Contents(t) - {key}
  {
    RemoveShape(h, t, key);
    forall q { RemoveFind(h, t, key, q); }
  }

  // ---- Canonicity ----

  /** Only one key can be the root: the one that goes above all others. */
  lemma RootUnique<T>(h: Hashing<T>, a: Tree<T>, b: Tree<T>)
    requires Canonical(h, a) && Canonical(h, b) && a.Node? && b.Node? && Keys(a) == Keys(b)
    ensures a.key == b.key
  {
    assert a.key in Keys(a) && b.key in Keys(b);
    PrecedesTotal(h, a.key, b.key);
  }

  /** Content-identical trees are identical, cached priorities, sizes and digests included. */
  lemma {:induction false} SameContents<T>(h: Hashing<T>, a: Tree<T>, b: Tree<T>)
    requires Canonical(h, a) && Canonical(h, b)
    requires Keys(a) == Keys(b) && forall k | k in Keys(a) :: Find(a, k) == Find(b, k)
    ensures a == b
  {
    if a.Node? && b.Node? {
      RootUnique(h, a, b);
      assert Find(a, a.key) == Find(b, a.key);
      SameSides(h, a, b);
      SameContents(h, a.left, b.left);
      SameContents(h, a.right, b.right);
    }
  }

  /** Looking up `k` gives the same in both trees. */
  ghost predicate AgreeOn<T>(a: Tree<T>, b: Tree<T>, k: string) {
    (k in Keys(a) <==> k in Keys(b)) && (k in Keys(a) ==> Find(a, k) == Find(b, k))
  }

  lemma AgreeEverywhere<T>(a: Tree<T>, b: Tree<T>)
    requires forall k :: AgreeOn(a, b, k)
    ensures Keys(a) == Keys(b) && forall k | k in Keys(a) :: Find(a, k) == Find(b, k)
  {
    forall k ensures k in Keys(a) <==> k in Keys(b) ensures k in Keys(a) ==> Find(a, k) == Find(b, k) { assert AgreeOn(a, b, k); }
  }

  lemma SameSides<T>(h: Hashing<T>, a: Tree<T>, b: Tree<T>)
    requires Canonical(h, a) && Canonical(h, b) && a.Node? && b.Node? && a.key == b.key
    requires Keys(a) == Keys(b) && forall k | k in Keys(a) :: Find(a, k) == Find(b, k)
    ensures Keys(a.left) == Keys(b.left) && forall k | k in Keys(a.left) :: Find(a.left, k) == Find(b.left, k)
    ensures Keys(a.right) == Keys(b.right) && forall k | k in Keys(a.right) :: Find(a.right, k) == Find(b.right, k)
  {
    forall k ensures AgreeOn(a.left, b.left, k) && AgreeOn(a.right, b.right, k) { SameSide(h, a, b, k); }
    AgreeEverywhere(a.left, b.left);
    AgreeEverywhere(a.right, b.right);
  }

  lemma SameSide<T>(h: Hashing<T>, a: Tree<T>, b: Tree<T>, k: string)
    requires Canonical(h, a) && Canonical(h, b) && a.Node? && b.Node? && a.key == b.key && AgreeOn(a, b, k)
    ensures AgreeOn(a.left, b.left, k) && AgreeOn(a.right, b.right, k)
  {
    Sides(h, a, k);
    Sides(h, b, k);
  }

  lemma EqualContents<T>(h: Hashing<T>, a: Tree<T>, b: Tree<T>)
    requires Canonical(h, a) && Canonical(h, b) && Contents(a) == Contents(b)
    ensures a == b
  {
    forall k ensures Find(a, k) == Find(b, k) {
      ContentsFind(h, a, k);
      ContentsFind(h, b, k);
    }
    ContentsFind(h, a, "");
    ContentsFind(h, b, "");
    SameContents(h, a, b);
  }

  /** Inserts every entry of an ordinary map. */
  method FromMap<T>(h: Hashing<T>, m: map<string, T>) returns (t: Tree<T>)
    ensures Canonical(h, t) && Contents(t) == m
  {
    t := Leaf;
    var todo := m.Keys;
    while todo != {}
      invariant Canonical(h, t) && todo <= m.Keys && Contents(t).Keys == m.Keys - todo
      invariant forall k | k in Contents(t) :: Contents(t)[k] == m[k]
    {
      var k :| k in todo;
      InsertContents(h, t, k, m[k]);
      t := Insert(h, t, k, m[k]);
      todo := todo - {k};
    }
  }

  // ---- Histories ----

  datatype Edit<T> = Put(key: string, value: T) | Delete(key: string)

  function Replay<T>(h: Hashing<T>, edits: seq<Edit<T>>): Tree<T> {
    if edits == [] then Leaf
    else
      var before := Replay(h, edits[..|edits| - 1]);
      match edits[|edits| - 1]
      case Put(k, v) => Insert(h, before, k, v)
      case Delete(k) => Remove(h, before, k)
  }

  /** What the same edits leave in an ordinary map. */
  ghost function Outcome<T>(edits: seq<Edit<T>>): map<string, T> {
    if edits == [] then map[]
    else
      var before := Outcome(edits[..|edits| - 1]);
      match edits[|edits| - 1]
      case Put(k, v) => before[k := v]
      case Delete(k) => before - {k}
  }

  lemma {:induction false} ReplayContents<T>(h: Hashing<T>, edits: seq<Edit<T>>)
    ensures Canonical(h, Replay(h, edits)) && Contents(Replay(h, edits)) == Outcome(edits)
  {
    if edits != [] {
      var before := edits[..|edits| - 1];
      ReplayContents(h, before);
      match edits[|edits| - 1]
      case Put(k, v) => InsertContents(h, Replay(h, before), k, v);
      case Delete(k) => RemoveContents(h, Replay(h, before), k);
    }
  }

  /** Any two histories of inserts and removes build the same tree exactly when they leave the same map. */
  lemma HistoryIndependent<T>(h: Hashing<T>, a: seq<Edit<T>>, b: seq<Edit<T>>)
    ensures Replay(h, a) == Replay(h, b) <==> Outcome(a) == Outcome(b)
  {
    ReplayContents(h, a);
    ReplayContents(h, b);
    if Outcome(a) == Outcome(b) { EqualContents(h, Replay(h, a), Replay(h, b)); }
  }

  // ---- Merkle digests ----

  ghost predicate CollisionFree<T>(h: Hashing<T>) {
    && (forall a, b :: h.digest(a) == h.digest(b) ==> a == b)
    && (forall a :: h.digest(a) != EMPTY_DIGEST)
  }

  ghost function Revisions<T>(h: Hashing<T>, t: Tree<T>): map<string, string> {
    map k | k in Contents(t) :: h.revision(Contents(t)[k])
  }

  /** The tree with every value replaced by its revision: all that a digest depends on. */
  ghost function Stamp<T>(h: Hashing<T>, t: Tree<T>): Tree<string> {
    if t.Leaf? then Leaf
    else Node(t.key, h.revision(t.value), t.priority, Stamp(h, t.left), Stamp(h, t.right), t.size, t.digest)
  }

  ghost function Stamping<T>(h: Hashing<T>): Hashing<string> {
    Hashing(h.priority, (r: string) => r, h.digest)
  }

  lemma {:induction false} StampKeys<T>(h: Hashing<T>, t: Tree<T>)
    ensures Keys(Stamp(h, t)) == Keys(t) && Len(Stamp(h, t)) == Len(t) && Digest(Stamp(h, t)) == Digest(t)
  {
    if t.Node? {
      StampKeys(h, t.left);
      StampKeys(h, t.right);
    }
  }

  lemma {:induction false} StampCanonical<T>(h: Hashing<T>, t: Tree<T>)
    requires Canonical(h, t)
    ensures Canonical(Stamping(h), Stamp(h, t))
  {
    if t.Node? {
      StampCanonical(h, t.left);
      StampCanonical(h, t.right);
      StampKeys(h, t.left);
      StampKeys(h, t.right);
      var s := Stamp(h, t);
      forall k | k in Keys(t.left) + Keys(t.right) ensures Precedes(Stamping(h), t.key, k) {
        assert Precedes(h, t.key, k);
      }
      assert s == MakeNode(Stamping(h), s.key, s.value, s.left, s.right);
    }
  }

  lemma {:induction false} StampFind<T>(h: Hashing<T>, t: Tree<T>, k: string)
    ensures Find(Stamp(h, t), k) == if Find(t, k).Some? then Some(h.revision(Find(t, k).value)) else None
  {
    if t.Node? && k != t.key {
      StampFind(h, if Less(k, t.key) then t.left else t.right, k);
    }
  }

  lemma StampContents<T>(h: Hashing<T>, t: Tree<T>)
    requires Canonical(h, t)
    ensures Contents(Stamp(h, t)) == Revisions(h, t)
  {
    StampKeys(h, t);
    forall k ensures k in Contents(Stamp(h, t)) <==> k in Contents(t)
             ensures k in Contents(t) ==> Contents(Stamp(h, t))[k] == h.revision(Contents(t)[k]) {
      StampFind(h, t, k);
    }
  }

  lemma {:induction false} SameDigestSameStamp<T>(h: Hashing<T>, a: Tree<T>, b: Tree<T>)
    requires Canonical(h, a) && Canonical(h, b) && CollisionFree(h) && Digest(a) == Digest(b)
    ensures Stamp(h, a) == Stamp(h, b)
  {
    if a.Node? && b.Node? {
      var pa := [Digest(a.left), a.key, h.revision(a.value), Digest(a.right)];
      var pb := [Digest(b.left), b.key, h.revision(b.value), Digest(b.right)];
      assert pa == pb;
      assert pa[0] == pb[0] && pa[1] == pb[1] && pa[2] == pb[2] && pa[3] == pb[3];
      SameDigestSameStamp(h, a.left, b.left);
      SameDigestSameStamp(h, a.right, b.right);
      StampKeys(h, a.left);
      StampKeys(h, a.right);
      StampKeys(h, b.left);
      StampKeys(h, b.right);
    }
  }

  /** A root digest identifies the key-to-revision map, and nothing less. */
  lemma DigestIdentifies<T>(h: Hashing<T>, a: Tree<T>, b: Tree<T>)
    requires Canonical(h, a) && Canonical(h, b) && CollisionFree(h)
    ensures Digest(a) == Digest(b) <==> Revisions(h, a) == Revisions(h, b)
  {
    StampContents(h, a);
    StampContents(h, b);
    if Digest(a) == Digest(b) { SameDigestSameStamp(h, a, b); }
    if Revisions(h, a) == Revisions(h, b) {
      StampCanonical(h, a);
      StampCanonical(h, b);
      EqualContents(Stamping(h), Stamp(h, a), Stamp(h, b));
      StampKeys(h, a);
      StampKeys(h, b);
    }
  }

  /** With revisions that identify values, equal digests mean equal trees. */
  lemma DigestIdentifiesTree<T>(h: Hashing<T>, a: Tree<T>, b: Tree<T>)
    requires Canonical(h, a) && Canonical(h, b) && CollisionFree(h)
    requires forall x, y :: h.revision(x) == h.revision(y) ==> x == y
    ensures Digest(a) == Digest(b) <==> a == b
  {
    if Digest(a) == Digest(b) {
      DigestIdentifies(h, a, b);
      SameRevisions(h, a, b);
      EqualContents(h, a, b);
    }
  }

  lemma SameRevisions<T>(h: Hashing<T>, a: Tree<T>, b: Tree<T>)
    requires Revisions(h, a) == Revisions(h, b) && forall x, y :: h.revision(x) == h.revision(y) ==> x == y
    ensures Contents(a) == Contents(b)
  {
    assert Contents(a).Keys == Revisions(h, a).Keys && Contents(b).Keys == Revisions(h, b).Keys;
    forall k | k in Contents(a) ensures Contents(a)[k] == Contents(b)[k] {
      assert Revisions(h, a)[k] == Revisions(h, b)[k];
    }
  }

  // ---- In-order iteration ----

  function Entries<T>(t: Tree<T>): seq<(string, T)> {
    if t.Leaf? then [] else Entries(t.left) + [(t.key, t.value)] + Entries(t.right)
  }

  /** The iterator of the original: a stack of nodes whose left side is already done. */
  class Iter<T> {
    var stack: seq<Tree<T>>

    ghost predicate Valid()
      reads this
    {
      forall i | 0 <= i < |stack| :: stack[i].Node?
    }

    /** Everything still to come, in order. */
    ghost function Remaining(): seq<(string, T)>
      requires Valid()
      reads this
    {
      Pending(stack)
    }

    constructor (t: Tree<T>)
      ensures Valid() && Remaining() == Entries(t)
    {
      stack := [];
      new;
      Descend(t);
    }

    method Descend(t: Tree<T>)
      requires Valid()
      modifies this
      ensures Valid() && Remaining() == Entries(t) + old(Remaining())
    {
      var node := t;
      while node.Node?
        invariant Valid()
        invariant Entries(node) + Remaining() == Entries(t) + old(Remaining())
        decreases node
      {
        PendingPush(stack, node);
        stack := stack + [node];
        node := node.left;
      }
    }

    method Next() returns (r: Option<(string, T)>)
      requires Valid()
      modifies this
      ensures Valid()
      ensures old(Remaining()) == if r.None? then [] else [r.value] + Remaining()
      ensures r.None? ==> Remaining() == []
    {
      if stack == [] { return None; }
      var node := stack[|stack| - 1];
      stack := stack[..|stack| - 1];
      Descend(node.right);
      return Some((node.key, node.value));
    }
  }

  lemma PendingPush<T>(stack: seq<Tree<T>>, node: Tree<T>)
    requires node.Node? && forall i | 0 <= i < |stack| :: stack[i].Node?
    ensures Entries(node) + Pending(stack) == Entries(node.left) + Pending(stack + [node])
  {
    assert (stack + [node])[..|stack|] == stack;
    Regroup(Entries(node.left), [(node.key, node.value)], Entries(node.right), Pending(stack));
  }

  lemma Regroup<A>(a: seq<A>, b: seq<A>, c: seq<A>, d: seq<A>)
    ensures (a + b + c) + d == a + (b + c + d)
  {
  }

  ghost function Pending<T>(stack: seq<Tree<T>>): seq<(string, T)>
    requires forall i | 0 <= i < |stack| :: stack[i].Node?
  {
    if stack == [] then []
    else
      var top := stack[|stack| - 1];
      [(top.key, top.value)] + Entries(top.right) + Pending(stack[..|stack| - 1])
  }

  lemma {:induction false} EntriesKeys<T>(h: Hashing<T>, t: Tree<T>, i: nat)
    requires Canonical(h, t) && i < |Entries(t)|
    ensures Entries(t)[i].0 in Keys(t) && Find(t, Entries(t)[i].0) == Some(Entries(t)[i].1)
  {
    var n := |Entries(t.left)|;
    LessIrreflexive(t.key);
    if i < n {
      EntriesKeys(h, t.left, i);
    } else if i > n {
      EntriesKeys(h, t.right, i - n - 1);
      LessAsymmetric(t.key, Entries(t)[i].0);
    }
  }

  /** Iteration visits each entry once, in ascending key order. */
  lemma {:induction false} EntriesAscending<T>(h: Hashing<T>, t: Tree<T>, i: nat, j: nat)
    requires Canonical(h, t) && i < j < |Entries(t)|
    ensures Less(Entries(t)[i].0, Entries(t)[j].0)
  {
    var n := |Entries(t.left)|;
    if j < n {
      EntriesAscending(h, t.left, i, j);
    } else if n < i {
      EntriesAscending(h, t.right, i - n - 1, j - n - 1);
    } else {
      if i < n { EntriesKeys(h, t.left, i); }
      if n < j { EntriesKeys(h, t.right, j - n - 1); }
      if i < n < j { LessTransitive(Entries(t)[i].0, t.key, Entries(t)[j].0); }
    }
  }

  lemma {:induction false} EntriesComplete<T>(t: Tree<T>, k: string)
    requires k in Keys(t)
    ensures exists i :: 0 <= i < |Entries(t)| && Entries(t)[i].0 == k
  {
    var n := |Entries(t.left)|;
    if k in Keys(t.left) {
      EntriesComplete(t.left, k);
      var i :| 0 <= i < n && Entries(t.left)[i].0 == k;
      assert Entries(t)[i].0 == k;
    } else if k == t.key {
      assert Entries(t)[n].0 == k;
    } else {
      EntriesComplete(t.right, k);
      var i :| 0 <= i < |Entries(t.right)| && Entries(t.right)[i].0 == k;
      assert Entries(t)[n + 1 + i].0 == k;
    }
  }

  /** The map that iteration presents. */
  function FromEntries<T>(entries: seq<(string, T)>): map<string, T> {
    if entries == [] then map[] else FromEntries(entries[1..])[entries[0].0 := entries[0].1]
  }

  lemma {:induction false} FromEntriesAt<T>(e: seq<(string, T)>, i: nat)
    requires i < |e| && forall j, k | 0 <= j < k < |e| :: e[j].0 != e[k].0
    ensures e[i].0 in FromEntries(e) && FromEntries(e)[e[i].0] == e[i].1
  {
    if i > 0 { FromEntriesAt(e[1..], i - 1); }
  }

  lemma {:induction false} FromEntriesKey<T>(e: seq<(string, T)>, k: string) returns (i: nat)
    requires k in FromEntries(e)
    ensures i < |e| && e[i].0 == k
  {
    if e[0].0 == k { i := 0; } else { i := FromEntriesKey(e[1..], k); i := i + 1; }
  }

  lemma EntryFound<T>(h: Hashing<T>, t: Tree<T>, k: string)
    requires Canonical(h, t) && k in Keys(t)
    ensures k in FromEntries(Entries(t)) && Some(FromEntries(Entries(t))[k]) == Find(t, k)
  {
    EntriesComplete(t, k);
    var i :| 0 <= i < |Entries(t)| && Entries(t)[i].0 == k;
    EntriesKeys(h, t, i);
    forall a, b | 0 <= a < b < |Entries(t)| ensures Entries(t)[a].0 != Entries(t)[b].0 {
      EntriesAscending(h, t, a, b);
      LessIrreflexive(Entries(t)[a].0);
    }
    FromEntriesAt(Entries(t), i);
  }

  lemma EntriesGive<T>(h: Hashing<T>, t: Tree<T>)
    requires Canonical(h, t)
    ensures FromEntries(Entries(t)) == Contents(t)
  {
    forall k ensures k in FromEntries(Entries(t)) <==> k in Contents(t)
             ensures k in Contents(t) ==> FromEntries(Entries(t))[k] == Contents(t)[k]
    {
      ContentsFind(h, t, k);
      if k in Keys(t) { EntryFound(h, t, k); }
      if k in FromEntries(Entries(t)) {
        var i := FromEntriesKey(Entries(t), k);
        EntriesKeys(h, t, i);
      }
    }
  }
}
