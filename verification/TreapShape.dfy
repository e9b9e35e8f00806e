/** The one tree of a catalog, field by field. */
module TreapShape {
  import opened Names
  import opened Treap

  ghost predicate Smaller(a: string, b: string) {
    exists i: nat :: FirstDiffers(a, b, i)
  }

  lemma {:induction false} SizeIs<T>(h: Hashing<T>, t: Tree<T>)
    requires Canonical(h, t)
    ensures Len(t) == |Keys(t)|
  {
    if t.Node? {
      SizeIs(h, t.left);
      SizeIs(h, t.right);
      LessIrreflexive(t.key);
      forall k | k in Keys(t.left) ensures k !in Keys(t.right) && k != t.key {
        if k in Keys(t.right) { LessAsymmetric(k, t.key); }
      }
      DisjointSizes(Keys(t.left), t.key, Keys(t.right));
    }
  }

  lemma DisjointSizes(a: set<string>, k: string, b: set<string>)
    requires a !! b && k !in a && k !in b
    ensures |a + {k} + b| == |a| + 1 + |b|
  {
    assert (a + {k}) !! b;
  }

  /** The root has the least priority of all keys, the smaller key among equals. */
  lemma RootLeads<T>(h: Hashing<T>, t: Tree<T>, k: string)
    requires Canonical(h, t) && t.Node? && k in Contents(t) && k != t.key
    ensures h.priority(t.key) < h.priority(k) || (h.priority(t.key) == h.priority(k) && Smaller(t.key, k))
  {
    ContentsFind(h, t, k);
    LessExactly(t.key, k);
  }

  /** Smaller keys are on the left, larger ones on the right. */
  lemma SidesExactly<T>(h: Hashing<T>, t: Tree<T>, k: string)
    requires Canonical(h, t) && t.Node?
    ensures k in Contents(t.left) <==> k in Contents(t) && Smaller(k, t.key)
    ensures k in Contents(t.right) <==> k in Contents(t) && Smaller(t.key, k)
  {
    ContentsFind(h, t, k);
    ContentsFind(h, t.left, k);
    ContentsFind(h, t.right, k);
    Sides(h, t, k);
    LessExactly(k, t.key);
    LessExactly(t.key, k);
  }

  /** Size, priority and digest are those of what the tree holds. */
  lemma FieldsExactly<T>(h: Hashing<T>, t: Tree<T>)
    requires Canonical(h, t) && t.Node?
    ensures t.key in Contents(t) && Contents(t)[t.key] == t.value
    ensures t.size == |Contents(t)| && t.priority == h.priority(t.key)
    ensures
      var left := if t.left.Leaf? then "semantic-catalog-v2-empty" else t.left.digest;
      var right := if t.right.Leaf? then "semantic-catalog-v2-empty" else t.right.digest;
      t.digest == h.digest([left, t.key, h.revision(t.value), right])
  {
    ContentsFind(h, t, t.key);
    SizeIs(h, t);
    assert |Contents(t).Keys| == |Contents(t)|;
  }
}
