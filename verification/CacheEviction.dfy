/** One pass of `evict` over the cache directory while no lease changes. */
module CacheEviction {
  import opened CacheDisk
  import opened CacheProtocol
  import opened Names
  import opened Sorting
  import opened Widths

  /** Oldest first; the name stands for the unspecified order of a directory listing. */
  function ByAge(m: map<Generation, Directory>): (Generation, Generation) -> bool {
    (a: Generation, b: Generation) =>
      a in m && b in m && (m[a].acquired < m[b].acquired || (m[a].acquired == m[b].acquired && Less(a, b)))
  }

  lemma ByAgeStrict(m: map<Generation, Directory>, s: seq<Generation>)
    requires forall g | g in s :: g in m
    ensures StrictOn(ByAge(m), s)
  {
    forall a, b | a in s && b in s ensures !ByAge(m)(a, a) ensures a == b || ByAge(m)(a, b) || ByAge(m)(b, a) {
      LessIrreflexive(a);
      LessTotal(a, b);
    }
    forall a, b, c | a in s && b in s && c in s && ByAge(m)(a, b) && ByAge(m)(b, c) ensures ByAge(m)(a, c) {
      if m[a].acquired == m[b].acquired && m[b].acquired == m[c].acquired { LessTransitive(a, b, c); }
    }
  }

  lemma ScanSorted(m: map<Generation, Directory>, found: seq<Generation>)
    requires Distinct(found) && forall g :: g in found <==> g in m && HasManifest(m[g])
    ensures Scan(m, Sort(ByAge(m), found))
  {
    ByAgeStrict(m, found);
    SortSorts(ByAge(m), found);
    SortMembers(ByAge(m), found);
    RearrangedDistinct(found, Sort(ByAge(m), found));
  }

  /** How far an eviction has come: `queue[..i]` has been looked at. */
  ghost predicate Evicted(m: map<Generation, Directory>, leased: set<Generation>, queue: seq<Generation>, i: nat, n: map<Generation, Directory>) {
    && i <= |queue|
    && n.Keys <= m.Keys && (forall g | g in n :: n[g] == m[g])
    && (forall g | g in m :: g !in n <==> g in queue[..i] && g !in leased)
  }

  /** Of the pointers of `c`, those survive whose generation was not deleted. */
  ghost predicate PointersFollow(m: map<Generation, Directory>, n: map<Generation, Directory>, c: map<Key, Generation>, d: map<Key, Generation>) {
    && (forall k | k in d :: k in c && d[k] == c[k])
    && (forall k | k in c :: k !in d <==> c[k] in m && c[k] !in n && m[c[k]].key == k)
  }

  lemma EvictOne(m: map<Generation, Directory>, leased: set<Generation>, queue: seq<Generation>, i: nat, n: map<Generation, Directory>)
    requires Evicted(m, leased, queue, i, n) && Scan(m, queue) && i < |queue|
    ensures queue[i] in n && HasManifest(n[queue[i]])
    ensures queue[i] in leased ==> Evicted(m, leased, queue, i + 1, n)
    ensures queue[i] !in leased ==> Evicted(m, leased, queue, i + 1, Without(n, queue[i]))
  {
    assert queue[..i + 1] == queue[..i] + [queue[i]];
    assert queue[i] !in queue[..i];
    assert queue[i] in queue;
  }

  function Unpoint(d: map<Key, Generation>, key: Key, g: Generation): map<Key, Generation> {
    if key in d && d[key] == g then Without(d, key) else d
  }

  lemma PointerStep(m: map<Generation, Directory>, n: map<Generation, Directory>, c: map<Key, Generation>, d: map<Key, Generation>, g: Generation)
    requires PointersFollow(m, n, c, d) && g in n && n.Keys <= m.Keys && n[g] == m[g]
    ensures PointersFollow(m, Without(n, g), c, Unpoint(d, m[g].key, g))
  {
  }

  /** The last look was taken because what was left still did not fit. */
  ghost predicate LastLookNeeded(m: map<Generation, Directory>, leased: set<Generation>, queue: seq<Generation>, i: nat, requested: nat, budget: nat) {
    i > 0 ==> exists n :: Evicted(m, leased, queue, i - 1, n) && Used(n) + requested > budget
  }

  /** From generations `m` and pointers `c`, looking at `queue[..i]` has left `n` and `d`. */
  ghost predicate Progress(m: map<Generation, Directory>, c: map<Key, Generation>, leased: set<Generation>, requested: nat, budget: nat,
                           queue: seq<Generation>, i: nat, n: map<Generation, Directory>, d: map<Key, Generation>) {
    && Scan(m, queue)
    && Evicted(m, leased, queue, i, n)
    && PointersFollow(m, n, c, d)
    && LastLookNeeded(m, leased, queue, i, requested, budget)
  }

  lemma ProgressStep(m: map<Generation, Directory>, c: map<Key, Generation>, leased: set<Generation>, requested: nat, budget: nat,
                     queue: seq<Generation>, i: nat, n: map<Generation, Directory>, d: map<Key, Generation>)
    requires Progress(m, c, leased, requested, budget, queue, i, n, d) && i < |queue| && Used(n) + requested > budget
    ensures queue[i] in n && Used(n) == n[queue[i]].disk + Used(Without(n, queue[i]))
    ensures queue[i] in leased ==> Progress(m, c, leased, requested, budget, queue, i + 1, n, d)
    ensures queue[i] !in leased ==>
      Progress(m, c, leased, requested, budget, queue, i + 1, Without(n, queue[i]), Unpoint(d, n[queue[i]].key, queue[i]))
  {
    EvictOne(m, leased, queue, i, n);
    UsedWithout(n, queue[i]);
    PointerStep(m, n, c, d, queue[i]);
  }

  /** The disk bytes that leases keep from being evicted. */
  ghost function Pinned(m: map<Generation, Directory>, leased: set<Generation>): nat {
    Used(m - (m.Keys - leased))
  }

  lemma {:induction false} UsedSubset(m: map<Generation, Directory>, n: map<Generation, Directory>)
    requires n.Keys <= m.Keys && forall g | g in n :: n[g] == m[g]
    ensures Used(n) <= Used(m)
    decreases m.Keys
  {
    if g :| g in m && g !in n {
      UsedWithout(m, g);
      UsedSubset(Without(m, g), n);
    } else {
      assert m == n;
    }
  }

  /** Leased generations survive, so the result never falls below what they pin,
    * and is exactly that once every unleased generation is gone. */
  lemma EvictedPinned(m: map<Generation, Directory>, leased: set<Generation>, queue: seq<Generation>, i: nat, n: map<Generation, Directory>)
    requires Evicted(m, leased, queue, i, n) && Scan(m, queue)
    ensures Pinned(m, leased) <= Used(n)
    ensures i == |queue| ==> Used(n) == Pinned(m, leased)
  {
    var pinned := m - (m.Keys - leased);
    UsedSubset(n, pinned);
    if i == |queue| {
      assert queue[..i] == queue;
      UsedDrop(n, pinned);
    }
  }

  class CacheDirectory {
    var generations: map<Generation, Directory>
    var current: map<Key, Generation>

    /** Drops left-overs of dead fills and lists the readable manifests, oldest first. */
    method ScanDirectory() returns (queue: seq<Generation>, total: nat)
      modifies this`generations
      ensures generations == Cleaned(old(generations))
      ensures Scan(generations, queue) && total == Capped(Used(generations)) && Used(generations) == Used(old(generations))
    {
      var found: seq<Generation> := [];
      total := 0;
      var todo := generations.Keys;
      ghost var counted: map<Generation, Directory> := map[];
      while todo != {}
        invariant todo <= generations.Keys
        invariant counted.Keys == generations.Keys - todo && forall g | g in counted :: counted[g] == generations[g]
        invariant Distinct(found) && forall g :: g in found <==> g in counted && HasManifest(counted[g])
        invariant total == Capped(Used(counted)) && unchanged(this)
      {
        var g :| g in todo;
        ghost var more := counted[g := generations[g]];
        UsedWith(counted, g, generations[g]);
        UsedWithoutAbsent(counted, g);
        if HasManifest(generations[g]) {
          total := SaturatingAdd(total, generations[g].disk);
          found := found + [g];
        }
        counted := more;
        todo := todo - {g};
      }
      assert counted == generations;
      UsedDrop(generations, Cleaned(generations));
      ScanSorted(Cleaned(generations), found);
      generations := Cleaned(generations);
      queue := Sort(ByAge(generations), found);
    }

    /** Deletes unleased generations, oldest first, until the request fits; fails
      * exactly when the request does not fit beside the leased ones. With the
      * largest budget everything fits and only left-overs are removed. */
    method Evict(leased: set<Generation>, requested: nat, budget: nat) returns (ok: bool)
      requires requested <= U64_MAX && budget <= U64_MAX
      requires budget < U64_MAX ==> Used(generations) <= U64_MAX
      modifies this
      ensures requested > budget ==> !ok && unchanged(this)
      ensures budget < U64_MAX ==> (ok <==> requested <= budget && Pinned(old(generations), leased) + requested <= budget)
      ensures budget < U64_MAX && ok ==> Used(generations) + requested <= budget
      ensures budget == U64_MAX ==> ok && generations == Cleaned(old(generations)) && current == old(current)
      ensures requested <= budget ==> exists queue, i ::
        Progress(Cleaned(old(generations)), old(current), leased, requested, budget, queue, i, generations, current)
    {
      if requested > budget { return false; }
      PinnedCleaned(generations, leased);
      var queue, total := ScanDirectory();
      ok := EvictOldest(queue, total, leased, requested, budget);
    }

    /** Deletes one generation with the pointer to it, unless a reader leases it. */
    method Visit(ghost m: map<Generation, Directory>, ghost c: map<Key, Generation>, queue: seq<Generation>, i: nat, total: nat,
                 leased: set<Generation>, requested: nat, budget: nat) returns (left: nat)
      requires Progress(m, c, leased, requested, budget, queue, i, generations, current)
      requires i < |queue| && total == Used(generations) && total + requested > budget
      modifies this
      ensures Progress(m, c, leased, requested, budget, queue, i + 1, generations, current)
      ensures left == Used(generations) <= total
    {
      var g := queue[i];
      left := total;
      ProgressStep(m, c, leased, requested, budget, queue, i, generations, current);
      if g !in leased {
        left := SaturatingSub(total, generations[g].disk);
        current := Unpoint(current, generations[g].key, g);
        generations := Without(generations, g);
      }
    }

    method EvictOldest(queue: seq<Generation>, scanned: nat, leased: set<Generation>, requested: nat, budget: nat) returns (ok: bool)
      requires Scan(generations, queue) && requested <= budget <= U64_MAX
      requires scanned <= U64_MAX && (budget < U64_MAX ==> scanned == Used(generations))
      modifies this
      ensures budget < U64_MAX ==> (ok <==> Pinned(old(generations), leased) + requested <= budget)
      ensures budget < U64_MAX && ok ==> Used(generations) + requested <= budget
      ensures budget == U64_MAX ==> ok && unchanged(this)
      ensures exists i :: Progress(old(generations), old(current), leased, requested, budget, queue, i, generations, current)
    {
      ghost var m := generations;
      ghost var c := current;
      var total: nat := scanned;
      var i := 0;
      while i < |queue| && !Fits(total, requested, budget)
        invariant Progress(m, c, leased, requested, budget, queue, i, generations, current)
        invariant total <= U64_MAX && (budget < U64_MAX ==> total == Used(generations))
        invariant budget == U64_MAX ==> unchanged(this)
      {
        AdmissionIsExact(total, requested, budget);
        total := Visit(m, c, queue, i, total, leased, requested, budget);
        i := i + 1;
      }
      AdmissionIsExact(total, requested, budget);
      EvictedPinned(m, leased, queue, i, generations);
      return Fits(total, requested, budget);
    }
  }

  lemma PinnedCleaned(m: map<Generation, Directory>, leased: set<Generation>)
    ensures Pinned(Cleaned(m), leased) == Pinned(m, leased)
  {
    UsedDrop(m - (m.Keys - leased), Cleaned(m) - (Cleaned(m).Keys - leased));
  }
}
