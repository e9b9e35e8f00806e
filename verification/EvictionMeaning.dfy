/** What one eviction leaves. */
module EvictionMeaning {
  import opened CacheDisk
  import opened CacheEviction
  import opened CacheProtocol

  /** A readable manifest says how many bytes the generation takes. */
  ghost predicate Listed(m: map<Generation, Directory>, g: Generation) {
    g in m && (m[g].content == Complete || m[g].content == Torn)
  }

  /** The bytes in use are those of the generations with a readable manifest, added up in any order. */
  lemma UsedExactly(m: map<Generation, Directory>, g: Generation)
    requires g in m
    ensures Used(m) == Used(m - {g}) + if Listed(m, g) then m[g].disk else 0
  {
    UsedWithout(m, g);
  }

  /** The state that `Evict` leaves, from generations `m` and pointers `c`. */
  ghost predicate IsEviction(m: map<Generation, Directory>, c: map<Key, Generation>, leased: set<Generation>, requested: nat, budget: nat,
                             n: map<Generation, Directory>, d: map<Key, Generation>) {
    exists queue, i :: Progress(Cleaned(m), c, leased, requested, budget, queue, i, n, d)
  }

  /** Directories without a manifest file always go; leased generations and unreadable manifests always
    * stay; nothing that stays is altered. */
  lemma StaysExactly(m: map<Generation, Directory>, c: map<Key, Generation>, leased: set<Generation>, requested: nat, budget: nat,
                     n: map<Generation, Directory>, d: map<Key, Generation>, g: Generation)
    requires IsEviction(m, c, leased, requested, budget, n, d)
    ensures g in n ==> g in m && n[g] == m[g]
    ensures g in m && m[g].content == Content.Filling ==> g !in n
    ensures g in m && m[g].content == Garbled ==> g in n
    ensures Listed(m, g) && g in leased ==> g in n
  {
    var queue, i :| Progress(Cleaned(m), c, leased, requested, budget, queue, i, n, d);
    if g in m && g !in n && g in Cleaned(m) { assert g in queue; }
  }

  lemma InPrefix(queue: seq<Generation>, i: nat, k: nat)
    requires i <= |queue| && k < |queue|
    ensures k < i ==> queue[k] in queue[..i]
  {
    if k < i { assert queue[..i][k] == queue[k]; }
  }

  /** The generations removed are the oldest that nobody leases. */
  lemma OldestGoFirst(m: map<Generation, Directory>, c: map<Key, Generation>, leased: set<Generation>, requested: nat, budget: nat,
                      n: map<Generation, Directory>, d: map<Key, Generation>, gone: Generation, kept: Generation)
    requires IsEviction(m, c, leased, requested, budget, n, d)
    requires Listed(m, gone) && gone !in n && Listed(n, kept) && kept !in leased
    ensures m[gone].acquired <= m[kept].acquired
  {
    var queue, i :| Progress(Cleaned(m), c, leased, requested, budget, queue, i, n, d);
    assert gone in queue[..i];
    var j :| 0 <= j < i && queue[j] == gone;
    assert kept in Cleaned(m) && kept in queue;
    var k :| 0 <= k < |queue| && queue[k] == kept;
    InPrefix(queue, i, k);
  }

  /** No more is removed than the request needs: without the last one removed it would not have fitted. */
  lemma NothingGoesNeedlessly(m: map<Generation, Directory>, c: map<Key, Generation>, leased: set<Generation>, requested: nat, budget: nat,
                              n: map<Generation, Directory>, d: map<Key, Generation>, gone: Generation) returns (last: Generation)
    requires IsEviction(m, c, leased, requested, budget, n, d)
    requires Listed(m, gone) && gone !in n && Used(n) + requested <= budget
    ensures Listed(m, last) && last !in n && Used(n) + m[last].disk + requested > budget
  {
    var queue, i :| Progress(Cleaned(m), c, leased, requested, budget, queue, i, n, d);
    assert gone in Cleaned(m);
    last := LastRemoved(Cleaned(m), leased, requested, budget, queue, i, n, gone);
  }

  lemma LastRemoved(m: map<Generation, Directory>, leased: set<Generation>, requested: nat, budget: nat, queue: seq<Generation>, i: nat,
                    n: map<Generation, Directory>, gone: Generation) returns (last: Generation)
    requires Scan(m, queue) && Evicted(m, leased, queue, i, n) && LastLookNeeded(m, leased, queue, i, requested, budget)
    requires gone in m && gone !in n && Used(n) + requested <= budget
    ensures Listed(m, last) && last !in n && Used(n) + m[last].disk + requested > budget
  {
    assert gone in queue[..i];
    var j := i - 1;
    var before := NeededBefore(m, leased, requested, budget, queue, i);
    last := queue[j];
    LastLook(m, leased, queue, i, n, before);
  }

  lemma NeededBefore(m: map<Generation, Directory>, leased: set<Generation>, requested: nat, budget: nat, queue: seq<Generation>, i: nat)
    returns (before: map<Generation, Directory>)
    requires i > 0 && LastLookNeeded(m, leased, queue, i, requested, budget)
    ensures Evicted(m, leased, queue, i - 1, before) && Used(before) + requested > budget
  {
    before :| Evicted(m, leased, queue, i - 1, before) && Used(before) + requested > budget;
  }

  lemma LastLook(m: map<Generation, Directory>, leased: set<Generation>, queue: seq<Generation>, i: nat,
                 n: map<Generation, Directory>, before: map<Generation, Directory>)
    requires 0 < i && Scan(m, queue) && Evicted(m, leased, queue, i, n) && Evicted(m, leased, queue, i - 1, before)
    ensures queue[i - 1] in leased ==> before == n
    ensures queue[i - 1] !in leased ==> Listed(m, queue[i - 1]) && queue[i - 1] !in n && Used(before) == m[queue[i - 1]].disk + Used(n)
  {
    var last := queue[i - 1];
    EvictOne(m, leased, queue, i - 1, before);
    if last in leased {
      SameEvicted(m, leased, queue, i, n, before);
    } else {
      SameEvicted(m, leased, queue, i, n, Without(before, last));
      UsedWithout(before, last);
    }
  }

  lemma SameEvicted(m: map<Generation, Directory>, leased: set<Generation>, queue: seq<Generation>, i: nat,
                    n: map<Generation, Directory>, o: map<Generation, Directory>)
    requires Evicted(m, leased, queue, i, n) && Evicted(m, leased, queue, i, o)
    ensures n == o
  {
    forall g ensures g in n <==> g in o {
      if g in m { assert g !in n <==> g !in o; }
    }
  }

  /** A pointer goes exactly with the listed generation of its own key that it names. */
  lemma PointersGoAlong(m: map<Generation, Directory>, c: map<Key, Generation>, leased: set<Generation>, requested: nat, budget: nat,
                        n: map<Generation, Directory>, d: map<Key, Generation>, key: Key)
    requires IsEviction(m, c, leased, requested, budget, n, d)
    ensures key in d ==> key in c && d[key] == c[key]
    ensures key in c ==> (key !in d <==> Listed(m, c[key]) && c[key] !in n && m[c[key]].key == key)
  {
    var queue, i :| Progress(Cleaned(m), c, leased, requested, budget, queue, i, n, d);
    if key in c && c[key] in Cleaned(m) && c[key] !in n { assert c[key] in queue; }
  }
}
