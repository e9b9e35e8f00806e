/** Generations of materialized results on disk, and the eviction that keeps them within budget. */
module CacheDisk {
  import opened Widths

  type Key = string
  type Generation = string

  /** `Filling` has no manifest yet, `Garbled` an unreadable one; `Torn` still has
    * its manifest although data files are gone. */
  datatype Content = Filling | Complete | Torn | Garbled

  datatype Directory = Directory(key: Key, disk: nat, acquired: nat, content: Content)

  predicate HasManifest(d: Directory) {
    d.content.Complete? || d.content.Torn?
  }

  function Weight(d: Directory): nat {
    if HasManifest(d) then d.disk else 0
  }

  function Without<V>(m: map<string, V>, g: string): (r: map<string, V>)
    ensures r.Keys == m.Keys - {g} && forall h | h in r :: r[h] == m[h]
  {
    m - {g}
  }

  /** The disk bytes recorded in readable manifests. */
  ghost function Used(m: map<Generation, Directory>): nat
    decreases m.Keys
  {
    if m.Keys == {} then 0
    else
      var g :| g in m.Keys;
      Weight(m[g]) + Used(Without(m, g))
  }

  lemma WithoutTwice(m: map<Generation, Directory>, g: Generation, h: Generation)
    ensures Without(Without(m, g), h) == Without(Without(m, h), g)
  {
  }

  lemma {:induction false} UsedWithout(m: map<Generation, Directory>, g: Generation)
    requires g in m
    ensures Used(m) == Weight(m[g]) + Used(Without(m, g))
    decreases m.Keys
  {
    var h :| h in m.Keys && Used(m) == Weight(m[h]) + Used(Without(m, h));
    if h != g {
      UsedWithout(Without(m, h), g);
      UsedWithout(Without(m, g), h);
      WithoutTwice(m, g, h);
    }
  }

  lemma UsedWith(m: map<Generation, Directory>, g: Generation, d: Directory)
    ensures Used(m[g := d]) == Weight(d) + Used(Without(m, g))
  {
    UsedWithout(m[g := d], g);
    assert Without(m[g := d], g) == Without(m, g);
  }

  lemma UsedWithoutAbsent(m: map<Generation, Directory>, g: Generation)
    requires g !in m
    ensures Used(Without(m, g)) == Used(m)
  {
    assert Without(m, g) == m;
  }

  /** Directories without a manifest weigh nothing. */
  lemma {:induction false} UsedDrop(m: map<Generation, Directory>, n: map<Generation, Directory>)
    requires n.Keys <= m.Keys && forall g | g in n :: n[g] == m[g]
    requires forall g | g in m && g !in n :: Weight(m[g]) == 0
    ensures Used(m) == Used(n)
    decreases m.Keys
  {
    if g :| g in m && g !in n {
      UsedWithout(m, g);
      UsedDrop(Without(m, g), n);
    } else {
      assert m == n;
    }
  }

  function SaturatingAdd(a: nat, b: nat): nat {
    if a + b > U64_MAX then U64_MAX else a + b
  }

  /** A total as the directory scan adds it up. */
  function Capped(n: nat): nat {
    if n > U64_MAX then U64_MAX else n
  }

  function SaturatingSub(a: nat, b: nat): nat {
    if a < b then 0 else a - b
  }

  /** The admission test with saturating sums decides the exact question for every
    * budget but the largest one, which it never refuses. */
  lemma AdmissionIsExact(total: nat, requested: nat, budget: nat)
    requires total <= U64_MAX && requested <= U64_MAX && budget <= U64_MAX
    ensures budget < U64_MAX ==> (SaturatingAdd(total, requested) <= budget <==> total + requested <= budget)
    ensures budget == U64_MAX ==> SaturatingAdd(total, requested) <= budget
  {
  }
}
