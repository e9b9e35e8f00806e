/** The discovery index of a catalog: built from scratch, or patched for the relations a
    publication changed. Both give the same trees. */
module SearchIndex {
  import opened Postings
  import opened Relations
  import opened SearchTerms
  import opened Treap

  /** What each relation has to say; every relation at least speaks for itself. */
  datatype Corpus = Corpus(text: Text, documents: Relation -> seq<Document>)

  ghost predicate Speaks(c: Corpus) {
    forall r :: c.documents(r) != []
  }

  datatype Footprint = Footprint(exact: set<string>, lexical: set<string>, objects: nat, fields: nat)

  datatype Index = Index(snapshotId: string, exact: Tree<map<SearchObject, nat>>, lexical: Tree<map<SearchObject, nat>>,
                         footprints: Tree<Footprint>, objectsIndexed: nat, fieldsIndexed: nat)

  datatype Store = Store(postings: Hashing<map<SearchObject, nat>>, footprints: Hashing<Footprint>)

  datatype Channel = Exact | Lexical

  // ---- What an index must say about a catalog ----

  function EntryOf(c: Corpus, kind: Channel, relation: string, d: Document): Entry {
    Entry(SearchObject(relation, d.field), if kind.Exact? then ExactWeights(c.text, relation, d) else TokenWeights(c.text, d))
  }

  function EntriesOf(c: Corpus, kind: Channel, r: Relation): seq<Entry> {
    var ds := c.documents(r);
    seq(|ds|, i requires 0 <= i < |ds| => EntryOf(c, kind, r.name, ds[i]))
  }

  /** The weight of a term for an object depends on the object's own relation alone. */
  function WeightAt(c: Corpus, kind: Channel, m: Content, t: string, o: SearchObject): nat {
    if o.relation in m then Total(EntriesOf(c, kind, m[o.relation]), t, o) else 0
  }

  ghost predicate PostingsFor(c: Corpus, kind: Channel, m: Content, p: PostingMap) {
    Proper(p) && forall t, o :: Score(p, t, o) == Saturated(WeightAt(c, kind, m, t, o))
  }

  function TermsIn(entries: seq<Entry>): set<string> {
    set i, t | 0 <= i < |entries| && t in entries[i].weights :: t
  }

  function FootprintOf(c: Corpus, r: Relation): Footprint {
    Footprint(TermsIn(EntriesOf(c, Exact, r)), TermsIn(EntriesOf(c, Lexical, r)), |c.documents(r)|, |r.fields|)
  }

  ghost predicate FootprintsFor(c: Corpus, m: Content, f: map<string, Footprint>) {
    f.Keys == m.Keys && forall n | n in m :: f[n] == FootprintOf(c, m[n])
  }

  ghost function Objects(c: Corpus, m: Content): nat {
    if m == map[] then 0
    else
      var n :| n in m;
      |c.documents(m[n])| + Objects(c, m - {n})
  }

  ghost function Fields(m: Content): nat {
    if m == map[] then 0
    else
      var n :| n in m;
      |m[n].fields| + Fields(m - {n})
  }

  /** The whole specification. It fixes the index completely. */
  ghost predicate IndexFor(s: Store, c: Corpus, m: Content, id: string, ix: Index) {
    && Canonical(s.postings, ix.exact) && Canonical(s.postings, ix.lexical) && Canonical(s.footprints, ix.footprints)
    && PostingsFor(c, Exact, m, Contents(ix.exact)) && PostingsFor(c, Lexical, m, Contents(ix.lexical))
    && FootprintsFor(c, m, Contents(ix.footprints))
    && ix.objectsIndexed == Objects(c, m) && ix.fieldsIndexed == Fields(m)
    && ix.snapshotId == id
  }

  lemma IndexUnique(s: Store, c: Corpus, m: Content, id: string, a: Index, b: Index)
    requires IndexFor(s, c, m, id, a) && IndexFor(s, c, m, id, b)
    ensures a == b
  {
    ScoresDetermine(Contents(a.exact), Contents(b.exact));
    ScoresDetermine(Contents(a.lexical), Contents(b.lexical));
    EqualContents(s.postings, a.exact, b.exact);
    EqualContents(s.postings, a.lexical, b.lexical);
    EqualContents(s.footprints, a.footprints, b.footprints);
  }

  // ---- Counting over a catalog ----

  lemma {:induction false} ObjectsWithout(c: Corpus, m: Content, n: string)
    requires n in m
    ensures Objects(c, m) == |c.documents(m[n])| + Objects(c, m - {n})
  {
    var k :| k in m && Objects(c, m) == |c.documents(m[k])| + Objects(c, m - {k});
    if k != n {
      ObjectsWithout(c, m - {k}, n);
      ObjectsWithout(c, m - {n}, k);
      assert m - {k} - {n} == m - {n} - {k};
    }
  }

  lemma {:induction false} FieldsWithout(m: Content, n: string)
    requires n in m
    ensures Fields(m) == |m[n].fields| + Fields(m - {n})
  {
    var k :| k in m && Fields(m) == |m[k].fields| + Fields(m - {k});
    if k != n {
      FieldsWithout(m - {k}, n);
      FieldsWithout(m - {n}, k);
      assert m - {k} - {n} == m - {n} - {k};
    }
  }

  lemma CountsAfterPut(c: Corpus, m: Content, n: string, r: Relation)
    ensures Objects(c, m[n := r]) == Objects(c, m - {n}) + |c.documents(r)| && Fields(m[n := r]) == Fields(m - {n}) + |r.fields|
  {
    assert m[n := r] - {n} == m - {n};
    ObjectsWithout(c, m[n := r], n);
    FieldsWithout(m[n := r], n);
  }

  lemma CountsWithout(c: Corpus, m: Content, n: string)
    ensures n in m ==> Objects(c, m) == Objects(c, m - {n}) + |c.documents(m[n])| && Fields(m) == Fields(m - {n}) + |m[n].fields|
    ensures n !in m ==> m - {n} == m
  {
    if n in m {
      ObjectsWithout(c, m, n);
      FieldsWithout(m, n);
    }
  }

  // ---- Totals of a whole catalog ----

  lemma {:induction false} TotalOfParts(a: seq<Entry>, b: seq<Entry>, t: string, o: SearchObject)
    ensures Total(a + b, t, o) == Total(a, t, o) + Total(b, t, o)
  {
    if b == [] {
      assert a + b == a;
    } else {
      assert (a + b)[..|a + b| - 1] == a + b[..|b| - 1];
      TotalOfParts(a, b[..|b| - 1], t, o);
    }
  }

  lemma {:induction false} ForeignTotal(entries: seq<Entry>, t: string, o: SearchObject)
    requires forall i | 0 <= i < |entries| :: entries[i].subject.relation != o.relation
    ensures Total(entries, t, o) == 0
  {
    if entries != [] { ForeignTotal(entries[..|entries| - 1], t, o); }
  }

  /** Adding a relation's entries adds its weights and touches no other relation's. */
  lemma NextRelation(c: Corpus, kind: Channel, m: Content, entries: seq<Entry>, r: Relation)
    requires r.name !in m
    requires forall t, o :: Total(entries, t, o) == WeightAt(c, kind, m, t, o)
    ensures forall t, o :: Total(entries + EntriesOf(c, kind, r), t, o) == WeightAt(c, kind, m[r.name := r], t, o)
  {
    forall t, o ensures Total(entries + EntriesOf(c, kind, r), t, o) == WeightAt(c, kind, m[r.name := r], t, o) {
      TotalOfParts(entries, EntriesOf(c, kind, r), t, o);
      if o.relation != r.name { ForeignTotal(EntriesOf(c, kind, r), t, o); }
    }
  }

  lemma {:induction false} NoTermNoTotal(entries: seq<Entry>, t: string, o: SearchObject)
    requires t !in TermsIn(entries)
    ensures Total(entries, t, o) == 0
  {
    if entries != [] {
      var front := entries[..|entries| - 1];
      forall i | 0 <= i < |front| ensures t !in front[i].weights { assert front[i] == entries[i]; }
      NoTermNoTotal(front, t, o);
      assert t !in entries[|entries| - 1].weights;
    }
  }
}
