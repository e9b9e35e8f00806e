/** Building the discovery index from scratch. */
module SearchBuild {
  import opened Postings
  import opened Relations
  import opened SearchIndex
  import opened SearchTerms
  import opened Treap

  /** Relation `n` has an entry that mentions `t`. */
  ghost predicate Mentions(entries: seq<Entry>, n: string, t: string) {
    exists i :: 0 <= i < |entries| && entries[i].subject.relation == n && t in entries[i].weights
  }

  function CountOf(objects: seq<SearchObject>, n: string): nat {
    if objects == [] then 0
    else CountOf(objects[..|objects| - 1], n) + (if objects[|objects| - 1].relation == n then 1 else 0)
  }

  /** Lists and objects agree with the entries pushed so far. */
  ghost predicate Pushed(objects: seq<SearchObject>, lists: Lists, entries: seq<Entry>) {
    |entries| == |objects| && ObjectsOf(objects, entries) && Positive(entries) && ListsOf(lists, entries)
  }

  /** The entries are exactly those of the relations in `m`. */
  ghost predicate Covers(c: Corpus, kind: Channel, m: Content, entries: seq<Entry>) {
    && (forall t, o :: Total(entries, t, o) == WeightAt(c, kind, m, t, o))
    && (forall n, t :: Mentions(entries, n, t) <==> n in m && t in TermsIn(EntriesOf(c, kind, m[n])))
  }

  lemma MentionsOfParts(a: seq<Entry>, b: seq<Entry>, n: string, t: string)
    ensures Mentions(a + b, n, t) <==> Mentions(a, n, t) || Mentions(b, n, t)
  {
    if Mentions(a, n, t) {
      var i :| 0 <= i < |a| && a[i].subject.relation == n && t in a[i].weights;
      assert (a + b)[i] == a[i];
    }
    if Mentions(b, n, t) {
      var i :| 0 <= i < |b| && b[i].subject.relation == n && t in b[i].weights;
      assert (a + b)[|a| + i] == b[i];
    }
  }

  lemma OwnMentions(c: Corpus, kind: Channel, r: Relation, n: string, t: string)
    ensures Mentions(EntriesOf(c, kind, r), n, t) <==> n == r.name && t in TermsIn(EntriesOf(c, kind, r))
  {
  }

  lemma CoversNext(c: Corpus, kind: Channel, m: Content, entries: seq<Entry>, r: Relation)
    requires Covers(c, kind, m, entries) && r.name !in m
    ensures Covers(c, kind, m[r.name := r], entries + EntriesOf(c, kind, r))
  {
    NextRelation(c, kind, m, entries, r);
    var next := m[r.name := r];
    forall n, t ensures Mentions(entries + EntriesOf(c, kind, r), n, t) <==> n in next && t in TermsIn(EntriesOf(c, kind, next[n])) {
      MentionsOfParts(entries, EntriesOf(c, kind, r), n, t);
      OwnMentions(c, kind, r, n, t);
    }
  }

  /** The objects a relation's documents describe, in order. */
  function ObjectsFor(c: Corpus, r: Relation): seq<SearchObject> {
    var ds := c.documents(r);
    seq(|ds|, i requires 0 <= i < |ds| => SearchObject(r.name, ds[i].field))
  }

  lemma {:induction false} CountOfParts(a: seq<SearchObject>, b: seq<SearchObject>, n: string)
    ensures CountOf(a + b, n) == CountOf(a, n) + CountOf(b, n)
  {
    if b == [] {
      assert a + b == a;
    } else {
      assert (a + b)[..|a + b| - 1] == a + b[..|b| - 1];
      CountOfParts(a, b[..|b| - 1], n);
    }
  }

  lemma {:induction false} CountOwn(objects: seq<SearchObject>, name: string, n: string)
    requires forall i | 0 <= i < |objects| :: objects[i].relation == name
    ensures CountOf(objects, n) == if n == name then |objects| else 0
  {
    if objects != [] { CountOwn(objects[..|objects| - 1], name, n); }
  }

  lemma CountNext(c: Corpus, objects: seq<SearchObject>, r: Relation, n: string)
    ensures CountOf(objects + ObjectsFor(c, r), n) == CountOf(objects, n) + (if n == r.name then |c.documents(r)| else 0)
  {
    CountOfParts(objects, ObjectsFor(c, r), n);
    CountOwn(ObjectsFor(c, r), r.name, n);
  }

  /** The running totals of a builder that has taken in exactly `m`. */
  ghost predicate Complete(c: Corpus, m: Content, objects: seq<SearchObject>, xs: seq<Entry>, ls: seq<Entry>, fieldsIndexed: nat) {
    && Covers(c, Exact, m, xs) && Covers(c, Lexical, m, ls)
    && (forall n :: CountOf(objects, n) == if n in m then |c.documents(m[n])| else 0)
    && |objects| == Objects(c, m) && fieldsIndexed == Fields(m)
  }

  ghost predicate FieldCountsOf(counts: map<string, nat>, m: Content) {
    counts.Keys == m.Keys && forall n | n in m :: counts[n] == |m[n].fields|
  }

  lemma CompleteNext(c: Corpus, m: Content, objects: seq<SearchObject>, xs: seq<Entry>, ls: seq<Entry>, fieldsIndexed: nat, r: Relation)
    requires Complete(c, m, objects, xs, ls, fieldsIndexed) && r.name !in m
    ensures Complete(c, m[r.name := r], objects + ObjectsFor(c, r), xs + EntriesOf(c, Exact, r), ls + EntriesOf(c, Lexical, r), fieldsIndexed + |r.fields|)
  {
    CoversNext(c, Exact, m, xs, r);
    CoversNext(c, Lexical, m, ls, r);
    assert m - {r.name} == m;
    CountsAfterPut(c, m, r.name, r);
    var next := m[r.name := r];
    forall n ensures CountOf(objects + ObjectsFor(c, r), n) == if n in next then |c.documents(next[n])| else 0 {
      CountNext(c, objects, r, n);
    }
  }

  class IndexBuilder {
    const corpus: Corpus
    var objects: seq<SearchObject>
    var exact: Lists
    var lexical: Lists
    var fieldsIndexed: nat
    var fieldCounts: map<string, nat>
    ghost var exactEntries: seq<Entry>
    ghost var lexicalEntries: seq<Entry>
    ghost var content: Content

    ghost predicate Filling()
      reads this
    {
      Pushed(objects, exact, exactEntries) && Pushed(objects, lexical, lexicalEntries)
    }

    ghost predicate Valid()
      reads this
    {
      && Filling() && Complete(corpus, content, objects, exactEntries, lexicalEntries, fieldsIndexed)
      && FieldCountsOf(fieldCounts, content)
    }

    constructor (corpus: Corpus)
      ensures Valid() && content == map[] && this.corpus == corpus
    {
      this.corpus := corpus;
      objects, exact, lexical, fieldsIndexed, fieldCounts := [], map[], map[], 0, map[];
      exactEntries, lexicalEntries, content := [], [], map[];
    }

    /** One document: its handles and its tokens get the next entry number. */
    method Insert(relation: string, d: Document)
      requires Filling()
      modifies this`objects, this`exact, this`lexical, this`exactEntries, this`lexicalEntries
      ensures Filling() && objects == old(objects) + [SearchObject(relation, d.field)]
      ensures exactEntries == old(exactEntries) + [EntryOf(corpus, Channel.Exact, relation, d)]
      ensures lexicalEntries == old(lexicalEntries) + [EntryOf(corpus, Channel.Lexical, relation, d)]
    {
      var tokens := Tokenize(corpus.text, d);
      var handles := ExactWeights(corpus.text, relation, d);
      var subject := SearchObject(relation, d.field);
      exact := AppendEntry(exact, exactEntries, Entry(subject, handles), |objects|);
      lexical := AppendEntry(lexical, lexicalEntries, Entry(subject, tokens), |objects|);
      exactEntries := exactEntries + [Entry(subject, handles)];
      lexicalEntries := lexicalEntries + [Entry(subject, tokens)];
      objects := objects + [subject];
    }

    /** All documents of one relation. */
    method PushDocuments(r: Relation)
      requires Filling()
      modifies this`objects, this`exact, this`lexical, this`exactEntries, this`lexicalEntries
      ensures Filling() && objects == old(objects) + ObjectsFor(corpus, r)
      ensures exactEntries == old(exactEntries) + EntriesOf(corpus, Channel.Exact, r)
      ensures lexicalEntries == old(lexicalEntries) + EntriesOf(corpus, Channel.Lexical, r)
    {
      var ds := corpus.documents(r);
      ghost var os, xs, ls := ObjectsFor(corpus, r), EntriesOf(corpus, Channel.Exact, r), EntriesOf(corpus, Channel.Lexical, r);
      for i := 0 to |ds|
        invariant Filling() && objects == old(objects) + os[..i]
        invariant exactEntries == old(exactEntries) + xs[..i] && lexicalEntries == old(lexicalEntries) + ls[..i]
      {
        Insert(r.name, ds[i]);
        TakeOneMore(os, i);
        TakeOneMore(xs, i);
        TakeOneMore(ls, i);
      }
    }

    method AddRelation(r: Relation)
      requires Valid() && r.name !in content
      modifies this
      ensures Valid() && content == old(content)[r.name := r]
    {
      CompleteNext(corpus, content, objects, exactEntries, lexicalEntries, fieldsIndexed, r);
      PushDocuments(r);
      fieldCounts := fieldCounts[r.name := |r.fields|];
      fieldsIndexed := fieldsIndexed + |r.fields|;
      content := content[r.name := r];
    }
  }

  lemma TakeOneMore<T>(s: seq<T>, i: nat)
    requires i < |s|
    ensures s[..i + 1] == s[..i] + [s[i]]
  {
  }

  // ---- Finishing ----

  ghost predicate HasTerm(terms: map<string, set<string>>, n: string, t: string) {
    n in terms && t in terms[n]
  }

  ghost predicate HitBy(objects: seq<SearchObject>, hits: seq<(nat, nat)>, n: string) {
    exists i :: 0 <= i < |hits| && hits[i].0 < |objects| && objects[hits[i].0].relation == n
  }

  lemma HitByAppend(objects: seq<SearchObject>, hits: seq<(nat, nat)>, h: (nat, nat), n: string)
    ensures HitBy(objects, hits + [h], n) <==> HitBy(objects, hits, n) || (h.0 < |objects| && objects[h.0].relation == n)
  {
    var more := hits + [h];
    assert more[|hits|] == h;
    if HitBy(objects, hits, n) {
      var i :| 0 <= i < |hits| && hits[i].0 < |objects| && objects[hits[i].0].relation == n;
      assert more[i] == hits[i];
    }
  }

  lemma {:induction false} HitsMention(objects: seq<SearchObject>, entries: seq<Entry>, t: string, n: string)
    requires ObjectsOf(objects, entries)
    ensures HitBy(objects, Hits(entries, t), n) <==> Mentions(entries, n, t)
  {
    if entries != [] {
      var k := |entries| - 1;
      var front := entries[..k];
      HitsMention(objects, front, t, n);
      assert entries == front + [entries[k]];
      MentionsOfParts(front, [entries[k]], n, t);
      assert Mentions([entries[k]], n, t) <==> entries[k].subject.relation == n && t in entries[k].weights by {
        assert [entries[k]][0] == entries[k];
      }
      if t in entries[k].weights {
        HitByAppend(objects, Hits(front, t), (k, entries[k].weights[t]), n);
      } else {
        assert Hits(entries, t) == Hits(front, t);
      }
    }
  }

  /** Marks every relation in one list as mentioning the term. */
  method MarkTerm(terms: map<string, set<string>>, objects: seq<SearchObject>, hits: seq<(nat, nat)>, t: string)
    returns (r: map<string, set<string>>)
    requires HitsOk(objects, hits)
    ensures forall n, u :: HasTerm(r, n, u) <==> HasTerm(terms, n, u) || (u == t && HitBy(objects, hits, n))
  {
    r := terms;
    for i := 0 to |hits|
      invariant forall n, u :: HasTerm(r, n, u) <==> HasTerm(terms, n, u) || (u == t && HitBy(objects, hits[..i], n))
    {
      var relation := objects[hits[i].0].relation;
      TakeOneMore(hits, i);
      forall n { HitByAppend(objects, hits[..i], hits[i], n); }
      r := r[relation := (if relation in r then r[relation] else {}) + {t}];
    }
    assert hits[..|hits|] == hits;
  }

  method MentionedTerms(objects: seq<SearchObject>, lists: Lists, ghost entries: seq<Entry>) returns (terms: map<string, set<string>>)
    requires Pushed(objects, lists, entries)
    ensures forall n, t :: HasTerm(terms, n, t) <==> Mentions(entries, n, t)
  {
    terms := map[];
    var todo := lists.Keys;
    while todo != {}
      invariant todo <= lists.Keys
      invariant forall n, t :: HasTerm(terms, n, t) <==> t in lists.Keys - todo && Mentions(entries, n, t)
    {
      var t :| t in todo;
      HitsInRange(objects, entries, t);
      forall n { HitsMention(objects, entries, t, n); }
      terms := MarkTerm(terms, objects, lists[t], t);
      todo := todo - {t};
    }
    forall n, t | Mentions(entries, n, t) ensures t in lists {
      HitsMention(objects, entries, t, n);
    }
  }

  method CountObjects(objects: seq<SearchObject>) returns (counts: map<string, nat>)
    ensures forall n :: n in counts <==> CountOf(objects, n) > 0
    ensures forall n | n in counts :: counts[n] == CountOf(objects, n)
  {
    counts := map[];
    for i := 0 to |objects|
      invariant forall n :: n in counts <==> CountOf(objects[..i], n) > 0
      invariant forall n | n in counts :: counts[n] == CountOf(objects[..i], n)
    {
      assert objects[..i + 1][..i] == objects[..i];
      var n := objects[i].relation;
      counts := counts[n := (if n in counts then counts[n] else 0) + 1];
    }
    assert objects[..|objects|] == objects;
  }

  lemma CoveredPostings(c: Corpus, kind: Channel, m: Content, entries: seq<Entry>, p: PostingMap)
    requires Covers(c, kind, m, entries) && Indexes(p, entries)
    ensures PostingsFor(c, kind, m, p)
  {
    forall t, o ensures Score(p, t, o) == Saturated(WeightAt(c, kind, m, t, o)) {
      assert Total(entries, t, o) == WeightAt(c, kind, m, t, o);
    }
  }

  function TermsAt(terms: map<string, set<string>>, n: string): set<string> {
    if n in terms then terms[n] else {}
  }

  lemma CoveredTerms(c: Corpus, kind: Channel, m: Content, entries: seq<Entry>, terms: map<string, set<string>>, n: string)
    requires Covers(c, kind, m, entries) && n in m && forall n, t :: HasTerm(terms, n, t) <==> Mentions(entries, n, t)
    ensures TermsAt(terms, n) == TermsIn(EntriesOf(c, kind, m[n]))
  {
    forall t ensures t in TermsAt(terms, n) <==> t in TermsIn(EntriesOf(c, kind, m[n])) {
      assert HasTerm(terms, n, t) <==> Mentions(entries, n, t);
    }
  }

  /** Footprints: for each relation its terms, its objects and its fields. */
  method Footprints(b: IndexBuilder) returns (f: map<string, Footprint>)
    requires b.Valid() && Speaks(b.corpus)
    ensures FootprintsFor(b.corpus, b.content, f)
  {
    var counts := CountObjects(b.objects);
    var xs := MentionedTerms(b.objects, b.exact, b.exactEntries);
    var ls := MentionedTerms(b.objects, b.lexical, b.lexicalEntries);
    f := AssembleFootprints(b, counts, xs, ls);
  }

  /** Per relation: how many documents, and which terms either channel mentions. */
  ghost predicate Collected(b: IndexBuilder, counts: map<string, nat>, xs: map<string, set<string>>, ls: map<string, set<string>>)
    reads b
  {
    && (forall n :: n in counts <==> CountOf(b.objects, n) > 0)
    && (forall n | n in counts :: counts[n] == CountOf(b.objects, n))
    && (forall n, t :: HasTerm(xs, n, t) <==> Mentions(b.exactEntries, n, t))
    && (forall n, t :: HasTerm(ls, n, t) <==> Mentions(b.lexicalEntries, n, t))
  }

  lemma CountedRelations(b: IndexBuilder, counts: map<string, nat>, xs: map<string, set<string>>, ls: map<string, set<string>>)
    requires b.Valid() && Speaks(b.corpus) && Collected(b, counts, xs, ls)
    ensures counts.Keys == b.content.Keys
  {
  }

  lemma OneFootprint(b: IndexBuilder, counts: map<string, nat>, xs: map<string, set<string>>, ls: map<string, set<string>>, n: string)
    requires b.Valid() && Speaks(b.corpus) && Collected(b, counts, xs, ls) && n in counts && n in b.content
    ensures n in b.fieldCounts
    ensures Footprint(TermsAt(xs, n), TermsAt(ls, n), counts[n], b.fieldCounts[n]) == FootprintOf(b.corpus, b.content[n])
  {
    CoveredTerms(b.corpus, Exact, b.content, b.exactEntries, xs, n);
    CoveredTerms(b.corpus, Lexical, b.content, b.lexicalEntries, ls, n);
  }

  method AssembleFootprints(b: IndexBuilder, counts: map<string, nat>, xs: map<string, set<string>>, ls: map<string, set<string>>)
    returns (f: map<string, Footprint>)
    requires b.Valid() && Speaks(b.corpus) && Collected(b, counts, xs, ls)
    ensures FootprintsFor(b.corpus, b.content, f)
  {
    f := map[];
    CountedRelations(b, counts, xs, ls);
    var todo := counts.Keys;
    while todo != {}
      invariant todo <= counts.Keys && f.Keys == counts.Keys - todo
      invariant forall n | n in f :: f[n] == FootprintOf(b.corpus, b.content[n])
    {
      var n :| n in todo;
      OneFootprint(b, counts, xs, ls, n);
      f := f[n := Footprint(TermsAt(xs, n), TermsAt(ls, n), counts[n], b.fieldCounts[n])];
      todo := todo - {n};
    }
  }

  method Finish(s: Store, b: IndexBuilder, id: string) returns (ix: Index)
    requires b.Valid() && Speaks(b.corpus)
    ensures IndexFor(s, b.corpus, b.content, id, ix)
  {
    var f := Footprints(b);
    var x := FinishPostings(b.objects, b.exact, b.exactEntries);
    var l := FinishPostings(b.objects, b.lexical, b.lexicalEntries);
    CoveredPostings(b.corpus, Exact, b.content, b.exactEntries, x);
    CoveredPostings(b.corpus, Lexical, b.content, b.lexicalEntries, l);
    var exact := FromMap(s.postings, x);
    var lexical := FromMap(s.postings, l);
    var footprints := FromMap(s.footprints, f);
    ix := Index(id, exact, lexical, footprints, |b.objects|, b.fieldsIndexed);
  }

  /** What a builder has taken in of `m` while `todo` is still to come. */
  ghost predicate Portion(m: Content, taken: Content, todo: set<string>) {
    taken.Keys == m.Keys - todo && forall n | n in taken :: taken[n] == m[n]
  }

  lemma PortionNext(m: Content, taken: Content, todo: set<string>, n: string)
    requires Portion(m, taken, todo) && n in todo && n in m
    ensures n !in taken && Portion(m, taken[n := m[n]], todo - {n})
  {
  }

  /** The index of any set of relations, from nothing. */
  method Build(s: Store, c: Corpus, m: Content, id: string) returns (ix: Index)
    requires Speaks(c) && Named(m)
    ensures IndexFor(s, c, m, id, ix)
  {
    var builder := new IndexBuilder(c);
    var todo := m.Keys;
    while todo != {}
      invariant todo <= m.Keys && builder.Valid() && Portion(m, builder.content, todo)
    {
      var n :| n in todo;
      PortionNext(m, builder.content, todo, n);
      builder.AddRelation(m[n]);
      todo := todo - {n};
    }
    assert builder.content == m;
    ix := Finish(s, builder, id);
  }
}
