/** What the scores of a finished index say about the documents. */
module SearchScores {
  import opened Postings
  import opened Relations
  import opened SearchIndex
  import opened SearchTerms
  import opened Treap
  import opened Wrappers

  // ---- One document ----

  /** A name, alias or synonym of the document, normalised. */
  ghost predicate IsName(text: Text, d: Document, h: string) {
    || h == text.normalize(d.name)
    || (exists a :: a in d.aliases && h == text.normalize(a))
    || (exists a :: a in d.synonyms && h == text.normalize(a))
  }

  /** The names and, for a field, its qualified name. */
  ghost predicate IsHandle(text: Text, relation: string, d: Document, h: string) {
    IsName(text, d, h) || (d.field.Some? && h == text.normalize(relation + "." + d.field.value))
  }

  ghost predicate InName(text: Text, d: Document, t: string) {
    exists h :: IsName(text, d, h) && t in text.terms(h)
  }

  ghost predicate InProse(text: Text, d: Document, t: string) {
    || (exists s :: s in d.hints && t in text.terms(s))
    || (exists s :: s in d.texts && t in text.terms(s))
  }

  ghost function ExactScore(text: Text, relation: string, d: Document, h: string): nat {
    if IsHandle(text, relation, d, h) then 100 else 0
  }

  ghost function LexicalScore(text: Text, d: Document, t: string): nat {
    if InName(text, d, t) then 4 else if InProse(text, d, t) then 1 else 0
  }

  lemma NamesExactly(text: Text, d: Document, h: string)
    ensures h in NamesOf(text, d) <==> IsName(text, d, h)
  {
  }

  lemma ExactWeight(c: Corpus, relation: string, d: Document, h: string)
    ensures WeightIn(EntryOf(c, Exact, relation, d), h) == ExactScore(c.text, relation, d, h)
  {
    NamesExactly(c.text, d, h);
  }

  lemma LexicalWeight(c: Corpus, relation: string, d: Document, t: string)
    ensures WeightIn(EntryOf(c, Lexical, relation, d), t) == LexicalScore(c.text, d, t)
  {
    forall h ensures h in NamesOf(c.text, d) <==> IsName(c.text, d, h) { NamesExactly(c.text, d, h); }
  }

  /** Per document: 100 for each handle; 4 for a term of a name, alias or synonym; 1 for a term
    * found only in prose. */
  ghost function DocumentScore(c: Corpus, kind: Channel, relation: string, d: Document, t: string): nat {
    if kind.Exact? then ExactScore(c.text, relation, d, t) else LexicalScore(c.text, d, t)
  }

  // ---- A whole relation ----

  /** The scores of the first `n` documents about one object, added up. */
  ghost function ScoreUpTo(c: Corpus, kind: Channel, r: Relation, t: string, field: Option<string>, n: nat): nat
    requires n <= |c.documents(r)|
  {
    if n == 0 then 0
    else
      var d := c.documents(r)[n - 1];
      ScoreUpTo(c, kind, r, t, field, n - 1) + if d.field == field then DocumentScore(c, kind, r.name, d, t) else 0
  }

  lemma {:induction false} TotalUpTo(c: Corpus, kind: Channel, r: Relation, t: string, field: Option<string>, n: nat)
    requires n <= |c.documents(r)|
    ensures Total(EntriesOf(c, kind, r)[..n], t, SearchObject(r.name, field)) == ScoreUpTo(c, kind, r, t, field, n)
  {
    if n > 0 {
      TotalUpTo(c, kind, r, t, field, n - 1);
      var entries := EntriesOf(c, kind, r);
      assert entries[..n][..n - 1] == entries[..n - 1];
      ExactWeight(c, r.name, c.documents(r)[n - 1], t);
      LexicalWeight(c, r.name, c.documents(r)[n - 1], t);
    }
  }

  lemma ScoreIs(s: Store, c: Corpus, m: Content, id: string, ix: Index, kind: Channel, t: string, o: SearchObject)
    requires IndexFor(s, c, m, id, ix) && Named(m)
    ensures Proper(Contents(if kind.Exact? then ix.exact else ix.lexical))
    ensures
      var score := Score(Contents(if kind.Exact? then ix.exact else ix.lexical), t, o);
      if o.relation !in m then score == 0
      else
        var total := ScoreUpTo(c, kind, m[o.relation], t, o.field, |c.documents(m[o.relation])|);
        score == if total <= 0xFFFF_FFFF then total else 0xFFFF_FFFF
  {
    if o.relation in m {
      var r := m[o.relation];
      TotalUpTo(c, kind, r, t, o.field, |c.documents(r)|);
      assert EntriesOf(c, kind, r)[..|c.documents(r)|] == EntriesOf(c, kind, r);
    }
  }

  ghost predicate Holds(p: PostingMap, t: string, o: SearchObject, score: nat) {
    t in p && o in p[t] && p[t][o] == score
  }

  lemma ScoreRead(p: PostingMap, t: string, o: SearchObject)
    requires Proper(p)
    ensures t in p && o in p[t] <==> Score(p, t, o) > 0
    ensures t in p && o in p[t] ==> Holds(p, t, o, Score(p, t, o))
  {
  }

  /** In a finished index an object is found by what its documents score for, with the sum of their scores
    * up to the largest 32-bit number, and never if its relation is not in the catalog. */
  lemma ScoresExactly(s: Store, c: Corpus, m: Content, id: string, ix: Index, kind: Channel, t: string, o: SearchObject)
    requires IndexFor(s, c, m, id, ix) && Named(m)
    ensures
      var p := Contents(if kind.Exact? then ix.exact else ix.lexical);
      var total := if o.relation in m then ScoreUpTo(c, kind, m[o.relation], t, o.field, |c.documents(m[o.relation])|) else 0;
      if total == 0 then !(t in p && o in p[t]) else Holds(p, t, o, if total <= 0xFFFF_FFFF then total else 0xFFFF_FFFF)
  {
    ScoreIs(s, c, m, id, ix, kind, t, o);
    ScoreRead(Contents(if kind.Exact? then ix.exact else ix.lexical), t, o);
  }

  lemma {:induction false} ScoreOfNone(c: Corpus, kind: Channel, r: Relation, t: string, field: Option<string>, n: nat)
    requires n <= |c.documents(r)| && forall j | 0 <= j < n :: c.documents(r)[j].field != field
    ensures ScoreUpTo(c, kind, r, t, field, n) == 0
  {
    if n > 0 { ScoreOfNone(c, kind, r, t, field, n - 1); }
  }

  lemma {:induction false} ScoreOfOne(c: Corpus, kind: Channel, r: Relation, t: string, i: nat, n: nat)
    requires i < n <= |c.documents(r)|
    requires forall j | 0 <= j < n && j != i :: c.documents(r)[j].field != c.documents(r)[i].field
    ensures ScoreUpTo(c, kind, r, t, c.documents(r)[i].field, n) == DocumentScore(c, kind, r.name, c.documents(r)[i], t)
  {
    if n - 1 == i { ScoreOfNone(c, kind, r, t, c.documents(r)[i].field, i); } else { ScoreOfOne(c, kind, r, t, i, n - 1); }
  }

  /** An object with one document has literally that document's scores. */
  lemma OneDocumentScores(s: Store, c: Corpus, m: Content, id: string, ix: Index, name: string, i: nat, t: string)
    requires IndexFor(s, c, m, id, ix) && Named(m) && name in m && i < |c.documents(m[name])|
    requires forall j | 0 <= j < |c.documents(m[name])| && j != i :: c.documents(m[name])[j].field != c.documents(m[name])[i].field
    ensures
      var d := c.documents(m[name])[i];
      var o := SearchObject(name, d.field);
      && Score(Contents(ix.exact), t, o) == (if IsHandle(c.text, name, d, t) then 100 else 0)
      && Score(Contents(ix.lexical), t, o) == (if InName(c.text, d, t) then 4 else if InProse(c.text, d, t) then 1 else 0)
  {
    var o := SearchObject(name, c.documents(m[name])[i].field);
    ScoreIs(s, c, m, id, ix, Exact, t, o);
    ScoreIs(s, c, m, id, ix, Lexical, t, o);
    ScoreOfOne(c, Exact, m[name], t, i, |c.documents(m[name])|);
    ScoreOfOne(c, Lexical, m[name], t, i, |c.documents(m[name])|);
  }

  lemma FoundBy(text: Text, relation: string, d: Document, t: string)
    ensures t in ExactWeights(text, relation, d) <==> IsHandle(text, relation, d, t)
    ensures t in TokenWeights(text, d) <==> InName(text, d, t) || InProse(text, d, t)
  {
    NamesExactly(text, d, t);
    forall h ensures h in NamesOf(text, d) <==> IsName(text, d, h) { NamesExactly(text, d, h); }
  }

  lemma {:induction false} TermsExactly(c: Corpus, kind: Channel, r: Relation, t: string)
    ensures t in TermsIn(EntriesOf(c, kind, r)) <==>
      exists i :: 0 <= i < |c.documents(r)| && t in EntryOf(c, kind, r.name, c.documents(r)[i]).weights
  {
    var entries := EntriesOf(c, kind, r);
    if i :| 0 <= i < |c.documents(r)| && t in EntryOf(c, kind, r.name, c.documents(r)[i]).weights {
      assert t in entries[i].weights;
    }
    if t in TermsIn(entries) {
      var i :| 0 <= i < |entries| && t in entries[i].weights;
      assert t in EntryOf(c, kind, r.name, c.documents(r)[i]).weights;
    }
  }

  lemma {:induction false} FootprintTerms(c: Corpus, r: Relation, t: string)
    ensures t in FootprintOf(c, r).exact <==> exists i :: 0 <= i < |c.documents(r)| && IsHandle(c.text, r.name, c.documents(r)[i], t)
    ensures t in FootprintOf(c, r).lexical <==>
      exists i :: 0 <= i < |c.documents(r)| && (InName(c.text, c.documents(r)[i], t) || InProse(c.text, c.documents(r)[i], t))
  {
    TermsExactly(c, Exact, r, t);
    TermsExactly(c, Lexical, r, t);
    forall i | 0 <= i < |c.documents(r)|
      ensures t in EntryOf(c, Exact, r.name, c.documents(r)[i]).weights <==> IsHandle(c.text, r.name, c.documents(r)[i], t)
      ensures t in EntryOf(c, Lexical, r.name, c.documents(r)[i]).weights
        <==> InName(c.text, c.documents(r)[i], t) || InProse(c.text, c.documents(r)[i], t)
    {
      FoundBy(c.text, r.name, c.documents(r)[i], t);
    }
  }

  /** A finished index has a footprint for each relation of the catalog and no other, listing exactly what
    * some document of the relation can be found by. */
  lemma FootprintExactly(s: Store, c: Corpus, m: Content, id: string, ix: Index, n: string, t: string)
    requires IndexFor(s, c, m, id, ix) && Named(m)
    ensures n in Contents(ix.footprints) <==> n in m
    ensures n in m ==>
      var f := Contents(ix.footprints)[n];
      var ds := c.documents(m[n]);
      && (t in f.exact <==> exists i :: 0 <= i < |ds| && IsHandle(c.text, n, ds[i], t))
      && (t in f.lexical <==> exists i :: 0 <= i < |ds| && (InName(c.text, ds[i], t) || InProse(c.text, ds[i], t)))
      && f.objects == |ds| && f.fields == |m[n].fields|
  {
    if n in m { FootprintTerms(c, m[n], t); }
  }

  // ---- Counts ----

  function SumOfCounts(names: seq<string>, count: string -> nat): nat {
    if names == [] then 0 else count(names[0]) + SumOfCounts(names[1..], count)
  }

  /** The counts of a finished index are those of its relations added up, in any order. */
  lemma {:induction false} CountsExactly(c: Corpus, m: Content, names: seq<string>, objects: string -> nat, fields: string -> nat)
    requires (forall n :: n in names <==> n in m) && forall i, j | 0 <= i < j < |names| :: names[i] != names[j]
    requires forall n | n in m :: objects(n) == |c.documents(m[n])| && fields(n) == |m[n].fields|
    ensures Objects(c, m) == SumOfCounts(names, objects) && Fields(m) == SumOfCounts(names, fields)
    decreases |names|
  {
    if names != [] {
      var n := names[0];
      assert n in names;
      CountsWithout(c, m, n);
      forall k ensures k in names[1..] <==> k in m - {n} {
        if k in m - {n} { var i :| 0 <= i < |names| && names[i] == k; assert names[1..][i - 1] == k; }
      }
      CountsExactly(c, m - {n}, names[1..], objects, fields);
    } else {
      assert m == map[] by { assert forall k :: k in m ==> k in names; }
    }
  }
}
