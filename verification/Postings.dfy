/** Inverted lists: who mentions a term, and with what saturating weight. */
module Postings {
  import opened SearchTerms

  /** One entry of the index: an object and the weight it gives each of its terms. */
  datatype Entry = Entry(subject: SearchObject, weights: map<string, nat>)

  /** Lists under construction: entry numbers with their weights, per term. */
  type Lists = map<string, seq<(nat, nat)>>

  type PostingMap = map<string, map<SearchObject, nat>>

  const U32_MAX: nat := 0xFFFF_FFFF

  function Saturated(n: nat): nat {
    if n <= U32_MAX then n else U32_MAX
  }

  // ---- Totals: what the index is about ----

  function WeightIn(e: Entry, term: string): nat {
    if term in e.weights then e.weights[term] else 0
  }

  /** The sum of what all entries of `subject` give `term`. */
  function Total(entries: seq<Entry>, term: string, subject: SearchObject): nat {
    if entries == [] then 0
    else
      var last := entries[|entries| - 1];
      Total(entries[..|entries| - 1], term, subject) + (if last.subject == subject then WeightIn(last, term) else 0)
  }

  function Score(p: PostingMap, term: string, subject: SearchObject): nat {
    if term in p && subject in p[term] then p[term][subject] else 0
  }

  /** No empty lists and no zero weights: such a map is determined by its scores. */
  ghost predicate Proper(p: PostingMap) {
    forall t | t in p :: p[t] != map[] && forall o | o in p[t] :: p[t][o] > 0
  }

  lemma ScoresDetermineList(p: PostingMap, q: PostingMap, t: string)
    requires Proper(p) && Proper(q) && t in p && forall o :: Score(p, t, o) == Score(q, t, o)
    ensures t in q && p[t] == q[t]
  {
    var o :| o in p[t];
    assert Score(p, t, o) == Score(q, t, o);
    forall o ensures o in p[t] <==> o in q[t]
             ensures o in p[t] ==> p[t][o] == q[t][o]
    {
      assert Score(p, t, o) == Score(q, t, o);
    }
  }

  lemma ScoresDetermine(p: PostingMap, q: PostingMap)
    requires Proper(p) && Proper(q) && forall t, o :: Score(p, t, o) == Score(q, t, o)
    ensures p == q
  {
    forall t ensures t in p <==> t in q
             ensures t in p ==> p[t] == q[t]
    {
      if t in p { ScoresDetermineList(p, q, t); }
      if t in q { ScoresDetermineList(q, p, t); }
    }
  }

  // ---- Building the lists ----

  ghost predicate Positive(entries: seq<Entry>) {
    forall i | 0 <= i < |entries| :: forall t | t in entries[i].weights :: entries[i].weights[t] > 0
  }

  ghost function Hits(entries: seq<Entry>, term: string): seq<(nat, nat)> {
    if entries == [] then []
    else
      var n := |entries| - 1;
      Hits(entries[..n], term) + (if term in entries[n].weights then [(n, entries[n].weights[term])] else [])
  }

  /** The lists hold, for each term, the entries that mention it in order of insertion. */
  ghost predicate ListsOf(lists: Lists, entries: seq<Entry>) {
    forall t :: (t in lists <==> Hits(entries, t) != []) && (t in lists ==> lists[t] == Hits(entries, t))
  }

  method AppendEntry(lists: Lists, ghost entries: seq<Entry>, e: Entry, id: nat) returns (r: Lists)
    requires ListsOf(lists, entries) && id == |entries|
    ensures ListsOf(r, entries + [e])
  {
    r := lists;
    var todo := e.weights.Keys;
    while todo != {}
      invariant todo <= e.weights.Keys
      invariant forall t :: t in r <==> t in lists || t in e.weights.Keys - todo
      invariant forall t | t in r :: r[t] ==
                  (if t in lists then lists[t] else []) + (if t in e.weights.Keys - todo then [(id, e.weights[t])] else [])
    {
      var t :| t in todo;
      r := r[t := (if t in r then r[t] else []) + [(id, e.weights[t])]];
      todo := todo - {t};
    }
    forall t { HitsAppend(entries, e, t); }
  }

  lemma HitsAppend(entries: seq<Entry>, e: Entry, t: string)
    ensures Hits(entries + [e], t) == Hits(entries, t) + (if t in e.weights then [(|entries|, e.weights[t])] else [])
  {
    assert (entries + [e])[..|entries|] == entries;
  }

  // ---- From lists to postings ----

  function SumOf(objects: seq<SearchObject>, hits: seq<(nat, nat)>, subject: SearchObject): nat {
    if hits == [] then 0
    else
      var (id, weight) := hits[|hits| - 1];
      SumOf(objects, hits[..|hits| - 1], subject) + (if id < |objects| && objects[id] == subject then weight else 0)
  }

  ghost predicate HitsOk(objects: seq<SearchObject>, hits: seq<(nat, nat)>) {
    forall i | 0 <= i < |hits| :: hits[i].0 < |objects| && hits[i].1 > 0
  }

  /** Folds one list with saturating addition; the order of the entries does not matter. */
  method Accumulate(objects: seq<SearchObject>, hits: seq<(nat, nat)>) returns (values: map<SearchObject, nat>)
    requires HitsOk(objects, hits)
    ensures forall o :: o in values <==> SumOf(objects, hits, o) > 0
    ensures forall o | o in values :: values[o] == Saturated(SumOf(objects, hits, o))
  {
    values := map[];
    for i := 0 to |hits|
      invariant forall o :: o in values <==> SumOf(objects, hits[..i], o) > 0
      invariant forall o | o in values :: values[o] == Saturated(SumOf(objects, hits[..i], o))
    {
      assert hits[..i + 1][..i] == hits[..i];
      var subject := objects[hits[i].0];
      var current := if subject in values then values[subject] else 0;
      values := values[subject := Saturated(current + hits[i].1)];
    }
    assert hits[..|hits|] == hits;
  }

  ghost predicate ObjectsOf(objects: seq<SearchObject>, entries: seq<Entry>) {
    |entries| <= |objects| && forall i | 0 <= i < |entries| :: objects[i] == entries[i].subject
  }

  lemma SumAppend(objects: seq<SearchObject>, hits: seq<(nat, nat)>, id: nat, weight: nat, o: SearchObject)
    requires id < |objects|
    ensures SumOf(objects, hits + [(id, weight)], o) == SumOf(objects, hits, o) + (if objects[id] == o then weight else 0)
  {
    assert (hits + [(id, weight)])[..|hits|] == hits;
  }

  lemma {:induction false} HitsSum(objects: seq<SearchObject>, entries: seq<Entry>, t: string, o: SearchObject)
    requires ObjectsOf(objects, entries)
    ensures SumOf(objects, Hits(entries, t), o) == Total(entries, t, o)
  {
    if entries != [] {
      var n := |entries| - 1;
      HitsSum(objects, entries[..n], t, o);
      if t in entries[n].weights {
        SumAppend(objects, Hits(entries[..n], t), n, entries[n].weights[t], o);
      } else {
        assert Hits(entries, t) == Hits(entries[..n], t);
      }
    }
  }

  lemma {:induction false} HitsInRange(objects: seq<SearchObject>, entries: seq<Entry>, t: string)
    requires ObjectsOf(objects, entries) && Positive(entries)
    ensures HitsOk(objects, Hits(entries, t))
  {
    if entries != [] { HitsInRange(objects, entries[..|entries| - 1], t); }
  }

  lemma {:induction false} MentionedHasTotal(entries: seq<Entry>, t: string)
    requires Hits(entries, t) != [] && Positive(entries)
    ensures exists o :: Total(entries, t, o) > 0
  {
    var n := |entries| - 1;
    if t in entries[n].weights {
      assert Total(entries, t, entries[n].subject) > 0;
    } else {
      MentionedHasTotal(entries[..n], t);
      var o :| Total(entries[..n], t, o) > 0;
      assert Total(entries, t, o) > 0;
    }
  }

  /** The finished postings score every object with its saturated total. */
  ghost predicate Indexes(p: PostingMap, entries: seq<Entry>) {
    Proper(p) && forall t, o :: Score(p, t, o) == Saturated(Total(entries, t, o))
  }

  lemma FinishList(objects: seq<SearchObject>, entries: seq<Entry>, t: string, values: map<SearchObject, nat>)
    requires ObjectsOf(objects, entries) && Positive(entries)
    requires forall o :: o in values <==> SumOf(objects, Hits(entries, t), o) > 0
    requires forall o | o in values :: values[o] == Saturated(SumOf(objects, Hits(entries, t), o))
    ensures forall o :: o in values <==> Total(entries, t, o) > 0
    ensures forall o | o in values :: values[o] == Saturated(Total(entries, t, o))
    ensures Hits(entries, t) != [] ==> values != map[]
  {
    forall o { HitsSum(objects, entries, t, o); }
    if Hits(entries, t) != [] {
      MentionedHasTotal(entries, t);
    }
  }

  lemma {:induction false} UnmentionedHasNoTotal(entries: seq<Entry>, t: string, o: SearchObject)
    requires Hits(entries, t) == []
    ensures Total(entries, t, o) == 0
  {
    if entries != [] { UnmentionedHasNoTotal(entries[..|entries| - 1], t, o); }
  }

  method FinishPostings(objects: seq<SearchObject>, lists: Lists, ghost entries: seq<Entry>) returns (p: PostingMap)
    requires ObjectsOf(objects, entries) && Positive(entries) && ListsOf(lists, entries)
    ensures Indexes(p, entries)
  {
    p := map[];
    var todo := lists.Keys;
    while todo != {}
      invariant todo <= lists.Keys && p.Keys == lists.Keys - todo && Proper(p)
      invariant forall t, o | t in p :: Score(p, t, o) == Saturated(Total(entries, t, o))
    {
      var t :| t in todo;
      HitsInRange(objects, entries, t);
      var values := Accumulate(objects, lists[t]);
      FinishList(objects, entries, t, values);
      p := p[t := values];
      todo := todo - {t};
    }
    forall t, o | t !in p ensures Total(entries, t, o) == 0 { UnmentionedHasNoTotal(entries, t, o); }
  }
}
