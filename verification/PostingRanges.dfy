/** Comparing just the changed relations' ranges of a posting list. */
module PostingRanges {
  import opened Names
  import opened SearchTerms
  import opened Sorting
  import opened Wrappers

  type Posting = map<SearchObject, nat>

  // ---- The order of posting lists ----

  predicate FieldBefore(a: Option<string>, b: Option<string>) {
    b.Some? && (a.None? || Less(a.value, b.value))
  }

  predicate ObjectBefore(a: SearchObject, b: SearchObject) {
    Less(a.relation, b.relation) || (a.relation == b.relation && FieldBefore(a.field, b.field))
  }

  function EntryBefore(): ((SearchObject, nat), (SearchObject, nat)) -> bool {
    (a: (SearchObject, nat), b: (SearchObject, nat)) => ObjectBefore(a.0, b.0)
  }

  lemma FieldsOrdered(a: Option<string>, b: Option<string>, c: Option<string>)
    ensures !FieldBefore(a, a) && (a == b || FieldBefore(a, b) || FieldBefore(b, a))
    ensures FieldBefore(a, b) && FieldBefore(b, c) ==> FieldBefore(a, c)
  {
    if a.Some? {
      LessIrreflexive(a.value);
      if b.Some? { LessTotal(a.value, b.value); }
      if b.Some? && c.Some? && Less(a.value, b.value) && Less(b.value, c.value) { LessTransitive(a.value, b.value, c.value); }
    }
  }

  lemma ObjectsOrdered(a: SearchObject, b: SearchObject, c: SearchObject)
    ensures !ObjectBefore(a, a) && (a == b || ObjectBefore(a, b) || ObjectBefore(b, a))
    ensures ObjectBefore(a, b) && ObjectBefore(b, c) ==> ObjectBefore(a, c)
  {
    LessIrreflexive(a.relation);
    LessTotal(a.relation, b.relation);
    FieldsOrdered(a.field, b.field, c.field);
    if Less(a.relation, b.relation) && Less(b.relation, c.relation) { LessTransitive(a.relation, b.relation, c.relation); }
  }

  // ---- Ranges ----

  ghost predicate Lists(s: seq<(SearchObject, nat)>, p: Posting, relations: set<string>, all: bool) {
    && (forall e | e in s :: e.0 in p && p[e.0] == e.1 && (all || e.0.relation in relations))
    && (forall o | o in p && (all || o.relation in relations) :: (o, p[o]) in s)
  }

  lemma EntriesOrdered(s: seq<(SearchObject, nat)>, p: Posting)
    requires forall e | e in s :: e.0 in p && p[e.0] == e.1
    ensures StrictOn(EntryBefore(), s)
  {
    forall a, b | a in s && b in s ensures !EntryBefore()(a, a) && (a == b || EntryBefore()(a, b) || EntryBefore()(b, a)) {
      ObjectsOrdered(a.0, b.0, b.0);
    }
    forall a, b, c | a in s && b in s && c in s && EntryBefore()(a, b) && EntryBefore()(b, c) ensures EntryBefore()(a, c) {
      ObjectsOrdered(a.0, b.0, c.0);
    }
  }

  /** The part of a posting that belongs to the given relations, in order. */
  method Range(p: Posting, relations: set<string>, all: bool) returns (s: seq<(SearchObject, nat)>)
    ensures Lists(s, p, relations, all) && Sorted(EntryBefore(), s) && Distinct(s)
  {
    var found: seq<(SearchObject, nat)> := [];
    var todo := p.Keys;
    while todo != {}
      invariant todo <= p.Keys && Distinct(found)
      invariant forall e | e in found :: e.0 in p && e.0 !in todo && p[e.0] == e.1 && (all || e.0.relation in relations)
      invariant forall o | o in p.Keys - todo && (all || o.relation in relations) :: (o, p[o]) in found
    {
      var o :| o in todo;
      if all || o.relation in relations { found := found + [(o, p[o])]; }
      todo := todo - {o};
    }
    EntriesOrdered(found, p);
    SortSorts(EntryBefore(), found);
    SortMembers(EntryBefore(), found);
    RearrangedDistinct(found, Sort(EntryBefore(), found));
    s := Sort(EntryBefore(), found);
  }

  ghost predicate SameIn(a: Posting, b: Posting, relations: set<string>) {
    forall o: SearchObject | o.relation in relations :: (o in a <==> o in b) && (o in a ==> a[o] == b[o])
  }

  /** Element by element, stopping at the first difference: that decides whether the changed
    * relations' part is the same, because both sides come in the same order. */
  method SameRange(current: Posting, replacement: Posting, changed: set<string>) returns (same: bool)
    requires forall o | o in replacement :: o.relation in changed
    ensures same <==> SameIn(current, replacement, changed)
  {
    var before := Range(current, changed, false);
    var after := Range(replacement, changed, true);
    same := EqualLists(before, after);
    if same { SameLists(before, after, current, replacement, changed); }
    if SameIn(current, replacement, changed) { OneOrder(before, after, current, replacement, changed); }
  }

  method EqualLists(a: seq<(SearchObject, nat)>, b: seq<(SearchObject, nat)>) returns (same: bool)
    ensures same <==> a == b
  {
    if |a| != |b| { return false; }
    for i := 0 to |a|
      invariant a[..i] == b[..i]
    {
      if a[i] != b[i] { return false; }
      assert a[..i + 1] == a[..i] + [a[i]] && b[..i + 1] == b[..i] + [b[i]];
    }
    assert a[..|a|] == a && b[..|b|] == b;
    return true;
  }

  lemma SameLists(before: seq<(SearchObject, nat)>, after: seq<(SearchObject, nat)>, current: Posting, replacement: Posting, changed: set<string>)
    requires Lists(before, current, changed, false) && Lists(after, replacement, changed, true) && before == after
    ensures SameIn(current, replacement, changed)
  {
    forall o: SearchObject | o.relation in changed
      ensures (o in current <==> o in replacement) && (o in current ==> current[o] == replacement[o])
    {
      if o in current { assert (o, current[o]) in after; }
      if o in replacement { assert (o, replacement[o]) in before; }
    }
  }

  lemma OneOrder(before: seq<(SearchObject, nat)>, after: seq<(SearchObject, nat)>, current: Posting, replacement: Posting, changed: set<string>)
    requires Lists(before, current, changed, false) && Lists(after, replacement, changed, true) && SameIn(current, replacement, changed)
    requires forall o | o in replacement :: o.relation in changed
    requires Sorted(EntryBefore(), before) && Sorted(EntryBefore(), after) && Distinct(before) && Distinct(after)
    ensures before == after
  {
    forall e ensures e in before <==> e in after {
      if e in before { assert (e.0, replacement[e.0]) in after; }
      if e in after { assert (e.0, current[e.0]) in before; }
    }
    DistinctSame(before, after);
    EntriesOrdered(before, current);
    SortedUnique(EntryBefore(), before, after);
  }
}
