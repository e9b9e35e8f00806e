/** Patching an existing index for the relations a publication changed. */
module SearchUpdate {
  import opened Incremental
  import opened PostingRanges
  import opened Postings
  import opened Relations
  import opened SearchBuild
  import opened SearchIndex
  import opened SearchTerms
  import opened Treap
  import opened Wrappers

  // ---- One term ----

  function At(p: PostingMap, t: string): Posting {
    if t in p then p[t] else map[]
  }

  /** Everything of the old list except the changed relations, then the replacement. */
  method Patched(current: Posting, replacement: Posting, changed: set<string>) returns (values: Posting)
    requires forall o | o in replacement :: o.relation in changed
    ensures IsPatch(current, replacement, changed, values)
  {
    values := map[];
    var todo := current.Keys;
    while todo != {}
      invariant todo <= current.Keys
      invariant forall o :: o in values <==> o in current && o !in todo && o.relation !in changed
      invariant forall o | o in values :: values[o] == current[o]
    {
      var o :| o in todo;
      if o.relation !in changed { values := values[o := current[o]]; }
      todo := todo - {o};
    }
    values := values + replacement;
  }

  /** The scores a patch must produce: changed relations from the replacement, others as before. */
  function Mixed(p: PostingMap, replacement: PostingMap, changed: set<string>, t: string, o: SearchObject): nat {
    if o.relation in changed then Score(replacement, t, o) else Score(p, t, o)
  }

  ghost predicate PatchedFor(before: PostingMap, replacement: PostingMap, changed: set<string>, done: set<string>, after: PostingMap) {
    Proper(after) && forall t, o :: Score(after, t, o) == if t in done then Mixed(before, replacement, changed, t, o) else Score(before, t, o)
  }

  lemma PatchSkip(before: PostingMap, replacement: PostingMap, changed: set<string>, done: set<string>, p: PostingMap, t: string)
    requires PatchedFor(before, replacement, changed, done, p) && t !in done
    requires SameIn(At(before, t), At(replacement, t), changed)
    ensures PatchedFor(before, replacement, changed, done + {t}, p)
  {
    forall u, o ensures Score(p, u, o) == if u in done + {t} then Mixed(before, replacement, changed, u, o) else Score(before, u, o) {
      if u == t && o.relation in changed {
        assert o in At(before, t) <==> o in At(replacement, t);
      }
    }
  }

  ghost predicate IsPatch(current: Posting, replacement: Posting, changed: set<string>, values: Posting) {
    && (forall o: SearchObject :: o in values <==> if o.relation in changed then o in replacement else o in current)
    && (forall o: SearchObject | o in values :: values[o] == if o.relation in changed then replacement[o] else current[o])
  }

  lemma PatchScore(before: PostingMap, replacement: PostingMap, changed: set<string>, t: string, values: Posting, o: SearchObject)
    requires IsPatch(At(before, t), At(replacement, t), changed, values)
    ensures (if o in values then values[o] else 0) == Mixed(before, replacement, changed, t, o)
  {
  }

  lemma PatchPositive(before: PostingMap, replacement: PostingMap, changed: set<string>, t: string, values: Posting)
    requires Proper(before) && Proper(replacement) && IsPatch(At(before, t), At(replacement, t), changed, values)
    ensures forall o | o in values :: values[o] > 0
  {
  }

  lemma PatchPut(before: PostingMap, replacement: PostingMap, changed: set<string>, done: set<string>, p: PostingMap, t: string, values: Posting)
    requires Proper(before) && Proper(replacement) && PatchedFor(before, replacement, changed, done, p) && t !in done
    requires IsPatch(At(before, t), At(replacement, t), changed, values)
    ensures PatchedFor(before, replacement, changed, done + {t}, if values == map[] then p - {t} else p[t := values])
  {
    PatchPositive(before, replacement, changed, t, values);
    var next := if values == map[] then p - {t} else p[t := values];
    forall u, o ensures Score(next, u, o) == if u in done + {t} then Mixed(before, replacement, changed, u, o) else Score(before, u, o) {
      if u == t {
        PatchScore(before, replacement, changed, t, values, o);
      } else {
        assert Score(next, u, o) == Score(p, u, o);
      }
    }
  }

  ghost predicate OnlyChanged(p: PostingMap, changed: set<string>) {
    forall t | t in p :: forall o | o in p[t] :: o.relation in changed
  }

  function PostingAt(t: Tree<Posting>, term: string): Posting {
    var entry := Find(t, term);
    if entry.Some? then entry.value else map[]
  }

  lemma PostingAtIs(s: Store, t: Tree<Posting>, term: string)
    requires Canonical(s.postings, t)
    ensures PostingAt(t, term) == At(Contents(t), term)
  {
    ContentsFind(s.postings, t, term);
  }

  /** Applies the patch term by term, leaving lists whose changed part is the same alone. */
  method UpdatePostings(s: Store, base: Tree<Posting>, replacement: Tree<Posting>, terms: set<string>, changed: set<string>)
    returns (root: Tree<Posting>)
    requires Canonical(s.postings, base) && Canonical(s.postings, replacement)
    requires Proper(Contents(base)) && Proper(Contents(replacement)) && OnlyChanged(Contents(replacement), changed)
    ensures Canonical(s.postings, root) && PatchedFor(Contents(base), Contents(replacement), changed, terms, Contents(root))
  {
    root := base;
    var todo := terms;
    ghost var done := {};
    while todo != {}
      invariant Canonical(s.postings, root) && done !! todo && done + todo == terms
      invariant PatchedFor(Contents(base), Contents(replacement), changed, done, Contents(root))
    {
      var term :| term in todo;
      root := UpdateTerm(s, base, replacement, term, changed, root, done);
      todo := todo - {term};
      done := done + {term};
    }
    assert done == terms;
  }

  method UpdateTerm(s: Store, base: Tree<Posting>, replacement: Tree<Posting>, term: string, changed: set<string>, root: Tree<Posting>, ghost done: set<string>)
    returns (r: Tree<Posting>)
    requires Canonical(s.postings, base) && Canonical(s.postings, replacement) && Canonical(s.postings, root)
    requires Proper(Contents(base)) && Proper(Contents(replacement)) && OnlyChanged(Contents(replacement), changed)
    requires PatchedFor(Contents(base), Contents(replacement), changed, done, Contents(root)) && term !in done
    ensures Canonical(s.postings, r) && PatchedFor(Contents(base), Contents(replacement), changed, done + {term}, Contents(r))
  {
    PostingAtIs(s, base, term);
    PostingAtIs(s, replacement, term);
    var current, next := PostingAt(base, term), PostingAt(replacement, term);
    var same := SameRange(current, next, changed);
    if same {
      PatchSkip(Contents(base), Contents(replacement), changed, done, Contents(root), term);
      return root;
    }
    var values := Patched(current, next, changed);
    PatchPut(Contents(base), Contents(replacement), changed, done, Contents(root), term, values);
    if values == map[] {
      RemoveContents(s.postings, root, term);
      r := Remove(s.postings, root, term);
    } else {
      InsertContents(s.postings, root, term, values);
      r := Insert(s.postings, root, term, values);
    }
  }

  // ---- The whole index ----

  /** The relations of a catalog that are among the changed names. */
  function Only(m: Content, changed: set<string>): Content {
    m - (m.Keys - changed)
  }

  lemma ReplacementOnlyChanged(c: Corpus, kind: Channel, draft: Content, changed: set<string>, p: PostingMap)
    requires PostingsFor(c, kind, Only(draft, changed), p)
    ensures OnlyChanged(p, changed)
  {
    forall t, o | t in p && o in p[t] ensures o.relation in changed {
      assert Score(p, t, o) == Saturated(WeightAt(c, kind, Only(draft, changed), t, o));
    }
  }

  /** `terms` misses no term that a changed relation used before or uses now. */
  ghost predicate HoldsTerms(c: Corpus, kind: Channel, m: Content, names: set<string>, terms: set<string>) {
    forall n | n in names && n in m :: TermsIn(EntriesOf(c, kind, m[n])) <= terms
  }

  /** Per term and object, the patch scores what the new catalog says. */
  lemma PatchedWeight(c: Corpus, kind: Channel, before: Content, draft: Content, changed: set<string>, terms: set<string>,
                      base: PostingMap, replacement: PostingMap, after: PostingMap, t: string, o: SearchObject)
    requires ChangedOnly(before, draft, changed)
    requires PostingsFor(c, kind, before, base) && PostingsFor(c, kind, Only(draft, changed), replacement)
    requires HoldsTerms(c, kind, before, changed, terms) && HoldsTerms(c, kind, draft, changed, terms)
    requires PatchedFor(base, replacement, changed, terms, after)
    ensures Score(after, t, o) == Saturated(WeightAt(c, kind, draft, t, o))
  {
    assert Score(base, t, o) == Saturated(WeightAt(c, kind, before, t, o));
    assert Score(replacement, t, o) == Saturated(WeightAt(c, kind, Only(draft, changed), t, o));
    if o.relation in changed && t !in terms {
      if o.relation in before { NoTermNoTotal(EntriesOf(c, kind, before[o.relation]), t, o); }
      if o.relation in draft { NoTermNoTotal(EntriesOf(c, kind, draft[o.relation]), t, o); }
    }
  }

  lemma PatchedPostings(c: Corpus, kind: Channel, before: Content, draft: Content, changed: set<string>, terms: set<string>,
                        base: PostingMap, replacement: PostingMap, after: PostingMap)
    requires ChangedOnly(before, draft, changed)
    requires PostingsFor(c, kind, before, base) && PostingsFor(c, kind, Only(draft, changed), replacement)
    requires HoldsTerms(c, kind, before, changed, terms) && HoldsTerms(c, kind, draft, changed, terms)
    requires PatchedFor(base, replacement, changed, terms, after)
    ensures PostingsFor(c, kind, draft, after)
  {
    forall t, o ensures Score(after, t, o) == Saturated(WeightAt(c, kind, draft, t, o)) {
      PatchedWeight(c, kind, before, draft, changed, terms, base, replacement, after, t, o);
    }
  }

  function Replaced(m: Content, draft: Content, n: string): Content {
    if n in draft then m[n := draft[n]] else m - {n}
  }

  /** The footprint an index over `m` keeps for `n`. */
  ghost predicate FootprintAt(c: Corpus, m: Content, n: string, f: Option<Footprint>) {
    f == if n in m then Some(FootprintOf(c, m[n])) else None
  }

  method ReplaceFootprint(s: Store, c: Corpus, ghost m: Content, ghost draft: Content, n: string, next: Option<Footprint>, table: Tree<Footprint>)
    returns (r: Tree<Footprint>)
    requires Canonical(s.footprints, table) && FootprintsFor(c, m, Contents(table)) && FootprintAt(c, draft, n, next)
    ensures Canonical(s.footprints, r) && FootprintsFor(c, Replaced(m, draft, n), Contents(r))
  {
    if next.Some? {
      InsertContents(s.footprints, table, n, next.value);
      r := Insert(s.footprints, table, n, next.value);
    } else {
      RemoveContents(s.footprints, table, n);
      r := Remove(s.footprints, table, n);
    }
  }

  method AdjustCounts(c: Corpus, ghost m: Content, ghost draft: Content, n: string, current: Option<Footprint>, next: Option<Footprint>, objects: nat, fields: nat)
    returns (objects': nat, fields': nat)
    requires FootprintAt(c, m, n, current) && FootprintAt(c, draft, n, next)
    requires objects == Objects(c, m) && fields == Fields(m)
    ensures objects' == Objects(c, Replaced(m, draft, n)) && fields' == Fields(Replaced(m, draft, n))
  {
    objects', fields' := objects, fields;
    CountsWithout(c, m, n);
    if current.Some? {
      objects', fields' := objects' - current.value.objects, fields' - current.value.fields;
    }
    if next.Some? {
      CountsAfterPut(c, m, n, draft[n]);
      objects', fields' := objects' + next.value.objects, fields' + next.value.fields;
    }
  }

  function ExactTerms(f: Option<Footprint>): set<string> {
    if f.Some? then f.value.exact else {}
  }

  function LexicalTerms(f: Option<Footprint>): set<string> {
    if f.Some? then f.value.lexical else {}
  }

  /** Everything but the postings: footprints, counts, and the terms that need a look. */
  datatype Tally = Tally(footprints: Tree<Footprint>, objects: nat, fields: nat, exact: set<string>, lexical: set<string>)

  ghost predicate TallyFor(s: Store, c: Corpus, m: Content, t: Tally) {
    && Canonical(s.footprints, t.footprints) && FootprintsFor(c, m, Contents(t.footprints))
    && t.objects == Objects(c, m) && t.fields == Fields(m)
  }

  ghost predicate TermsHeld(c: Corpus, m: Content, names: set<string>, t: Tally) {
    HoldsTerms(c, Exact, m, names, t.exact) && HoldsTerms(c, Lexical, m, names, t.lexical)
  }

  ghost predicate MixOf(mix: Content, before: Content, draft: Content, done: set<string>) {
    forall n :: if n in done then (n in mix <==> n in draft) && (n in draft ==> mix[n] == draft[n])
                else (n in mix <==> n in before) && (n in before ==> mix[n] == before[n])
  }

  lemma FootprintFound(s: Store, c: Corpus, m: Content, t: Tree<Footprint>, n: string)
    requires Canonical(s.footprints, t) && FootprintsFor(c, m, Contents(t))
    ensures FootprintAt(c, m, n, Find(t, n))
  {
    ContentsFind(s.footprints, t, n);
  }

  lemma HoldMore(c: Corpus, kind: Channel, m: Content, done: set<string>, n: string, f: Option<Footprint>, terms: set<string>, more: set<string>)
    requires HoldsTerms(c, kind, m, done, terms) && terms <= more && FootprintAt(c, m, n, f)
    requires f.Some? ==> (if kind.Exact? then f.value.exact else f.value.lexical) <= more
    ensures HoldsTerms(c, kind, m, done + {n}, more)
  {
  }

  /** One changed relation: its old footprint out, its new footprint in. */
  method TallyOne(s: Store, c: Corpus, ghost mix: Content, ghost draft: Content, n: string, current: Option<Footprint>, next: Option<Footprint>, t: Tally)
    returns (r: Tally)
    requires TallyFor(s, c, mix, t) && FootprintAt(c, mix, n, current) && FootprintAt(c, draft, n, next)
    ensures TallyFor(s, c, Replaced(mix, draft, n), r)
    ensures r.exact == t.exact + ExactTerms(current) + ExactTerms(next)
    ensures r.lexical == t.lexical + LexicalTerms(current) + LexicalTerms(next)
  {
    var footprints := ReplaceFootprint(s, c, mix, draft, n, next, t.footprints);
    var objects, fields := AdjustCounts(c, mix, draft, n, current, next, t.objects, t.fields);
    r := Tally(footprints, objects, fields, t.exact + ExactTerms(current) + ExactTerms(next), t.lexical + LexicalTerms(current) + LexicalTerms(next));
  }

  lemma HoldMoreOf(c: Corpus, m: Content, done: set<string>, n: string, f: Option<Footprint>, t: Tally, r: Tally)
    requires TermsHeld(c, m, done, t) && FootprintAt(c, m, n, f)
    requires t.exact <= r.exact && t.lexical <= r.lexical && ExactTerms(f) <= r.exact && LexicalTerms(f) <= r.lexical
    ensures TermsHeld(c, m, done + {n}, r)
  {
    HoldMore(c, Exact, m, done, n, f, t.exact, r.exact);
    HoldMore(c, Lexical, m, done, n, f, t.lexical, r.lexical);
  }

  lemma MixNext(mix: Content, before: Content, draft: Content, done: set<string>, n: string)
    requires MixOf(mix, before, draft, done)
    ensures MixOf(Replaced(mix, draft, n), before, draft, done + {n})
  {
  }

  lemma MixFootprint(c: Corpus, mix: Content, before: Content, draft: Content, done: set<string>, n: string, f: Option<Footprint>)
    requires MixOf(mix, before, draft, done) && n !in done && FootprintAt(c, before, n, f)
    ensures FootprintAt(c, mix, n, f)
  {
  }

  lemma OnlyFootprint(c: Corpus, draft: Content, changed: set<string>, n: string, f: Option<Footprint>)
    requires n in changed && FootprintAt(c, Only(draft, changed), n, f)
    ensures FootprintAt(c, draft, n, f)
  {
  }

  lemma MixDone(mix: Content, before: Content, draft: Content, changed: set<string>)
    requires MixOf(mix, before, draft, changed) && ChangedOnly(before, draft, changed)
    ensures mix == draft
  {
  }

  ghost predicate Tallied(s: Store, c: Corpus, before: Content, draft: Content, mix: Content, done: set<string>, t: Tally) {
    TallyFor(s, c, mix, t) && MixOf(mix, before, draft, done) && TermsHeld(c, before, done, t) && TermsHeld(c, draft, done, t)
  }

  method TallyNext(s: Store, c: Corpus, ghost before: Content, ghost draft: Content, ghost mix: Content, ghost done: set<string>,
                   n: string, current: Option<Footprint>, next: Option<Footprint>, t: Tally) returns (r: Tally)
    requires Tallied(s, c, before, draft, mix, done, t) && n !in done
    requires FootprintAt(c, before, n, current) && FootprintAt(c, draft, n, next)
    ensures Tallied(s, c, before, draft, Replaced(mix, draft, n), done + {n}, r)
  {
    MixFootprint(c, mix, before, draft, done, n, current);
    r := TallyOne(s, c, mix, draft, n, current, next, t);
    HoldMoreOf(c, before, done, n, current, t, r);
    HoldMoreOf(c, draft, done, n, next, t, r);
    MixNext(mix, before, draft, done, n);
  }

  method TallyAll(s: Store, c: Corpus, ghost before: Content, ghost draft: Content, base: Index, replacement: Index, changed: set<string>) returns (t: Tally)
    requires ChangedOnly(before, draft, changed)
    requires TallyFor(s, c, before, Tally(base.footprints, base.objectsIndexed, base.fieldsIndexed, {}, {}))
    requires Canonical(s.footprints, replacement.footprints) && FootprintsFor(c, Only(draft, changed), Contents(replacement.footprints))
    ensures TallyFor(s, c, draft, t) && TermsHeld(c, before, changed, t) && TermsHeld(c, draft, changed, t)
  {
    t := Tally(base.footprints, base.objectsIndexed, base.fieldsIndexed, {}, {});
    var todo := changed;
    ghost var done, mix := {}, before;
    while todo != {}
      invariant done !! todo && done + todo == changed && Tallied(s, c, before, draft, mix, done, t)
    {
      var n :| n in todo;
      var current, next := Find(base.footprints, n), Find(replacement.footprints, n);
      FootprintFound(s, c, before, base.footprints, n);
      FootprintFound(s, c, Only(draft, changed), replacement.footprints, n);
      OnlyFootprint(c, draft, changed, n, next);
      t := TallyNext(s, c, before, draft, mix, done, n, current, next, t);
      mix := Replaced(mix, draft, n);
      todo, done := todo - {n}, done + {n};
    }
    assert done == changed;
    MixDone(mix, before, draft, changed);
  }

  /** Rebuilds the changed relations alone and patches them into the index of the old catalog. */
  method Update(s: Store, c: Corpus, ghost before: Content, draft: Content, ghost oldId: string, base: Index, changed: set<string>, id: string)
    returns (ix: Index)
    requires Speaks(c) && Named(draft) && ChangedOnly(before, draft, changed) && IndexFor(s, c, before, oldId, base)
    ensures IndexFor(s, c, draft, id, ix)
  {
    var replacement := Build(s, c, Only(draft, changed), id);
    ReplacementOnlyChanged(c, Exact, draft, changed, Contents(replacement.exact));
    ReplacementOnlyChanged(c, Lexical, draft, changed, Contents(replacement.lexical));
    var t := TallyAll(s, c, before, draft, base, replacement, changed);
    var exact := UpdatePostings(s, base.exact, replacement.exact, t.exact, changed);
    var lexical := UpdatePostings(s, base.lexical, replacement.lexical, t.lexical, changed);
    PatchedPostings(c, Exact, before, draft, changed, t.exact, Contents(base.exact), Contents(replacement.exact), Contents(exact));
    PatchedPostings(c, Lexical, before, draft, changed, t.lexical, Contents(base.lexical), Contents(replacement.lexical), Contents(lexical));
    ix := Index(id, exact, lexical, t.footprints, t.objects, t.fields);
  }
}
