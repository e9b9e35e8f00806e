/** Publishing batches of relation changes: a catalog applies a batch as a whole or not at
    all, and a store lets concurrent publishers race under an optimistic revision check. */
module Publication {
  import opened Incremental
  import opened Relations
  import opened ReverseIndex
  import SearchIndex
  import opened Snapshots
  import opened Treap
  import opened Validation
  import opened Wrappers

  datatype Mutation = PutRelation(relation: Relation) | RemoveRelation(name: string)

  datatype Report = Report(previous: string, snapshot: string, changed: set<string>, affected: set<string>)

  /** Fixed surroundings: the hashings, the checks that read one relation alone, and what
      relations say to the discovery index. */
  datatype Setting = Setting(relations: Hashing<Relation>, edges: Hashing<set<string>>, local: Relation -> bool,
                             store: SearchIndex.Store, corpus: SearchIndex.Corpus)

  // ---- What a batch means ----

  /** Content and changed names after a batch; no result if it removes a missing relation. */
  function Drafted(m: Content, batch: seq<Mutation>): Option<(Content, set<string>)> {
    if batch == [] then Some((m, {}))
    else
      var before := Drafted(m, batch[..|batch| - 1]);
      if before.None? then None
      else Mutated(before.value.0, before.value.1, batch[|batch| - 1])
  }

  function Mutated(m: Content, changed: set<string>, change: Mutation): Option<(Content, set<string>)> {
    match change
    case PutRelation(r) =>
      if r.name in m && m[r.name] == r then Some((m, changed)) else Some((m[r.name := r], changed + {r.name}))
    case RemoveRelation(n) =>
      if n in m then Some((m - {n}, changed + {n})) else None
  }

  ghost predicate Accepts(setting: Setting, m: Content, batch: seq<Mutation>) {
    var d := Drafted(m, batch);
    d.Some? && (d.value.1 != {} ==> Valid(d.value.0, setting.local))
  }

  lemma {:induction false} DraftedKeeps(m: Content, batch: seq<Mutation>)
    requires Named(m) && Drafted(m, batch).Some?
    ensures Named(Drafted(m, batch).value.0) && ChangedOnly(m, Drafted(m, batch).value.0, Drafted(m, batch).value.1)
  {
    if batch != [] { DraftedKeeps(m, batch[..|batch| - 1]); }
  }

  /** Change `i` removes a name that the changes before it leave absent. */
  predicate Misses(m: Content, batch: seq<Mutation>, i: int, error: PublicationError)
    requires 0 <= i < |batch|
  {
    var before := Drafted(m, batch[..i]);
    batch[i].RemoveRelation? && before.Some? && batch[i].name !in before.value.0 && error == MissingRelation(batch[i].name)
  }

  /** Why a batch is refused: a removal that misses, or what is wrong with the outcome. */
  ghost predicate Explains(setting: Setting, m: Content, batch: seq<Mutation>, error: PublicationError) {
    || (exists i :: 0 <= i < |batch| && Misses(m, batch, i, error))
    || (Drafted(m, batch).Some? && Blames(Drafted(m, batch).value.0, setting.local, error))
  }

  // ---- One catalog ----

  class Catalog {
    const setting: Setting
    var root: Tree<Relation>
    var analysis: Option<Tree<set<string>>>
    var snapshot: Option<CatalogSnapshot>

    ghost function Cached(): set<CatalogSnapshot>
      reads this
    {
      if snapshot.Some? then {snapshot.value} else {}
    }

    ghost function Finished(): Option<SearchIndex.Index>
      reads this, Cached()
    {
      if snapshot.Some? then snapshot.value.search else None
    }

    ghost function Content(): Relations.Content
      reads this
    {
      Contents(root)
    }

    /** A cached analysis vouches for validity and is exact; a cached snapshot is current. */
    ghost predicate Consistent()
      reads this, Cached()
    {
      && Canonical(setting.relations, root) && Named(Content()) && SearchIndex.Speaks(setting.corpus)
      && (analysis.Some? ==> Valid(Content(), setting.local) && Exact(setting.edges, analysis.value, Content()))
      && (snapshot.Some? ==> IsCurrent(snapshot.value))
    }

    ghost predicate IsCurrent(s: CatalogSnapshot)
      reads this, s
    {
      && s.Valid() && s.root == root
      && s.hashing == setting.relations && s.store == setting.store && s.corpus == setting.corpus
    }

    constructor (setting: Setting)
      requires SearchIndex.Speaks(setting.corpus)
      ensures Consistent() && this.setting == setting && Content() == map[]
    {
      this.setting := setting;
      root, analysis, snapshot := Leaf, None, None;
    }

    /** The snapshot of this generation, made once. */
    method Snapshot() returns (s: CatalogSnapshot)
      requires Consistent()
      modifies this`snapshot
      ensures Consistent() && snapshot == Some(s)
      ensures if old(snapshot).Some? then s == old(snapshot).value else fresh(s) && s.search.None? && s.seed.None?
    {
      if snapshot.None? {
        var made := new CatalogSnapshot(setting.store, setting.corpus, setting.relations, root);
        snapshot := Some(made);
      }
      s := snapshot.value;
    }

    /** Adds a relation, never replacing one; both caches are dropped. */
    method Register(relation: Relation) returns (ok: bool)
      requires Consistent()
      modifies this
      ensures Consistent() && ok == (relation.name !in old(Content()))
      ensures Content() == if ok then old(Content())[relation.name := relation] else old(Content())
      ensures ok ==> snapshot.None? && analysis.None?
      ensures !ok ==> root == old(root) && analysis == old(analysis) && snapshot == old(snapshot)
    {
      ContentsFind(setting.relations, root, relation.name);
      var present := Get(root, relation.name);
      if present.Some? { return false; }
      InsertContents(setting.relations, root, relation.name, relation);
      root := Insert(setting.relations, root, relation.name, relation);
      snapshot, analysis := None, None;
      return true;
    }

    /** Validates everything unless an analysis already vouches for this content. */
    method ValidateAll() returns (r: Result<(), PublicationError>)
      requires Consistent()
      modifies this`analysis
      ensures Consistent() && (r.Ok? <==> Valid(Content(), setting.local)) && (r.Ok? <==> analysis.Some?)
      ensures r.Err? ==> Blames(Content(), setting.local, r.error)
    {
      if analysis.Some? { return Ok(()); }
      EntriesGive(setting.relations, root);
      var content := FromEntries(Entries(root));
      var validated := Validate(content, setting.local);
      if validated.Err? { return Err(validated.error); }
      var built := new DependencyAnalysis.FromReverse(setting.edges, validated.value);
      analysis := Some(built.reverse);
      return Ok(());
    }

    /** Replays a batch on the draft's root. */
    method Draft(batch: seq<Mutation>) returns (r: Result<(Tree<Relation>, set<string>), PublicationError>)
      requires Consistent()
      ensures r.Ok? <==> Drafted(Content(), batch).Some?
      ensures r.Err? ==> exists i :: 0 <= i < |batch| && Misses(Content(), batch, i, r.error)
      ensures r.Ok? ==> Canonical(setting.relations, r.value.0) && (Contents(r.value.0), r.value.1) == Drafted(Content(), batch).value
    {
      var draft, changed := root, {};
      for i := 0 to |batch|
        invariant Canonical(setting.relations, draft) && Drafted(Content(), batch[..i]) == Some((Contents(draft), changed))
      {
        assert batch[..i + 1][..i] == batch[..i];
        ghost var next := Drafted(Content(), batch[..i + 1]);
        match batch[i]
        case PutRelation(relation) =>
          ContentsFind(setting.relations, draft, relation.name);
          var current := Get(draft, relation.name);
          if current != Some(relation) {
            InsertContents(setting.relations, draft, relation.name, relation);
            draft := Insert(setting.relations, draft, relation.name, relation);
            changed := changed + {relation.name};
          }
        case RemoveRelation(name) =>
          ContentsFind(setting.relations, draft, name);
          var current := Get(draft, name);
          if current.None? {
            assert Misses(Content(), batch, i, MissingRelation(name));
            DraftedStuck(Content(), batch, i + 1);
            return Err(MissingRelation(name));
          }
          RemoveContents(setting.relations, draft, name);
          draft := Remove(setting.relations, draft, name);
          changed := changed + {name};
      }
      assert batch[..|batch|] == batch;
      return Ok((draft, changed));
    }

    /** The warm path if an analysis is at hand, the cold path otherwise. */
    method Analyse(draft: Tree<Relation>, changed: set<string>) returns (r: Result<(Tree<set<string>>, set<string>), PublicationError>)
      requires Consistent() && Canonical(setting.relations, draft) && Named(Contents(draft))
      requires ChangedOnly(Content(), Contents(draft), changed)
      ensures r.Ok? <==> Valid(Contents(draft), setting.local)
      ensures r.Err? ==> Blames(Contents(draft), setting.local, r.error)
      ensures r.Ok? ==> Analysed(setting.edges, Content(), Contents(draft), changed, r.value.0, r.value.1)
    {
      EntriesGive(setting.relations, root);
      EntriesGive(setting.relations, draft);
      var before, after := FromEntries(Entries(root)), FromEntries(Entries(draft));
      if analysis.Some? {
        r := Incrementally(setting.edges, before, after, analysis.value, changed, setting.local);
      } else {
        r := FromScratch(setting.edges, before, after, changed, setting.local);
      }
    }

    /** All of a batch or nothing; warm or cold, with the same verdict and the same report. The
        next generation has a snapshot of its own, seeded with the finished index of this one. */
    method ApplyChanges(batch: seq<Mutation>) returns (r: Result<Report, PublicationError>)
      requires Consistent()
      modifies this
      ensures Consistent() && (r.Ok? <==> Accepts(setting, old(Content()), batch))
      ensures r.Err? || r.value.changed == {} ==> root == old(root) && analysis == old(analysis)
      ensures (r.Err? || r.value.changed == {}) && old(snapshot).Some? ==> snapshot == old(snapshot)
      ensures fresh(Cached() - old(Cached()))
      ensures r.Ok? && r.value.changed != {} ==>
        && snapshot.Some? && fresh(snapshot.value) && snapshot.value.search.None?
        && (old(Finished()).None? ==> snapshot.value.seed.None?)
        && (old(Finished()).Some? ==> snapshot.value.seed == Some(Seed(old(Finished()).value, r.value.changed)))
      ensures r.Ok? ==> Applied(setting, old(root), old(analysis), batch, root, analysis, r.value)
      ensures r.Err? ==> Explains(setting, old(Content()), batch, r.error)
    {
      var previous := Snapshot();
      var drafted := Draft(batch);
      if drafted.Err? { return Err(drafted.error); }
      var (draft, changed) := drafted.value;
      DraftedKeeps(Content(), batch);
      if changed == {} {
        NothingChanged(setting, root, draft);
        return Ok(Report(previous.Id(), previous.Id(), changed, changed));
      }
      var analysed := Analyse(draft, changed);
      if analysed.Err? { return Err(analysed.error); }
      root, analysis, snapshot := draft, Some(analysed.value.0), None;
      var next := Snapshot();
      next.SeedSearch(previous, changed);
      return Ok(Report(previous.Id(), next.Id(), changed, analysed.value.1));
    }
  }

  /** The state and the report a successful batch leaves, down to the bits of both trees. */
  ghost predicate Applied(setting: Setting, root: Tree<Relation>, analysis: Option<Tree<set<string>>>, batch: seq<Mutation>,
                          root': Tree<Relation>, analysis': Option<Tree<set<string>>>, report: Report)
  {
    && Canonical(setting.relations, root')
    && Drafted(Contents(root), batch) == Some((Contents(root'), report.changed))
    && report.previous == Digest(root) && report.snapshot == Digest(root')
    && (if report.changed == {} then root' == root && analysis' == analysis && report.affected == {}
        else analysis'.Some? && Analysed(setting.edges, Contents(root), Contents(root'), report.changed, analysis'.value, report.affected))
  }

  lemma NothingChanged(setting: Setting, root: Tree<Relation>, draft: Tree<Relation>)
    requires Canonical(setting.relations, root) && Canonical(setting.relations, draft)
    requires ChangedOnly(Contents(root), Contents(draft), {})
    ensures root == draft
  {
    assert forall n | n !in {} :: n in Contents(root) <==> n in Contents(draft);
    EqualContents(setting.relations, root, draft);
  }

  lemma {:induction false} DraftedStuck(m: Content, batch: seq<Mutation>, i: nat)
    requires i <= |batch| && Drafted(m, batch[..i]).None?
    ensures Drafted(m, batch).None?
    decreases |batch|
  {
    if i < |batch| {
      var front := batch[..|batch| - 1];
      assert front[..i] == batch[..i];
      DraftedStuck(m, front, i);
    } else {
      assert batch[..i] == batch;
    }
  }
}
