/** Discovery along a history of publications: batches are applied one after another, and in
    between readers may or may not ask a generation for its index. */
module Generations {
  import opened Publication
  import opened Relations
  import SearchBuild
  import opened SearchIndex
  import opened Treap
  import opened Wrappers

  /** A publication, preceded by a reader of the current generation or not. */
  datatype Event = Event(read: bool, batch: seq<Mutation>)

  /** A refused batch leaves no trace. */
  ghost function Published(setting: Setting, m: Content, batch: seq<Mutation>): Content {
    if Accepts(setting, m, batch) then Drafted(m, batch).value.0 else m
  }

  ghost function After(setting: Setting, m: Content, history: seq<Event>): Content {
    if history == [] then m
    else Published(setting, After(setting, m, history[..|history| - 1]), history[|history| - 1].batch)
  }

  method Read(catalog: Catalog) returns (index: Index)
    requires catalog.Consistent()
    modifies catalog`snapshot, catalog.Cached()
    ensures catalog.Consistent() && fresh(catalog.Cached() - old(catalog.Cached()))
    ensures IndexFor(catalog.setting.store, catalog.setting.corpus, catalog.Content(), Digest(catalog.root), index)
    ensures catalog.Finished() == Some(index)
  {
    var s := catalog.Snapshot();
    index := s.SearchIndexBudgeted();
  }

  method Happen(catalog: Catalog, event: Event)
    requires catalog.Consistent()
    modifies catalog, catalog.Cached()
    ensures catalog.Consistent() && fresh(catalog.Cached() - old(catalog.Cached()))
    ensures catalog.Content() == Published(catalog.setting, old(catalog.Content()), event.batch)
  {
    if event.read {
      var _ := Read(catalog);
    }
    var _ := catalog.ApplyChanges(event.batch);
  }

  method Compare(catalog: Catalog) returns (patched: Index, built: Index)
    requires catalog.Consistent()
    modifies catalog`snapshot, catalog.Cached()
    ensures catalog.Consistent() && patched == built
    ensures IndexFor(catalog.setting.store, catalog.setting.corpus, catalog.Content(), Digest(catalog.root), patched)
  {
    patched := Read(catalog);
    EntriesGive(catalog.setting.relations, catalog.root);
    built := SearchBuild.Build(catalog.setting.store, catalog.setting.corpus, FromEntries(Entries(catalog.root)), Digest(catalog.root));
    IndexUnique(catalog.setting.store, catalog.setting.corpus, catalog.Content(), Digest(catalog.root), patched, built);
  }

  /** Whichever generations built their index on the way, the index of the last one is, bit
      for bit, the one a build from scratch gives. */
  method PatchedEqualsBuilt(catalog: Catalog, history: seq<Event>) returns (patched: Index, built: Index)
    requires catalog.Consistent()
    modifies catalog, catalog.Cached()
    ensures catalog.Consistent() && catalog.Content() == After(catalog.setting, old(catalog.Content()), history)
    ensures patched == built
    ensures IndexFor(catalog.setting.store, catalog.setting.corpus, catalog.Content(), Digest(catalog.root), patched)
  {
    for i := 0 to |history|
      invariant catalog.Consistent() && fresh(catalog.Cached() - old(catalog.Cached()))
      invariant catalog.Content() == After(catalog.setting, old(catalog.Content()), history[..i])
    {
      assert history[..i + 1][..i] == history[..i];
      Happen(catalog, history[i]);
    }
    assert history[..|history|] == history;
    patched, built := Compare(catalog);
  }
}
