/** Published snapshots and their discovery indexes. A snapshot builds its index on first
    use: by patching the seeded index of its predecessor if there was one, else from scratch. */
module Snapshots {
  import opened Incremental
  import opened Relations
  import opened SearchBuild
  import opened SearchIndex
  import opened SearchUpdate
  import opened Treap
  import opened Wrappers

  datatype Seed = Seed(base: Index, changed: set<string>)

  class CatalogSnapshot {
    const store: Store
    const corpus: Corpus
    const hashing: Hashing<Relation>
    const root: Tree<Relation>
    var search: Option<Index>
    var seed: Option<Seed>
    ghost var ancestor: (Content, string)

    function Id(): string { Digest(root) }

    ghost function Published(): Content { Contents(root) }

    /** A finished index is the one its content calls for; a seed is the index of some
        catalog from which the changed names lead to this one. */
    ghost predicate Valid()
      reads this
    {
      && Canonical(hashing, root) && Named(Published()) && Speaks(corpus)
      && (search.Some? ==> IndexFor(store, corpus, Published(), Id(), search.value))
      && (seed.Some? ==>
            && IndexFor(store, corpus, ancestor.0, ancestor.1, seed.value.base)
            && ChangedOnly(ancestor.0, Published(), seed.value.changed))
    }

    constructor (store: Store, corpus: Corpus, hashing: Hashing<Relation>, root: Tree<Relation>)
      requires Canonical(hashing, root) && Named(Contents(root)) && Speaks(corpus)
      ensures Valid() && this.store == store && this.corpus == corpus && this.root == root && this.hashing == hashing
      ensures search.None? && seed.None?
    {
      this.store, this.corpus, this.hashing, this.root := store, corpus, hashing, root;
      search, seed, ancestor := None, None, (map[], "");
    }

    /** Keeps the predecessor's finished index, if it has one, as a starting point. */
    method SeedSearch(previous: CatalogSnapshot, changed: set<string>)
      requires Valid() && previous.Valid() && previous.store == store && previous.corpus == corpus
      requires ChangedOnly(previous.Published(), Published(), changed)
      modifies this`seed, this`ancestor
      ensures Valid() && search == old(search)
      ensures previous.search.None? ==> seed == old(seed)
      ensures previous.search.Some? ==> seed == Some(Seed(previous.search.value, changed))
    {
      if previous.search.Some? {
        seed := Some(Seed(previous.search.value, changed));
        ancestor := (previous.Published(), previous.Id());
      }
    }

    /** However it comes about, the index is the one a build from scratch would give. */
    method SearchIndexBudgeted() returns (index: Index)
      requires Valid()
      modifies this`search, this`seed
      ensures Valid() && IndexFor(store, corpus, Published(), Id(), index) && search == Some(index)
      ensures old(search).Some? ==> index == old(search).value
    {
      if search.Some? { return search.value; }
      EntriesGive(hashing, root);
      var content := FromEntries(Entries(root));
      if seed.Some? {
        index := Update(store, corpus, ancestor.0, content, ancestor.1, seed.value.base, seed.value.changed, Id());
      } else {
        index := Build(store, corpus, content, Id());
      }
      search, seed := Some(index), None;
    }
  }
}
