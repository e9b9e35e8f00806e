/** Concurrent publication. Publishers clone the current catalog, work on the clone, and
    install it only if the current digest is still the one they expected. */
module CatalogStore {
  import opened Incremental
  import opened Publication
  import opened Relations
  import opened ReverseIndex
  import opened Treap
  import opened Wrappers

  datatype Stored = Stored(root: Tree<Relation>, analysis: Tree<set<string>>)

  /** A publisher between its clone and its write: what it cloned and what it made of it. */
  datatype Phase = Idle | Ready(base: Stored, batch: seq<Mutation>, draft: Stored, report: Report)

  datatype Commit = Commit(expected: string, batch: seq<Mutation>, report: Report)

  /** `log` lists the publications that succeeded, in order. */
  datatype Store = Store(current: Stored, publishers: map<nat, Phase>, log: seq<Commit>)

  /** One publisher's next move: clone and draft, fail to, or try to install. */
  datatype Step =
    | Begin(publisher: nat, expected: string, batch: seq<Mutation>, draft: Stored, report: Report)
    | Refuse(publisher: nat, expected: string, batch: seq<Mutation>)
    | Finish(publisher: nat)

  ghost predicate Publishes(setting: Setting, c: Stored, batch: seq<Mutation>, c': Stored, report: Report) {
    && Accepts(setting, Contents(c.root), batch)
    && Applied(setting, c.root, Some(c.analysis), batch, c'.root, Some(c'.analysis), report)
  }

  function PhaseOf(s: Store, publisher: nat): Phase {
    if publisher in s.publishers then s.publishers[publisher] else Idle
  }

  ghost predicate Next(setting: Setting, s: Store, step: Step, s': Store) {
    match step
    case Begin(p, expected, batch, draft, report) =>
      && PhaseOf(s, p).Idle? && Digest(s.current.root) == expected
      && Publishes(setting, s.current, batch, draft, report)
      && s' == s.(publishers := s.publishers[p := Ready(s.current, batch, draft, report)])
    case Refuse(p, expected, batch) =>
      && PhaseOf(s, p).Idle? && s' == s
      && (Digest(s.current.root) != expected || !Accepts(setting, Contents(s.current.root), batch))
    case Finish(p) =>
      && PhaseOf(s, p).Ready?
      && var mine := PhaseOf(s, p);
         var expected := Digest(mine.base.root);
         var idle := s.publishers[p := Idle];
         if Digest(s.current.root) == expected
         then s' == Store(mine.draft, idle, s.log + [Commit(expected, mine.batch, mine.report)])
         else s' == s.(publishers := idle)
  }

  ghost predicate IsRun(setting: Setting, steps: seq<Step>, states: seq<Store>) {
    |states| == |steps| + 1 && forall i | 0 <= i < |steps| :: Next(setting, states[i], steps[i], states[i + 1])
  }

  // ---- What holds throughout ----

  /** Validated, with an exact analysis. */
  ghost predicate Good(setting: Setting, c: Stored) {
    && Canonical(setting.relations, c.root) && Named(Contents(c.root))
    && Valid(Contents(c.root), setting.local) && Exact(setting.edges, c.analysis, Contents(c.root))
  }

  /** Digests and revisions identify what they are taken of. */
  ghost predicate Identifying(setting: Setting) {
    CollisionFree(setting.relations) && forall x, y :: setting.relations.revision(x) == setting.relations.revision(y) ==> x == y
  }

  /** The log, replayed one publication after another on exactly the content each expected. */
  ghost predicate Serial(setting: Setting, start: Stored, log: seq<Commit>, end: Stored) {
    if log == [] then end == start
    else
      var last := log[|log| - 1];
      exists mid :: Serial(setting, start, log[..|log| - 1], mid)
                 && Digest(mid.root) == last.expected && Publishes(setting, mid, last.batch, end, last.report)
  }

  ghost predicate Invariant(setting: Setting, start: Stored, s: Store) {
    && Good(setting, s.current) && Serial(setting, start, s.log, s.current)
    && forall p | p in s.publishers && s.publishers[p].Ready? ::
         var r := s.publishers[p]; Good(setting, r.base) && Publishes(setting, r.base, r.batch, r.draft, r.report)
  }

  lemma PublishedIsGood(setting: Setting, c: Stored, batch: seq<Mutation>, c': Stored, report: Report)
    requires Good(setting, c) && Publishes(setting, c, batch, c', report)
    ensures Good(setting, c')
  {
    DraftedKeeps(Contents(c.root), batch);
  }

  /** One digest, one catalog: even after other publications came and went in between. */
  lemma SameDigestSameCatalog(setting: Setting, a: Stored, b: Stored)
    requires Identifying(setting) && Good(setting, a) && Good(setting, b) && Digest(a.root) == Digest(b.root)
    ensures a == b
  {
    DigestIdentifiesTree(setting.relations, a.root, b.root);
    ExactUnique(setting.edges, a.analysis, b.analysis, Contents(a.root));
  }

  lemma SerialExtends(setting: Setting, start: Stored, log: seq<Commit>, mid: Stored, commit: Commit, end: Stored)
    requires Serial(setting, start, log, mid) && Digest(mid.root) == commit.expected
    requires Publishes(setting, mid, commit.batch, end, commit.report)
    ensures Serial(setting, start, log + [commit], end)
  {
    assert (log + [commit])[..|log|] == log;
  }

  lemma StepKeepsInvariant(setting: Setting, start: Stored, s: Store, step: Step, s': Store)
    requires Identifying(setting) && Invariant(setting, start, s) && Next(setting, s, step, s')
    ensures Invariant(setting, start, s')
  {
    if step.Finish? {
      var mine := PhaseOf(s, step.publisher);
      if Digest(s.current.root) == Digest(mine.base.root) {
        SameDigestSameCatalog(setting, s.current, mine.base);
        PublishedIsGood(setting, s.current, mine.batch, mine.draft, mine.report);
        SerialExtends(setting, start, s.log, s.current, Commit(Digest(mine.base.root), mine.batch, mine.report), mine.draft);
      }
    }
  }

  /** Under every interleaving the store behaves as if its successful publications had run
      alone, one after another, and the stored catalog is always valid with an exact index. */
  lemma {:induction false} PublicationsAreAtomic(setting: Setting, steps: seq<Step>, states: seq<Store>)
    requires Identifying(setting) && IsRun(setting, steps, states)
    requires Good(setting, states[0].current) && states[0].publishers == map[] && states[0].log == []
    ensures var last := states[|states| - 1];
            Good(setting, last.current) && Serial(setting, states[0].current, last.log, last.current)
  {
    InvariantHolds(setting, steps, states, |steps|);
  }

  lemma {:induction false} InvariantHolds(setting: Setting, steps: seq<Step>, states: seq<Store>, i: nat)
    requires Identifying(setting) && IsRun(setting, steps, states) && i < |states|
    requires Good(setting, states[0].current) && states[0].publishers == map[] && states[0].log == []
    ensures Invariant(setting, states[0].current, states[i])
  {
    if i > 0 {
      InvariantHolds(setting, steps, states, i - 1);
      StepKeepsInvariant(setting, states[0].current, states[i - 1], steps[i - 1], states[i]);
    }
  }

  /** A publication has only one possible outcome, whichever publisher computes it. */
  lemma PublishedUniquely(setting: Setting, c: Stored, batch: seq<Mutation>, c1: Stored, r1: Report, c2: Stored, r2: Report)
    requires Publishes(setting, c, batch, c1, r1) && Publishes(setting, c, batch, c2, r2)
    ensures c1 == c2 && r1 == r2
  {
    EqualContents(setting.relations, c1.root, c2.root);
    if r1.changed != {} {
      AnalysisUnique(setting.edges, Contents(c.root), Contents(c1.root), r1.changed, c1.analysis, r1.affected, c2.analysis, r2.affected);
    }
  }
}
