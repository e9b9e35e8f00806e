/** The reverse-dependency index: who has to be looked at again when a relation changes. */
module ReverseIndex {
  import opened Relations
  import opened Treap

  /** Name to dependents. A set of names is stored under its canonical digest. */
  type ReverseEdges = map<string, set<string>>

  ghost predicate EdgeIn(r: ReverseEdges, d: string, n: string) {
    d in r && n in r[d]
  }

  ghost predicate NoneEmpty(r: ReverseEdges) {
    forall d | d in r :: r[d] != {}
  }

  function AddEdge(r: ReverseEdges, d: string, n: string): ReverseEdges {
    r[d := (if d in r then r[d] else {}) + {n}]
  }

  /** Two indexes with the same edges and no empty entries are the same map. */
  lemma SameEdges(a: ReverseEdges, b: ReverseEdges)
    requires NoneEmpty(a) && NoneEmpty(b)
    requires forall d, n :: EdgeIn(a, d, n) <==> EdgeIn(b, d, n)
    ensures a == b
  {
    forall d
      ensures d in a <==> d in b
      ensures d in a ==> a[d] == b[d]
    {
      if d in a { var n :| n in a[d]; assert EdgeIn(a, d, n); assert EdgeIn(b, d, n); }
      if d in b { var n :| n in b[d]; assert EdgeIn(b, d, n); assert EdgeIn(a, d, n); }
      if d in a {
        forall n ensures n in a[d] <==> n in b[d] { assert EdgeIn(a, d, n) <==> EdgeIn(b, d, n); }
      }
    }
  }

  lemma ReverseEdgesOf(m: Content)
    ensures NoneEmpty(ReverseOf(m))
    ensures forall d, n :: EdgeIn(ReverseOf(m), d, n) <==> n in m && d in Dependencies(m[n])
  {
    var r := ReverseOf(m);
    forall d | d in r ensures r[d] != {} {
      var n :| n in m && d in Dependencies(m[n]);
      assert n in Dependents(m, d);
    }
  }

  /** What one edit leaves in the index: an emptied entry disappears. */
  function Edited(r: ReverseEdges, dependency: string, dependent: string, insert: bool): ReverseEdges {
    var current := if dependency in r then r[dependency] else {};
    var names := if insert then current + {dependent} else current - {dependent};
    if names == {} then r - {dependency} else r[dependency := names]
  }

  lemma EditedEdges(r: ReverseEdges, dependency: string, dependent: string, insert: bool, d: string, n: string)
    ensures EdgeIn(Edited(r, dependency, dependent, insert), d, n)
       <==> if d == dependency && n == dependent then insert else EdgeIn(r, d, n)
    ensures NoneEmpty(r) ==> NoneEmpty(Edited(r, dependency, dependent, insert))
  {
  }

  class DependencyAnalysis {
    const hashing: Hashing<set<string>>
    var reverse: Tree<set<string>>

    ghost predicate Valid()
      reads this
    {
      Canonical(hashing, reverse)
    }

    ghost function Edges(): ReverseEdges
      reads this
    {
      Contents(reverse)
    }

    /** The index a tree of a previous generation holds; trees are shared, not copied. */
    constructor Clone(hashing: Hashing<set<string>>, reverse: Tree<set<string>>)
      requires Canonical(hashing, reverse)
      ensures Valid() && this.hashing == hashing && this.reverse == reverse
    {
      this.hashing := hashing;
      this.reverse := reverse;
    }

    constructor FromReverse(hashing: Hashing<set<string>>, edges: ReverseEdges)
      ensures Valid() && this.hashing == hashing && Edges() == edges
    {
      this.hashing := hashing;
      this.reverse := Leaf;
      new;
      reverse := FromMap(hashing, edges);
    }

    method Names(name: string) returns (names: set<string>)
      requires Valid()
      ensures names == if name in Edges() then Edges()[name] else {}
    {
      ContentsFind(hashing, reverse, name);
      var entry := Get(reverse, name);
      names := if entry.Some? then entry.value else {};
    }

    method Edit(dependency: string, dependent: string, insert: bool)
      requires Valid()
      modifies this`reverse
      ensures Valid() && Edges() == Edited(old(Edges()), dependency, dependent, insert)
    {
      var names := Names(dependency);
      names := if insert then names + {dependent} else names - {dependent};
      if names == {} {
        RemoveContents(hashing, reverse, dependency);
        reverse := Remove(hashing, reverse, dependency);
      } else {
        InsertContents(hashing, reverse, dependency, names);
        reverse := Insert(hashing, reverse, dependency, names);
      }
    }
  }

  /** A tree holding exactly the reverse edges of `m`. There is only one such tree. */
  ghost predicate Exact(h: Hashing<set<string>>, t: Tree<set<string>>, m: Content) {
    Canonical(h, t) && Contents(t) == ReverseOf(m)
  }

  lemma ExactUnique(h: Hashing<set<string>>, a: Tree<set<string>>, b: Tree<set<string>>, m: Content)
    requires Exact(h, a, m) && Exact(h, b, m)
    ensures a == b
  {
    EqualContents(h, a, b);
  }

  /** Edges of a catalog where the relations in `done` are already the draft's. */
  ghost predicate HalfWay(r: ReverseEdges, before: Content, draft: Content, done: set<string>) {
    && NoneEmpty(r)
    && (forall d, n :: EdgeIn(r, d, n) <==> d in DependenciesIn(if n in done then draft else before, n))
  }

  /** Moving one relation's edges from the old declaration to the new one. */
  method MoveEdges(analysis: DependencyAnalysis, name: string, before: set<string>, after: set<string>)
    requires analysis.Valid() && NoneEmpty(analysis.Edges())
    requires forall d :: EdgeIn(analysis.Edges(), d, name) <==> d in before
    modifies analysis`reverse
    ensures analysis.Valid() && NoneEmpty(analysis.Edges())
    ensures forall d, n :: EdgeIn(analysis.Edges(), d, n) <==> if n == name then d in after else EdgeIn(old(analysis.Edges()), d, n)
  {
    ghost var start := analysis.Edges();
    var gone := before - after;
    while gone != {}
      invariant analysis.Valid() && NoneEmpty(analysis.Edges()) && gone <= before - after
      invariant forall d, n :: EdgeIn(analysis.Edges(), d, n)
                  <==> if n == name then d in before * after + gone else EdgeIn(start, d, n)
    {
      var dependency :| dependency in gone;
      ghost var r := analysis.Edges();
      analysis.Edit(dependency, name, false);
      forall d, n { EditedEdges(r, dependency, name, false, d, n); }
      gone := gone - {dependency};
    }
    var added := after - before;
    while added != {}
      invariant analysis.Valid() && NoneEmpty(analysis.Edges()) && added <= after - before
      invariant forall d, n :: EdgeIn(analysis.Edges(), d, n)
                  <==> if n == name then d in after - added else EdgeIn(start, d, n)
    {
      var dependency :| dependency in added;
      ghost var r := analysis.Edges();
      analysis.Edit(dependency, name, true);
      forall d, n { EditedEdges(r, dependency, name, true, d, n); }
      added := added - {dependency};
    }
  }

  /** Editing only the changed relations' edges gives the index built from scratch. */
  method EditChanged(before: Content, draft: Content, analysis: DependencyAnalysis, changed: set<string>)
    requires analysis.Valid() && analysis.Edges() == ReverseOf(before)
    requires forall n | n !in changed :: DependenciesIn(before, n) == DependenciesIn(draft, n)
    modifies analysis`reverse
    ensures Exact(analysis.hashing, analysis.reverse, draft)
  {
    ReverseEdgesOf(before);
    ghost var done := {};
    var todo := changed;
    while todo != {}
      invariant analysis.Valid() && done !! todo && done + todo == changed
      invariant HalfWay(analysis.Edges(), before, draft, done)
    {
      var name :| name in todo;
      ghost var r := analysis.Edges();
      MoveEdges(analysis, name, DependenciesIn(before, name), DependenciesIn(draft, name));
      HalfWayNext(r, analysis.Edges(), before, draft, done, name);
      todo := todo - {name};
      done := done + {name};
    }
    HalfWayAll(analysis.Edges(), before, draft, changed);
  }

  lemma HalfWayNext(r: ReverseEdges, moved: ReverseEdges, before: Content, draft: Content, done: set<string>, name: string)
    requires HalfWay(r, before, draft, done) && NoneEmpty(moved)
    requires forall d, n :: EdgeIn(moved, d, n) <==> if n == name then d in DependenciesIn(draft, name) else EdgeIn(r, d, n)
    ensures HalfWay(moved, before, draft, done + {name})
  {
  }

  lemma HalfWayAll(r: ReverseEdges, before: Content, draft: Content, changed: set<string>)
    requires HalfWay(r, before, draft, changed) && forall n | n !in changed :: DependenciesIn(before, n) == DependenciesIn(draft, n)
    ensures r == ReverseOf(draft)
  {
    ReverseEdgesOf(draft);
    SameEdges(r, ReverseOf(draft));
  }
}
