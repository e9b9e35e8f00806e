/** Exact distinct counts with a limit on the identities held. */
module CheckedDistinct {
  import opened AggregateRuns
  import opened Sets
  import opened Widths
  import opened Wrappers

  type Cell = Option<I64>
  type Identities = set<I64>

  /** A new identity needs room; a known one never does. */
  function Insert(limit: nat, s: Identities, v: I64): Option<Identities> {
    if v !in s && |s| >= limit then None else Some(s + {v})
  }

  function AddCell(limit: nat, s: Identities, v: Cell): Option<Identities> {
    if v.None? then Some(s) else Insert(limit, s, v.value)
  }

  function MergeSets(limit: nat, s: Identities, t: Identities): Option<Identities> {
    if |s + t| > limit then None else Some(s + t)
  }

  function DistinctOf(limit: nat): Accumulator<Cell, Identities> {
    Accumulator({}, (s: Identities, v: Cell) => AddCell(limit, s, v), (s: Identities, t: Identities) => MergeSets(limit, s, t))
  }

  function Seen(rows: seq<Cell>): Identities {
    set v | v in rows && v.Some? :: v.value
  }

  ghost predicate Means(limit: nat, rows: seq<Cell>, s: Identities) {
    s == Seen(rows) && |s| <= limit
  }

  ghost predicate Fits(limit: nat, rows: seq<Cell>) {
    |Seen(rows)| <= limit
  }

  ghost function Meaning(limit: nat): (seq<Cell>, Identities) -> bool {
    (rows: seq<Cell>, s: Identities) => Means(limit, rows, s)
  }

  ghost function Good(limit: nat): seq<Cell> -> bool {
    (rows: seq<Cell>) => Fits(limit, rows)
  }

  lemma SeenConcat(a: seq<Cell>, b: seq<Cell>)
    ensures Seen(a + b) == Seen(a) + Seen(b)
  {
    forall v | v in Seen(a) + Seen(b) ensures v in Seen(a + b) {
      assert Some(v) in a + b;
    }
  }

  lemma AddCellMeans(limit: nat, a: seq<Cell>, s: Identities, x: Cell)
    requires Means(limit, a, s)
    ensures AddCell(limit, s, x).Some? ==> Means(limit, a + [x], AddCell(limit, s, x).value)
    ensures Fits(limit, a + [x]) ==> AddCell(limit, s, x).Some?
  {
    SeenConcat(a, [x]);
    assert Seen([x]) == if x.Some? then {x.value} else {};
    if x.Some? && x.value in s { assert s + {x.value} == s; }
  }

  lemma DistinctLaws(limit: nat)
    ensures Sound(DistinctOf(limit), Meaning(limit)) && Total(DistinctOf(limit), Meaning(limit), Good(limit))
    ensures forall rows, s :: Meaning(limit)(rows, s) ==> Good(limit)(rows)
  {
    assert Seen([]) == {};
    forall a, s, x | Means(limit, a, s)
      ensures AddCell(limit, s, x).Some? ==> Means(limit, a + [x], AddCell(limit, s, x).value)
      ensures Fits(limit, a + [x]) ==> AddCell(limit, s, x).Some?
    {
      AddCellMeans(limit, a, s, x);
    }
    forall a, s, b, t | Means(limit, a, s) && Means(limit, b, t)
      ensures MergeSets(limit, s, t).Some? ==> Means(limit, a + b, MergeSets(limit, s, t).value)
      ensures Fits(limit, a + b) ==> MergeSets(limit, s, t).Some?
    {
      SeenConcat(a, b);
    }
    forall a, b | Fits(limit, a + b) ensures Fits(limit, a) && Fits(limit, b) {
      SeenConcat(a, b);
      SubsetSize(Seen(a), Seen(a + b));
      SubsetSize(Seen(b), Seen(a + b));
    }
  }

  /** A run succeeds exactly when its rows hold no more identities than the limit, and
    * then holds precisely those, whatever the batches and merges were. */
  lemma DistinctExact(limit: nat, run: Run<Cell>)
    ensures Fold(DistinctOf(limit), run).Some? <==> |Seen(Rows(run))| <= limit
    ensures Fold(DistinctOf(limit), run).Some? ==> Fold(DistinctOf(limit), run).value == Seen(Rows(run))
  {
    DistinctLaws(limit);
    FoldExact(DistinctOf(limit), Meaning(limit), Good(limit), run);
  }

  function Members(list: seq<I64>): Identities {
    set v | v in list
  }

  lemma MembersStep(list: seq<I64>, i: nat)
    requires i < |list|
    ensures Members(list[..i + 1]) == Members(list[..i]) + {list[i]} && Members(list[..i + 1]) <= Members(list)
  {
    assert list[..i + 1] == list[..i] + [list[i]];
  }

  lemma KnownOrNew(s: Identities, v: I64)
    ensures v in s ==> s + {v} == s
    ensures v !in s ==> |s + {v}| == |s| + 1
  {
  }

  class ExactDistinctState {
    var values: Identities
    const limit: nat

    constructor (limit: nat)
      ensures values == {} && this.limit == limit
    {
      values, this.limit := {}, limit;
    }

    method InsertValue(v: I64) returns (ok: bool)
      modifies this
      ensures ok <==> Insert(limit, old(values), v).Some?
      ensures values == if ok then Insert(limit, old(values), v).value else old(values)
    {
      if v !in values && |values| >= limit { return false; }
      values := values + {v};
      return true;
    }

    method UpdateBatch(rows: seq<Cell>) returns (ok: bool)
      modifies this
      ensures ok <==> Through(DistinctOf(limit), old(values), rows).Some?
      ensures ok ==> values == Through(DistinctOf(limit), old(values), rows).value
    {
      for i := 0 to |rows|
        invariant Through(DistinctOf(limit), old(values), rows[..i]) == Some(values)
      {
        ThroughStep(DistinctOf(limit), old(values), rows, i);
        if rows[i].Some? {
          var inserted := InsertValue(rows[i].value);
          if !inserted {
            ThroughFails(DistinctOf(limit), old(values), rows, i + 1);
            return false;
          }
        }
      }
      assert rows[..|rows|] == rows;
      return true;
    }

    /** Inserting the identities of another state one by one is taking the union. */
    method MergeState(list: seq<I64>) returns (ok: bool)
      requires |values| <= limit
      modifies this
      ensures ok <==> MergeSets(limit, old(values), Members(list)).Some?
      ensures ok ==> values == MergeSets(limit, old(values), Members(list)).value
    {
      for i := 0 to |list|
        invariant values == old(values) + Members(list[..i]) && |values| <= limit
      {
        MembersStep(list, i);
        var inserted := InsertValue(list[i]);
        if !inserted {
          SubsetSize(values + {list[i]}, old(values) + Members(list));
          return false;
        }
        KnownOrNew(old(values) + Members(list[..i]), list[i]);
      }
      assert list[..|list|] == list;
      return true;
    }

    function Evaluate(): nat
      reads this
    {
      |values|
    }
  }
}
