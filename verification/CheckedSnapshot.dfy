/** The balance at the latest (time, tie) key, refusing conflicting observations. */
module CheckedSnapshot {
  import opened AggregateRuns
  import opened RowBags
  import opened Widths
  import opened Wrappers

  datatype Observation = Observation(time: Option<I64>, tie: Option<I64>, value: Option<I64>)

  datatype Latest = Latest(time: I64, tie: I64, value: Option<I64>)

  predicate Before(s: Latest, t: Latest) {
    s.time < t.time || (s.time == t.time && s.tie < t.tie)
  }

  predicate SameKey(s: Latest, t: Latest) {
    s.time == t.time && s.tie == t.tie
  }

  function Select(s: Option<Latest>, t: Latest): Option<Option<Latest>> {
    if s.None? || Before(s.value, t) then Some(Some(t))
    else if Before(t, s.value) || s.value.value == t.value then Some(s)
    else None
  }

  /** A missing time or tie is an error. */
  function AddObservation(s: Option<Latest>, o: Observation): Option<Option<Latest>> {
    if o.time.None? || o.tie.None? then None else Select(s, Latest(o.time.value, o.tie.value, o.value))
  }

  function MergeLatest(s: Option<Latest>, t: Option<Latest>): Option<Option<Latest>> {
    if t.None? then Some(s) else Select(s, t.value)
  }

  function SnapshotOf(): Accumulator<Observation, Option<Latest>> {
    Accumulator(None, (s: Option<Latest>, o: Observation) => AddObservation(s, o), (s: Option<Latest>, t: Option<Latest>) => MergeLatest(s, t))
  }

  predicate Keyed(o: Observation) {
    o.time.Some? && o.tie.Some?
  }

  function At(o: Observation): Latest
    requires Keyed(o)
  {
    Latest(o.time.value, o.tie.value, o.value)
  }

  /** The state is the observation at the greatest key, on whose value all agree. */
  ghost predicate IsLatest(rows: seq<Observation>, s: Option<Latest>) {
    && (forall o | o in rows :: Keyed(o))
    && (s.None? <==> rows == [])
    && (s.Some? ==> exists o :: o in rows && At(o) == s.value)
    && (s.Some? ==> forall o | o in rows :: At(o) == s.value || Before(At(o), s.value))
  }

  ghost predicate NoConflict(rows: seq<Observation>) {
    && (forall o | o in rows :: Keyed(o))
    && forall o, p | o in rows && p in rows && SameKey(At(o), At(p)) :: o.value == p.value
  }

  ghost function Meaning(): (seq<Observation>, Option<Latest>) -> bool {
    (rows: seq<Observation>, s: Option<Latest>) => IsLatest(rows, s)
  }

  ghost function Good(): seq<Observation> -> bool {
    (rows: seq<Observation>) => NoConflict(rows)
  }

  lemma AddObservationMeans(a: seq<Observation>, s: Option<Latest>, x: Observation)
    requires IsLatest(a, s)
    ensures AddObservation(s, x).Some? ==> IsLatest(a + [x], AddObservation(s, x).value)
    ensures NoConflict(a + [x]) ==> AddObservation(s, x).Some?
  {
    assert x in a + [x];
    if AddObservation(s, x).Some? {
      if o :| s.Some? && o in a && At(o) == s.value { assert o in a + [x]; }
    }
    if NoConflict(a + [x]) && s.Some? {
      var o :| o in a && At(o) == s.value;
      assert o in a + [x];
    }
  }

  lemma MergeLatestMeans(a: seq<Observation>, s: Option<Latest>, b: seq<Observation>, t: Option<Latest>)
    requires IsLatest(a, s) && IsLatest(b, t)
    ensures MergeLatest(s, t).Some? ==> IsLatest(a + b, MergeLatest(s, t).value)
    ensures NoConflict(a + b) ==> MergeLatest(s, t).Some?
  {
    if t.None? {
      assert a + b == a;
    } else {
      var p :| p in b && At(p) == t.value;
      assert p in a + b;
      if s.Some? {
        var o :| o in a && At(o) == s.value;
        assert o in a + b;
      }
    }
  }

  lemma SnapshotLaws()
    ensures Sound(SnapshotOf(), Meaning()) && Total(SnapshotOf(), Meaning(), Good())
  {
    forall a, s, x | IsLatest(a, s)
      ensures AddObservation(s, x).Some? ==> IsLatest(a + [x], AddObservation(s, x).value)
      ensures NoConflict(a + [x]) ==> AddObservation(s, x).Some?
    {
      AddObservationMeans(a, s, x);
    }
    forall a, s, b, t | IsLatest(a, s) && IsLatest(b, t)
      ensures MergeLatest(s, t).Some? ==> IsLatest(a + b, MergeLatest(s, t).value)
      ensures NoConflict(a + b) ==> MergeLatest(s, t).Some?
    {
      MergeLatestMeans(a, s, b, t);
    }
    forall a, b | NoConflict(a + b) ensures NoConflict(a) && NoConflict(b) {
      forall o | o in a || o in b ensures o in a + b {}
    }
  }

  /** Every successful run yields the value at the greatest key. */
  lemma SuccessIsLatest(run: Run<Observation>)
    requires Fold(SnapshotOf(), run).Some?
    ensures IsLatest(Rows(run), Fold(SnapshotOf(), run).value)
  {
    SnapshotLaws();
    FoldMeans(SnapshotOf(), Meaning(), run, run.steps);
  }

  /** Successful runs over the same rows agree. */
  lemma {:induction false} SuccessesAgree(a: Run<Observation>, b: Run<Observation>)
    requires Fold(SnapshotOf(), a).Some? && Fold(SnapshotOf(), b).Some? && forall o :: o in Rows(a) <==> o in Rows(b)
    ensures Fold(SnapshotOf(), a) == Fold(SnapshotOf(), b)
  {
    SuccessIsLatest(a);
    SuccessIsLatest(b);
    LatestOnce(Rows(a), Rows(b), Fold(SnapshotOf(), a).value, Fold(SnapshotOf(), b).value);
  }

  lemma LatestOnce(a: seq<Observation>, b: seq<Observation>, s: Option<Latest>, t: Option<Latest>)
    requires IsLatest(a, s) && IsLatest(b, t) && forall o :: o in a <==> o in b
    ensures s == t
  {
    assert (a != [] ==> a[0] in a) && (b != [] ==> b[0] in b);
    if a != [] {
      var o :| o in a && At(o) == s.value;
      var p :| p in b && At(p) == t.value;
      assert o in b && p in a;
    }
  }

  /** A value conflict at the greatest key makes every run fail. */
  lemma ConflictAtTopFails(run: Run<Observation>, x: Observation, y: Observation)
    requires x in Rows(run) && y in Rows(run) && Keyed(x) && Keyed(y) && SameKey(At(x), At(y)) && x.value != y.value
    requires forall o | o in Rows(run) && Keyed(o) :: !Before(At(x), At(o))
    ensures Fold(SnapshotOf(), run).None?
  {
    if Fold(SnapshotOf(), run).Some? { SuccessIsLatest(run); }
  }

  /** Without a conflict at any key every run succeeds. */
  lemma NoConflictSucceeds(run: Run<Observation>)
    requires NoConflict(Rows(run))
    ensures Fold(SnapshotOf(), run).Some?
  {
    SnapshotLaws();
    FoldSucceeds(SnapshotOf(), Meaning(), Good(), run, run.steps);
  }

  // ---- A conflict below the top depends on the order ----

  /** Two conflicting rows that come first fail whatever follows. */
  lemma ConflictFirstFails(x: Observation, y: Observation, rest: seq<Observation>)
    requires Keyed(x) && Keyed(y) && SameKey(At(x), At(y)) && x.value != y.value
    ensures Fold(SnapshotOf(), InOrder([x, y] + rest)).None?
  {
    SnapshotLaws();
    assert x in [x, y] && y in [x, y];
    assert forall s :: !IsLatest([x, y], s);
    MeaninglessFirstFails(SnapshotOf(), Meaning(), [x, y], rest);
  }

  lemma ConflictToFront(rows: seq<Observation>, x: Observation, y: Observation) returns (run: Run<Observation>)
    requires x in rows && y in rows && Keyed(x) && Keyed(y) && SameKey(At(x), At(y)) && x.value != y.value
    ensures SameBag(Rows(run), rows) && Fold(SnapshotOf(), run).None?
  {
    var others := TakeOut(rows, x);
    SameBagMembers([x] + others, rows);
    var rest := TakeOut(others, y);
    ConflictFirstFails(x, y, rest);
    run := InOrder([x, y] + rest);
    InOrderAll([x, y] + rest);
    assert [x, y] + rest == [x] + ([y] + rest);
  }

  /** All arrangements of some rows succeed exactly when each is keyed and no key has a conflict. */
  lemma EveryOrderSucceeds(rows: seq<Observation>)
    ensures (forall run | SameBag(Rows(run), rows) :: Fold(SnapshotOf(), run).Some?) <==> NoConflict(rows)
  {
    if NoConflict(rows) {
      forall run | SameBag(Rows(run), rows) ensures Fold(SnapshotOf(), run).Some? {
        SameBagMembers(Rows(run), rows);
        NoConflictSucceeds(run);
      }
    } else if o :| o in rows && !Keyed(o) {
      InOrderAll(rows);
      if Fold(SnapshotOf(), InOrder(rows)).Some? { SuccessIsLatest(InOrder(rows)); }
    } else {
      var x, y :| x in rows && y in rows && SameKey(At(x), At(y)) && x.value != y.value;
      var run := ConflictToFront(rows, x, y);
    }
  }

  // ---- The accumulator ----

  class SnapshotState {
    var latest: Option<Latest>

    constructor ()
      ensures latest == None
    {
      latest := None;
    }

    method SelectLatest(t: Latest) returns (ok: bool)
      modifies this
      ensures ok <==> Select(old(latest), t).Some?
      ensures latest == if ok then Select(old(latest), t).value else old(latest)
    {
      if latest.None? || Before(latest.value, t) {
        latest := Some(t);
        return true;
      }
      return Before(t, latest.value) || latest.value.value == t.value;
    }

    method Merge(t: Option<Latest>) returns (ok: bool)
      modifies this
      ensures ok <==> MergeLatest(old(latest), t).Some?
      ensures ok ==> latest == MergeLatest(old(latest), t).value
    {
      if t.None? { return true; }
      ok := SelectLatest(t.value);
    }

    method UpdateBatch(rows: seq<Observation>) returns (ok: bool)
      modifies this
      ensures ok <==> Through(SnapshotOf(), old(latest), rows).Some?
      ensures ok ==> latest == Through(SnapshotOf(), old(latest), rows).value
    {
      for i := 0 to |rows|
        invariant Through(SnapshotOf(), old(latest), rows[..i]) == Some(latest)
      {
        ThroughStep(SnapshotOf(), old(latest), rows, i);
        var selected := false;
        if rows[i].time.Some? && rows[i].tie.Some? {
          selected := SelectLatest(Latest(rows[i].time.value, rows[i].tie.value, rows[i].value));
        }
        if !selected {
          ThroughFails(SnapshotOf(), old(latest), rows, i + 1);
          return false;
        }
      }
      assert rows[..|rows|] == rows;
      return true;
    }
  }
}
