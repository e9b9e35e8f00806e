/** Aggregation as the engine runs it: rows and partial states, in any batches and any merge tree. */
module AggregateRuns {
  import opened Wrappers

  /** What one accumulator is given: rows, and the states of other accumulators. */
  datatype Run<R> = Run(steps: seq<Step<R>>)

  datatype Step<R> = Row(row: R) | Partial(run: Run<R>)

  /** The rows below a run, in the order of its steps. */
  function Rows<R>(run: Run<R>): seq<R>
    decreases run, |run.steps| + 1
  {
    RowsOf(run, run.steps)
  }

  function RowsOf<R>(run: Run<R>, steps: seq<Step<R>>): seq<R>
    requires steps <= run.steps
    decreases run, |steps|
  {
    if steps == [] then []
    else
      RowsOf(run, steps[..|steps| - 1]) + (match steps[|steps| - 1] case Row(x) => [x] case Partial(sub) => Rows(sub))
  }

  /** An accumulator by its operations; None is a failed query. */
  datatype Accumulator<!R, !S> = Accumulator(empty: S, add: (S, R) -> Option<S>, merge: (S, S) -> Option<S>)

  function Fold<R, S>(acc: Accumulator<R, S>, run: Run<R>): Option<S>
    decreases run, |run.steps| + 1
  {
    FoldOf(acc, run, run.steps)
  }

  function FoldOf<R, S>(acc: Accumulator<R, S>, run: Run<R>, steps: seq<Step<R>>): Option<S>
    requires steps <= run.steps
    decreases run, |steps|
  {
    if steps == [] then Some(acc.empty)
    else
      match FoldOf(acc, run, steps[..|steps| - 1])
      case None => None
      case Some(s) =>
        match steps[|steps| - 1]
        case Row(x) => acc.add(s, x)
        case Partial(sub) =>
          match Fold(acc, sub)
          case None => None
          case Some(t) => acc.merge(s, t)
  }

  /** One batch of rows. */
  function Through<R, S>(acc: Accumulator<R, S>, s: S, rows: seq<R>): Option<S> {
    if rows == [] then Some(s)
    else
      match Through(acc, s, rows[..|rows| - 1])
      case None => None
      case Some(t) => acc.add(t, rows[|rows| - 1])
  }

  /** `means` relates rows to the state they lead to, and is kept by every operation. */
  ghost predicate Sound<R(!new), S(!new)>(acc: Accumulator<R, S>, means: (seq<R>, S) -> bool) {
    && means([], acc.empty)
    && (forall a, s, x :: means(a, s) && acc.add(s, x).Some? ==> means(a + [x], acc.add(s, x).value))
    && (forall a, s, b, t :: means(a, s) && means(b, t) && acc.merge(s, t).Some? ==> means(a + b, acc.merge(s, t).value))
  }

  /** On `good` rows no operation fails. */
  ghost predicate Total<R(!new), S(!new)>(acc: Accumulator<R, S>, means: (seq<R>, S) -> bool, good: seq<R> -> bool) {
    && (forall a, b :: good(a + b) ==> good(a) && good(b))
    && (forall a, s, x :: means(a, s) && good(a + [x]) ==> acc.add(s, x).Some?)
    && (forall a, s, b, t :: means(a, s) && means(b, t) && good(a + b) ==> acc.merge(s, t).Some?)
  }

  lemma {:induction false} FoldMeans<R(!new), S(!new)>(acc: Accumulator<R, S>, means: (seq<R>, S) -> bool, run: Run<R>, steps: seq<Step<R>>)
    requires Sound(acc, means) && steps <= run.steps && FoldOf(acc, run, steps).Some?
    ensures means(RowsOf(run, steps), FoldOf(acc, run, steps).value)
    decreases run, |steps|
  {
    if steps != [] {
      var n := |steps| - 1;
      FoldMeans(acc, means, run, steps[..n]);
      match steps[n] {
        case Row(x) =>
        case Partial(sub) => FoldMeans(acc, means, sub, sub.steps);
      }
    }
  }

  lemma {:induction false} FoldSucceeds<R(!new), S(!new)>(acc: Accumulator<R, S>, means: (seq<R>, S) -> bool, good: seq<R> -> bool, run: Run<R>, steps: seq<Step<R>>)
    requires Sound(acc, means) && Total(acc, means, good) && steps <= run.steps && good(RowsOf(run, steps))
    ensures FoldOf(acc, run, steps).Some?
    decreases run, |steps|
  {
    if steps != [] {
      var n := |steps| - 1;
      FoldSucceeds(acc, means, good, run, steps[..n]);
      FoldMeans(acc, means, run, steps[..n]);
      match steps[n] {
        case Row(x) =>
        case Partial(sub) =>
          FoldSucceeds(acc, means, good, sub, sub.steps);
          FoldMeans(acc, means, sub, sub.steps);
      }
    }
  }

  /** When a state only arises from good rows, a run succeeds exactly on good rows. */
  lemma FoldExact<R(!new), S(!new)>(acc: Accumulator<R, S>, means: (seq<R>, S) -> bool, good: seq<R> -> bool, run: Run<R>)
    requires Sound(acc, means) && Total(acc, means, good) && forall a, s :: means(a, s) ==> good(a)
    ensures Fold(acc, run).Some? <==> good(Rows(run))
    ensures Fold(acc, run).Some? ==> means(Rows(run), Fold(acc, run).value)
  {
    if good(Rows(run)) { FoldSucceeds(acc, means, good, run, run.steps); }
    if Fold(acc, run).Some? { FoldMeans(acc, means, run, run.steps); }
  }

  /** A batch is its rows one after the other. */
  lemma {:induction false} ThroughStep<R, S>(acc: Accumulator<R, S>, s: S, rows: seq<R>, i: nat)
    requires i < |rows| && Through(acc, s, rows[..i]).Some?
    ensures Through(acc, s, rows[..i + 1]) == acc.add(Through(acc, s, rows[..i]).value, rows[i])
  {
    assert rows[..i + 1][..i] == rows[..i];
  }

  lemma {:induction false} ThroughFails<R, S>(acc: Accumulator<R, S>, s: S, rows: seq<R>, i: nat)
    requires i <= |rows| && Through(acc, s, rows[..i]).None?
    ensures Through(acc, s, rows).None?
    decreases |rows| - i
  {
    if i < |rows| {
      assert rows[..i + 1][..i] == rows[..i];
      ThroughFails(acc, s, rows, i + 1);
    } else {
      assert rows[..i] == rows;
    }
  }

  function RowsBetween<R>(run: Run<R>, i: nat, n: nat): (r: seq<R>)
    requires i <= n <= |run.steps| && forall k | i <= k < n :: run.steps[k].Row?
    ensures |r| == n - i
  {
    seq(n - i, k requires 0 <= k < n - i => run.steps[i + k].row)
  }

  /** Inside a run, a stretch of rows is one batch; cutting it into several changes nothing. */
  lemma {:induction false} BatchInRun<R, S>(acc: Accumulator<R, S>, run: Run<R>, i: nat, n: nat)
    requires i <= n <= |run.steps| && (forall k | i <= k < n :: run.steps[k].Row?) && FoldOf(acc, run, run.steps[..i]).Some?
    ensures FoldOf(acc, run, run.steps[..n]) == Through(acc, FoldOf(acc, run, run.steps[..i]).value, RowsBetween(run, i, n))
  {
    if i < n {
      BatchInRun(acc, run, i, n - 1);
      assert run.steps[..n][..n - 1] == run.steps[..n - 1];
      assert RowsBetween(run, i, n)[..n - 1 - i] == RowsBetween(run, i, n - 1);
    }
  }

  // ---- Rows one after the other ----

  function InOrder<R>(rows: seq<R>): Run<R> {
    Run(seq(|rows|, i requires 0 <= i < |rows| => Row(rows[i])))
  }

  lemma {:induction false} InOrderRows<R>(rows: seq<R>, i: nat)
    requires i <= |rows|
    ensures RowsOf(InOrder(rows), InOrder(rows).steps[..i]) == rows[..i]
  {
    var run := InOrder(rows);
    if i > 0 {
      InOrderRows(rows, i - 1);
      assert run.steps[..i][..i - 1] == run.steps[..i - 1];
      assert rows[..i] == rows[..i - 1] + [rows[i - 1]];
    }
  }

  lemma InOrderAll<R>(rows: seq<R>)
    ensures Rows(InOrder(rows)) == rows
  {
    InOrderRows(rows, |rows|);
    assert InOrder(rows).steps[..|rows|] == InOrder(rows).steps && rows[..|rows|] == rows;
  }

  /** A failure is not made good by what follows. */
  lemma {:induction false} FailedStays<R, S>(acc: Accumulator<R, S>, run: Run<R>, i: nat)
    requires i <= |run.steps| && FoldOf(acc, run, run.steps[..i]).None?
    ensures Fold(acc, run).None?
    decreases |run.steps| - i
  {
    if i < |run.steps| {
      assert run.steps[..i + 1][..i] == run.steps[..i];
      FailedStays(acc, run, i + 1);
    } else {
      assert run.steps[..i] == run.steps;
    }
  }

  /** Rows that no state stands for fail, whatever follows. */
  lemma {:induction false} MeaninglessFirstFails<R(!new), S(!new)>(acc: Accumulator<R, S>, means: (seq<R>, S) -> bool, first: seq<R>, rest: seq<R>)
    requires Sound(acc, means) && forall s :: !means(first, s)
    ensures Fold(acc, InOrder(first + rest)).None?
  {
    var run := InOrder(first + rest);
    var steps := run.steps[..|first|];
    InOrderRows(first + rest, |first|);
    assert (first + rest)[..|first|] == first;
    if FoldOf(acc, run, steps).Some? { FoldMeans(acc, means, run, steps); }
    FailedStays(acc, run, |first|);
  }

  lemma InOrderIsOneBatch<R, S>(acc: Accumulator<R, S>, rows: seq<R>)
    ensures Fold(acc, InOrder(rows)) == Through(acc, acc.empty, rows)
  {
    var run := InOrder(rows);
    BatchInRun(acc, run, 0, |rows|);
    assert RowsBetween(run, 0, |rows|) == rows && run.steps[..|rows|] == run.steps;
  }
}
