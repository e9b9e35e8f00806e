/** Runs that show where the guarantees of the cache end. */
module CacheExamples {
  import opened CacheDisk
  import opened CacheGuarantees
  import opened CacheProtocol
  import opened Widths

  /** Worker 0 is the only one, and has nothing to do yet. */
  ghost predicate Alone(s: State, key: Key) {
    s.phases.Keys <= {0} && At(s, 0).Idle? && Answers(s, key)
  }

  ghost predicate LeadsTo(budget: nat, s: State, steps: seq<Step>, t: State) {
    IsRun(budget, s, steps) && After(budget, s, steps) == t
  }

  lemma {:induction false} Chain(budget: nat, s: State, a: seq<Step>, t: State, b: seq<Step>, u: State)
    requires LeadsTo(budget, s, a, t) && LeadsTo(budget, t, b, u)
    ensures LeadsTo(budget, s, a + b, u)
    decreases |a|
  {
    if a == [] {
      assert a + b == b;
    } else {
      assert (a + b)[1..] == a[1..] + b;
      Chain(budget, Apply(budget, s, a[0]), a[1..], t, b, u);
    }
  }

  lemma {:induction false} Then(budget: nat, s: State, a: seq<Step>, t: State, step: Step, u: State)
    requires LeadsTo(budget, s, a, t) && Enabled(budget, t, step) && Apply(budget, t, step) == u
    ensures LeadsTo(budget, s, a + [step], u)
  {
    assert IsRun(budget, u, [step][1..]);
    Chain(budget, s, a, t, [step], u);
  }

  /** Worker 0, alone, gets as far as being admitted to fill. */
  lemma {:induction false} AdmitRuns(budget: nat, s: State, key: Key, fill: nat, queue: seq<Generation>)
    requires Alone(s, key) && fill <= budget <= U64_MAX
    requires Cleaned(s.dirs) == s.dirs && Scan(s.dirs, queue) && Used(s.dirs) <= U64_MAX
    ensures LeadsTo(budget, s, Admission(key, fill, queue), Moved(s, 0, Evicting(key, fill, queue, Used(s.dirs))))
  {
    var s3 := Moved(s, 0, Admitted(key, fill));
    var s4 := Moved(s, 0, Evicting(key, fill, queue, Used(s.dirs)));
    LockRuns(budget, s, key, fill);
    assert Apply(budget, s3, StartEvict(0, queue)) == s4;
    Then(budget, s, [LockRefresh(0, key), Miss(0), LockWriter(0, fill)], s3, StartEvict(0, queue), s4);
    assert [LockRefresh(0, key), Miss(0), LockWriter(0, fill)] + [StartEvict(0, queue)] == Admission(key, fill, queue);
  }

  lemma {:induction false} MissRuns(budget: nat, s: State, key: Key)
    requires Alone(s, key)
    ensures LeadsTo(budget, s, [LockRefresh(0, key), Miss(0)], Moved(s, 0, Missed(key)))
  {
    var s1 := Moved(s, 0, Waiting(key));
    var s2 := Moved(s, 0, Missed(key));
    Then(budget, s, [], s, LockRefresh(0, key), s1);
    assert Apply(budget, s1, Miss(0)) == s2;
    Then(budget, s, [] + [LockRefresh(0, key)], s1, Miss(0), s2);
    assert [] + [LockRefresh(0, key)] + [Miss(0)] == [LockRefresh(0, key), Miss(0)];
  }

  lemma {:induction false} LockRuns(budget: nat, s: State, key: Key, fill: nat)
    requires Alone(s, key) && fill <= budget <= U64_MAX
    ensures LeadsTo(budget, s, [LockRefresh(0, key), Miss(0), LockWriter(0, fill)], Moved(s, 0, Admitted(key, fill)))
  {
    var s2 := Moved(s, 0, Missed(key));
    var s3 := Moved(s, 0, Admitted(key, fill));
    MissRuns(budget, s, key);
    assert Apply(budget, s2, LockWriter(0, fill)) == s3;
    Then(budget, s, [LockRefresh(0, key), Miss(0)], s2, LockWriter(0, fill), s3);
    assert [LockRefresh(0, key), Miss(0)] + [LockWriter(0, fill)] == [LockRefresh(0, key), Miss(0), LockWriter(0, fill)];
  }

  /** The state after one undisturbed fill, its pointer just renamed. */
  function Filled(s: State, key: Key, g: Generation, disk: nat): State {
    State(s.dirs[g := Directory(key, disk, 0, Complete)], s.current[key := g], s.phases[0 := Renamed(key, g)], s.leases)
  }

  lemma {:induction false} WriteRuns(budget: nat, s: State, key: Key, g: Generation, fill: nat, queue: seq<Generation>, total: nat, disk: nat)
    requires s.phases.Keys <= {0} && At(s, 0) == Evicting(key, fill, queue, total)
    requires Fits(total, fill, budget) && g !in s.dirs && Private(s, g) && disk <= fill <= budget
    ensures LeadsTo(budget, s, [StartFill(0, g), WriteManifest(0, disk, 0)],
              Moved(s, 0, Written(key, g)).(dirs := s.dirs[g := Directory(key, disk, 0, Complete)]))
  {
    var s1 := Moved(s, 0, Phase.Filling(key, fill, g)).(dirs := s.dirs[g := Directory(key, 0, 0, Content.Filling)]);
    var s2 := Moved(s, 0, Written(key, g)).(dirs := s.dirs[g := Directory(key, disk, 0, Complete)]);
    Then(budget, s, [], s, StartFill(0, g), s1);
    assert Apply(budget, s1, WriteManifest(0, disk, 0)) == s2;
    Then(budget, s, [] + [StartFill(0, g)], s1, WriteManifest(0, disk, 0), s2);
    assert [] + [StartFill(0, g)] + [WriteManifest(0, disk, 0)] == [StartFill(0, g), WriteManifest(0, disk, 0)];
  }

  lemma {:induction false} PointRuns(budget: nat, s: State, key: Key, g: Generation)
    requires s.phases.Keys <= {0} && At(s, 0) == Written(key, g)
    ensures LeadsTo(budget, s, [LockCatalog(0), RenamePointer(0)], Moved(s, 0, Renamed(key, g)).(current := s.current[key := g]))
  {
    var s1 := Moved(s, 0, Publishing(key, g));
    var s2 := Moved(s, 0, Renamed(key, g)).(current := s.current[key := g]);
    Then(budget, s, [], s, LockCatalog(0), s1);
    assert Apply(budget, s1, RenamePointer(0)) == s2;
    Then(budget, s, [] + [LockCatalog(0)], s1, RenamePointer(0), s2);
    assert [] + [LockCatalog(0)] + [RenamePointer(0)] == [LockCatalog(0), RenamePointer(0)];
  }

  function Admission(key: Key, fill: nat, queue: seq<Generation>): seq<Step> {
    [LockRefresh(0, key), Miss(0), LockWriter(0, fill), StartEvict(0, queue)]
  }

  function Fill(key: Key, g: Generation, fill: nat, queue: seq<Generation>, disk: nat): seq<Step> {
    Admission(key, fill, queue) + [StartFill(0, g), WriteManifest(0, disk, 0)] + [LockCatalog(0), RenamePointer(0)]
  }

  lemma {:induction false} FillRuns(budget: nat, s: State, key: Key, g: Generation, fill: nat, queue: seq<Generation>, disk: nat)
    requires Alone(s, key) && g !in s.dirs && Private(s, g) && disk <= fill <= budget <= U64_MAX
    requires Cleaned(s.dirs) == s.dirs && Scan(s.dirs, queue) && Used(s.dirs) <= U64_MAX && Fits(Used(s.dirs), fill, budget)
    ensures LeadsTo(budget, s, Fill(key, g, fill, queue, disk), Filled(s, key, g, disk))
  {
    var admitted := Moved(s, 0, Evicting(key, fill, queue, Used(s.dirs)));
    var written := Moved(admitted, 0, Written(key, g)).(dirs := s.dirs[g := Directory(key, disk, 0, Complete)]);
    AdmitRuns(budget, s, key, fill, queue);
    WriteRuns(budget, admitted, key, g, fill, queue, Used(s.dirs), disk);
    Chain(budget, s, Admission(key, fill, queue), admitted, [StartFill(0, g), WriteManifest(0, disk, 0)], written);
    PublishRuns(budget, s, written, Admission(key, fill, queue) + [StartFill(0, g), WriteManifest(0, disk, 0)], key, g, disk);
  }

  lemma {:induction false} PublishRuns(budget: nat, s: State, written: State, steps: seq<Step>, key: Key, g: Generation, disk: nat)
    requires s.phases.Keys <= {0} && LeadsTo(budget, s, steps, written)
    requires written == Moved(s, 0, Written(key, g)).(dirs := s.dirs[g := Directory(key, disk, 0, Complete)])
    ensures LeadsTo(budget, s, steps + [LockCatalog(0), RenamePointer(0)], Filled(s, key, g, disk))
  {
    PointRuns(budget, written, key, g);
    assert Moved(written, 0, Renamed(key, g)).(current := s.current[key := g]) == Filled(s, key, g, disk);
    Chain(budget, s, steps, written, [LockCatalog(0), RenamePointer(0)], Filled(s, key, g, disk));
  }

  /** Published, but its directory sync failed. */
  function Failed(): State {
    Moved(Filled(START, "a", "g", 1), 0, Dropping("a", "g"))
  }

  lemma {:induction false} FailedRuns(budget: nat)
    requires 0 < budget <= U64_MAX
    ensures LeadsTo(budget, START, Fill("a", "g", 1, [], 1) + [SyncFails(0)], Failed())
  {
    FillRuns(budget, START, "a", "g", 1, [], 1);
    Then(budget, START, Fill("a", "g", 1, [], 1), Filled(START, "a", "g", 1), SyncFails(0), Failed());
  }

  /** When the directory sync fails after the rename, the published generation is removed,
    * CURRENT names nothing, and the key is stuck. */
  lemma {:induction false} FailedSyncExample(budget: nat, steps: seq<Step>, end: State)
    requires 0 < budget <= U64_MAX && steps == Fill("a", "g", 1, [], 1) + [SyncFails(0)] + [RemoveFill(0)]
    requires end == State(map[], map["a" := "g"], map[0 := Idle], map[])
    ensures LeadsTo(budget, START, steps, end) && "a" in end.current && end.current["a"] !in end.dirs && Stuck(end, "a")
  {
    FailedRuns(budget);
    assert Apply(budget, Failed(), RemoveFill(0)) == end;
    Then(budget, START, Fill("a", "g", 1, [], 1) + [SyncFails(0)], Failed(), RemoveFill(0), end);
  }

  /** A reader that gets in between the failed sync and the removal loses what it leases. */
  lemma {:induction false} LostLeaseExample(budget: nat, steps: seq<Step>, end: State)
    requires 0 < budget <= U64_MAX && steps == Fill("a", "g", 1, [], 1) + [SyncFails(0)] + [Acquire(0, "a")] + [RemoveFill(0)]
    requires end == State(map[], map["a" := "g"], map[0 := Idle], map[0 := "g"])
    ensures LeadsTo(budget, START, steps, end) && Leased(end, "g") && "g" !in end.dirs && !LeasesLive(end)
  {
    var leased := Failed().(leases := map[0 := "g"]);
    FailedRuns(budget);
    LeaseLost(budget, leased, end);
    Then(budget, START, Fill("a", "g", 1, [], 1) + [SyncFails(0)], Failed(), Acquire(0, "a"), leased);
    Then(budget, START, Fill("a", "g", 1, [], 1) + [SyncFails(0)] + [Acquire(0, "a")], leased, RemoveFill(0), end);
    assert end.leases[0] == "g";
  }

  lemma LeaseLost(budget: nat, leased: State, end: State)
    requires leased == Failed().(leases := map[0 := "g"])
    requires end == State(map[], map["a" := "g"], map[0 := Idle], map[0 := "g"])
    ensures Enabled(budget, Failed(), Acquire(0, "a")) && Apply(budget, Failed(), Acquire(0, "a")) == leased
    ensures Enabled(budget, leased, RemoveFill(0)) && Apply(budget, leased, RemoveFill(0)) == end
  {
  }

  lemma {:induction false} FirstFillRuns(s: State)
    requires s == Moved(Filled(START, "a", "g", U64_MAX), 0, Idle)
    ensures LeadsTo(U64_MAX, START, Fill("a", "g", U64_MAX, [], U64_MAX) + [FinishFill(0, 0, false)], s)
  {
    var full := Filled(START, "a", "g", U64_MAX);
    FillRuns(U64_MAX, START, "a", "g", U64_MAX, [], U64_MAX);
    Then(U64_MAX, START, Fill("a", "g", U64_MAX, [], U64_MAX), full, FinishFill(0, 0, false), s);
  }

  lemma BothUsed(s: State)
    requires s == Moved(Filled(START, "a", "g", U64_MAX), 0, Idle)
    ensures Used(s.dirs) == U64_MAX && Used(Filled(s, "b", "h", 1).dirs) > U64_MAX
  {
    UsedWith(map[], "g", s.dirs["g"]);
    UsedWith(s.dirs, "h", Directory("b", 1, 0, Complete));
    UsedWithoutAbsent(s.dirs, "h");
  }

  /** The largest budget is never enforced: saturating sums always pass the test. */
  lemma {:induction false} LargestBudgetExample(s: State)
    requires s == Moved(Filled(START, "a", "g", U64_MAX), 0, Idle)
    ensures LeadsTo(U64_MAX, START, Fill("a", "g", U64_MAX, [], U64_MAX) + [FinishFill(0, 0, false)], s)
    ensures LeadsTo(U64_MAX, s, Fill("b", "h", 1, ["g"], 1), Filled(s, "b", "h", 1))
    ensures Used(Filled(s, "b", "h", 1).dirs) > U64_MAX
  {
    FirstFillRuns(s);
    BothUsed(s);
    FillRuns(U64_MAX, s, "b", "h", 1, ["g"], 1);
  }
}
