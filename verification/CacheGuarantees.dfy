/** What readers may rely on. Everything is stated generation by generation: a failed directory
  * sync after the pointer rename costs its own generation its guarantees, and no other. */
module CacheGuarantees {
  import opened CacheDisk
  import opened CacheProtocol
  import opened Widths

  // ---- One generation ----

  /** Leased or pointed to, the generation is on disk and whole; while it is being removed,
    * nobody knows of it. */
  ghost predicate Intact(s: State, g: Generation) {
    && (Leased(s, g) ==> g in s.dirs && s.dirs[g].content.Complete?)
    && (forall k | k in s.current && s.current[k] == g :: g in s.dirs && s.dirs[g].content.Complete? && s.dirs[g].key == k)
    && (forall w | w in s.phases && s.phases[w].Dropping? && s.phases[w].victim == g :: Private(s, g))
  }

  predicate FailsSyncOf(s: State, step: Step, g: Generation) {
    step.SyncFails? && At(s, step.w).Renamed? && At(s, step.w).generation == g
  }

  lemma LockKeepsIntact(budget: nat, s: State, step: Step, g: Generation)
    requires Safe(budget, s) && Enabled(budget, s, step) && Intact(s, g) && TakesLock(step)
    ensures Intact(Apply(budget, s, step), g)
  {
  }

  lemma EvictKeepsIntact(budget: nat, s: State, step: Step, g: Generation)
    requires Safe(budget, s) && Enabled(budget, s, step) && Intact(s, g) && Evicts(step)
    ensures Intact(Apply(budget, s, step), g)
  {
    assert PhaseOk(budget, s, At(s, step.w));
  }

  lemma WriteKeepsIntact(budget: nat, s: State, step: Step, g: Generation)
    requires Safe(budget, s) && Enabled(budget, s, step) && Intact(s, g) && (step.StartFill? || step.WriteManifest?)
    ensures Intact(Apply(budget, s, step), g)
  {
    assert PhaseOk(budget, s, At(s, step.w));
  }

  lemma PublishKeepsIntact(budget: nat, s: State, step: Step, g: Generation)
    requires Safe(budget, s) && Enabled(budget, s, step) && Intact(s, g) && (step.RenamePointer? || step.FinishFill?)
    ensures Intact(Apply(budget, s, step), g)
  {
    assert PhaseOk(budget, s, At(s, step.w));
  }

  lemma FillKeepsIntact(budget: nat, s: State, step: Step, g: Generation)
    requires Safe(budget, s) && Enabled(budget, s, step) && Intact(s, g) && Fills(step)
    ensures Intact(Apply(budget, s, step), g)
  {
    if step.StartFill? || step.WriteManifest? { WriteKeepsIntact(budget, s, step, g); } else { PublishKeepsIntact(budget, s, step, g); }
  }

  lemma FailKeepsIntact(budget: nat, s: State, step: Step, g: Generation)
    requires Safe(budget, s) && Enabled(budget, s, step) && Intact(s, g) && Fails(step) && !FailsSyncOf(s, step, g)
    ensures Intact(Apply(budget, s, step), g)
  {
    assert PhaseOk(budget, s, At(s, step.w));
  }

  lemma SyncFailureExposes(budget: nat, s: State, step: Step, g: Generation)
    requires Safe(budget, s) && Enabled(budget, s, step) && FailsSyncOf(s, step, g)
    ensures !Intact(Apply(budget, s, step), g)
  {
    assert PhaseOk(budget, s, At(s, step.w));
    assert Apply(budget, s, step).phases[step.w].Dropping?;
    assert At(s, step.w).key in Apply(budget, s, step).current;
  }

  lemma ReaderKeepsIntact(budget: nat, s: State, step: Step, g: Generation)
    requires Safe(budget, s) && Enabled(budget, s, step) && Intact(s, g)
    requires step.Acquire? || step.Release? || step.Invalidate?
    ensures Intact(Apply(budget, s, step), g)
  {
  }

  /** A step costs a generation its guarantees exactly when it is the failure of that
    * generation's own directory sync. */
  lemma StepKeepsIntact(budget: nat, s: State, step: Step, g: Generation)
    requires Safe(budget, s) && Enabled(budget, s, step) && Intact(s, g)
    ensures Intact(Apply(budget, s, step), g) <==> !FailsSyncOf(s, step, g)
  {
    if TakesLock(step) { LockKeepsIntact(budget, s, step, g); }
    else if Evicts(step) { EvictKeepsIntact(budget, s, step, g); }
    else if Fills(step) { FillKeepsIntact(budget, s, step, g); }
    else if FailsSyncOf(s, step, g) { SyncFailureExposes(budget, s, step, g); }
    else if Fails(step) { FailKeepsIntact(budget, s, step, g); }
    else { ReaderKeepsIntact(budget, s, step, g); }
  }

  // ---- Leases ----

  /** The steps that change a directory without asking for leases: the removal of a failed
    * fill, and the clean-up of directories that have lost their manifest. */
  predicate Harms(s: State, step: Step, g: Generation) {
    g in s.dirs && match step
      case RemoveFill(w) => At(s, w).Dropping? && At(s, w).victim == g
      case Tear(w, manifest) => At(s, w).Dropping? && At(s, w).victim == g && Remains(s.dirs[g].content, manifest) != s.dirs[g].content
      case StartEvict(_, _) => s.dirs[g].content.Filling?
      case _ => false
  }

  predicate Unchanged(s: State, s': State, g: Generation) {
    g in s.dirs && g in s'.dirs && s'.dirs[g] == s.dirs[g]
  }

  lemma EvictKeepsLeased(budget: nat, s: State, step: Step, g: Generation)
    requires Safe(budget, s) && Enabled(budget, s, step) && Leased(s, g) && g in s.dirs && Evicts(step)
    ensures Unchanged(s, Apply(budget, s, step), g) <==> !Harms(s, step, g)
  {
    assert PhaseOk(budget, s, At(s, step.w));
  }

  lemma FillKeepsLeased(budget: nat, s: State, step: Step, g: Generation)
    requires Safe(budget, s) && Enabled(budget, s, step) && Leased(s, g) && g in s.dirs && Fills(step)
    ensures Unchanged(s, Apply(budget, s, step), g)
  {
    assert PhaseOk(budget, s, At(s, step.w));
  }

  lemma FailKeepsLeased(budget: nat, s: State, step: Step, g: Generation)
    requires Safe(budget, s) && Enabled(budget, s, step) && Leased(s, g) && g in s.dirs && Fails(step)
    ensures Unchanged(s, Apply(budget, s, step), g) <==> !Harms(s, step, g)
  {
    assert PhaseOk(budget, s, At(s, step.w));
  }

  /** Exactly which steps change a directory that some reader leases. */
  lemma StepKeepsLeased(budget: nat, s: State, step: Step, g: Generation)
    requires Safe(budget, s) && Enabled(budget, s, step) && Leased(s, g) && g in s.dirs
    ensures Unchanged(s, Apply(budget, s, step), g) <==> !Harms(s, step, g)
  {
    if Evicts(step) { EvictKeepsLeased(budget, s, step, g); }
    else if Fills(step) { FillKeepsLeased(budget, s, step, g); }
    else if Fails(step) { FailKeepsLeased(budget, s, step, g); }
  }

  // ---- CURRENT ----

  /** Every CURRENT pointer names a complete generation of its own key. */
  ghost predicate CurrentComplete(s: State) {
    forall k | k in s.current :: s.current[k] in s.dirs && s.dirs[s.current[k]].content.Complete? && s.dirs[s.current[k]].key == k
  }

  /** The removal, whole or in part, of a failed fill that CURRENT names. */
  predicate DropsPublished(s: State, step: Step) {
    (step.RemoveFill? || step.Tear?) && At(s, step.w).Dropping? && Pointed(s, At(s, step.w).victim)
  }

  lemma EvictKeepsCurrent(budget: nat, s: State, step: Step)
    requires Safe(budget, s) && Enabled(budget, s, step) && CurrentComplete(s) && Evicts(step) && !DropsPublished(s, step)
    ensures CurrentComplete(Apply(budget, s, step))
  {
    assert PhaseOk(budget, s, At(s, step.w));
  }

  lemma FillKeepsCurrent(budget: nat, s: State, step: Step)
    requires Safe(budget, s) && Enabled(budget, s, step) && CurrentComplete(s) && Fills(step)
    ensures CurrentComplete(Apply(budget, s, step))
  {
    assert PhaseOk(budget, s, At(s, step.w));
  }

  lemma FailKeepsCurrent(budget: nat, s: State, step: Step)
    requires Safe(budget, s) && Enabled(budget, s, step) && CurrentComplete(s) && Fails(step) && !DropsPublished(s, step)
    ensures CurrentComplete(Apply(budget, s, step))
  {
    assert PhaseOk(budget, s, At(s, step.w));
  }

  lemma DroppingBreaksCurrent(budget: nat, s: State, step: Step)
    requires Safe(budget, s) && Enabled(budget, s, step) && CurrentComplete(s) && DropsPublished(s, step)
    ensures !CurrentComplete(Apply(budget, s, step))
  {
    assert PhaseOk(budget, s, At(s, step.w));
    var k :| k in s.current && s.current[k] == At(s, step.w).victim;
    assert k in Apply(budget, s, step).current;
  }

  /** A step leaves every CURRENT pointer on a complete generation exactly when it is not the
    * removal of a fill that failed after it was published. */
  lemma StepKeepsCurrent(budget: nat, s: State, step: Step)
    requires Safe(budget, s) && Enabled(budget, s, step) && CurrentComplete(s)
    ensures CurrentComplete(Apply(budget, s, step)) <==> !DropsPublished(s, step)
  {
    if DropsPublished(s, step) { DroppingBreaksCurrent(budget, s, step); }
    else if Evicts(step) { EvictKeepsCurrent(budget, s, step); }
    else if Fills(step) { FillKeepsCurrent(budget, s, step); }
    else if Fails(step) { FailKeepsCurrent(budget, s, step); }
  }

  // ---- Every run ----

  /** No step of the run fails the directory sync of `g`. */
  ghost predicate SyncsOf(budget: nat, s: State, steps: seq<Step>, g: Generation)
    requires IsRun(budget, s, steps)
    decreases |steps|
  {
    steps != [] ==> !FailsSyncOf(s, steps[0], g) && SyncsOf(budget, Apply(budget, s, steps[0]), steps[1..], g)
  }

  lemma {:induction false} RunKeepsIntact(budget: nat, s: State, steps: seq<Step>, g: Generation)
    requires Safe(budget, s) && Intact(s, g) && IsRun(budget, s, steps) && SyncsOf(budget, s, steps, g)
    ensures Intact(After(budget, s, steps), g)
    decreases |steps|
  {
    if steps != [] {
      StepSafe(budget, s, steps[0]);
      StepKeepsIntact(budget, s, steps[0], g);
      RunKeepsIntact(budget, Apply(budget, s, steps[0]), steps[1..], g);
    }
  }

  ghost predicate LeasedThroughout(budget: nat, s: State, steps: seq<Step>, g: Generation)
    requires IsRun(budget, s, steps)
    decreases |steps|
  {
    Leased(s, g) && (steps != [] ==> LeasedThroughout(budget, Apply(budget, s, steps[0]), steps[1..], g))
  }

  lemma IntactIsUnharmed(budget: nat, s: State, step: Step, g: Generation)
    requires Safe(budget, s) && Enabled(budget, s, step) && Intact(s, g) && Leased(s, g)
    ensures !Harms(s, step, g)
  {
  }

  /** A generation whose own sync does not fail is unchanged on disk for as long as some reader
    * leases it, whatever becomes of others. */
  lemma {:induction false} LeasedNeverChanges(budget: nat, s: State, steps: seq<Step>, g: Generation)
    requires Safe(budget, s) && Intact(s, g) && IsRun(budget, s, steps)
    requires SyncsOf(budget, s, steps, g) && LeasedThroughout(budget, s, steps, g)
    ensures g in s.dirs && s.dirs[g].content.Complete? && Unchanged(s, After(budget, s, steps), g)
    decreases |steps|
  {
    if steps != [] {
      StepSafe(budget, s, steps[0]);
      StepKeepsIntact(budget, s, steps[0], g);
      IntactIsUnharmed(budget, s, steps[0], g);
      StepKeepsLeased(budget, s, steps[0], g);
      LeasedNeverChanges(budget, Apply(budget, s, steps[0]), steps[1..], g);
    }
  }

  /** A generation that a reader leases is on disk, whole. */
  ghost predicate LeasesLive(s: State) {
    forall r | r in s.leases :: s.leases[r] in s.dirs && s.dirs[s.leases[r]].content.Complete?
  }

  lemma {:induction false} AllSync(budget: nat, s: State, steps: seq<Step>, g: Generation)
    requires IsRun(budget, s, steps) && forall step | step in steps :: !step.SyncFails?
    ensures SyncsOf(budget, s, steps, g)
    decreases |steps|
  {
    if steps != [] {
      assert steps[0] in steps;
      forall step | step in steps[1..] ensures !step.SyncFails? { assert step in steps; }
      AllSync(budget, Apply(budget, s, steps[0]), steps[1..], g);
    }
  }

  lemma IntactTogether(s: State)
    requires forall g :: Intact(s, g)
    ensures LeasesLive(s) && CurrentComplete(s)
  {
    forall r | r in s.leases ensures s.leases[r] in s.dirs && s.dirs[s.leases[r]].content.Complete? { assert Intact(s, s.leases[r]); }
    forall k | k in s.current
      ensures s.current[k] in s.dirs && s.dirs[s.current[k]].content.Complete? && s.dirs[s.current[k]].key == k
    {
      assert Intact(s, s.current[k]);
    }
  }

  /** The guarantees over all runs from an empty cache. Locks are exclusive and an enforced
    * budget is kept whatever fails; leases and pointers are good for every generation whose own
    * sync does not fail. */
  lemma AllRuns(budget: nat, steps: seq<Step>)
    requires IsRun(budget, START, steps)
    ensures LocksExclusive(After(budget, START, steps))
    ensures budget < U64_MAX ==> WithinBudget(budget, After(budget, START, steps))
    ensures forall g | SyncsOf(budget, START, steps, g) :: Intact(After(budget, START, steps), g)
    ensures (forall step | step in steps :: !step.SyncFails?) ==>
      LeasesLive(After(budget, START, steps)) && CurrentComplete(After(budget, START, steps))
  {
    RunSafe(budget, START, steps);
    forall g | SyncsOf(budget, START, steps, g) ensures Intact(After(budget, START, steps), g) {
      RunKeepsIntact(budget, START, steps, g);
    }
    if forall step | step in steps :: !step.SyncFails? {
      forall g ensures Intact(After(budget, START, steps), g) { AllSync(budget, START, steps, g); }
      IntactTogether(After(budget, START, steps));
    }
  }

  // ---- After a failed sync ----

  /** Lookups of the key are errors, and nobody works on it who is past the lookup. */
  ghost predicate Stuck(s: State, key: Key) {
    !Answers(s, key) && forall w | w in s.phases && HoldsRefresh(s.phases[w], key) :: s.phases[w].Waiting?
  }

  /** When the published directory of a failed fill is removed, its key gets stuck. */
  lemma DroppedKeySticks(budget: nat, s: State, step: Step)
    requires Safe(budget, s) && Enabled(budget, s, step) && step.RemoveFill? && DropsPublished(s, step)
    ensures Stuck(Apply(budget, s, step), At(s, step.w).key)
  {
    assert PhaseOk(budget, s, At(s, step.w));
    var k :| k in s.current && s.current[k] == At(s, step.w).victim;
    assert k == At(s, step.w).key;
  }

  lemma EvictKeepsStuck(budget: nat, s: State, step: Step, key: Key)
    requires Safe(budget, s) && Enabled(budget, s, step) && Stuck(s, key) && Evicts(step)
    ensures Stuck(Apply(budget, s, step), key)
  {
    assert PhaseOk(budget, s, At(s, step.w));
  }

  lemma FillKeepsStuck(budget: nat, s: State, step: Step, key: Key)
    requires Safe(budget, s) && Enabled(budget, s, step) && Stuck(s, key) && Fills(step)
    ensures Stuck(Apply(budget, s, step), key)
  {
    assert PhaseOk(budget, s, At(s, step.w));
    assert Pointed(s, s.current[key]);
  }

  lemma FailKeepsStuck(budget: nat, s: State, step: Step, key: Key)
    requires Safe(budget, s) && Enabled(budget, s, step) && Stuck(s, key) && Fails(step)
    ensures Stuck(Apply(budget, s, step), key)
  {
    assert PhaseOk(budget, s, At(s, step.w));
    assert Pointed(s, s.current[key]);
  }

  lemma StepKeepsStuck(budget: nat, s: State, step: Step, key: Key)
    requires Safe(budget, s) && Enabled(budget, s, step) && Stuck(s, key)
    ensures Stuck(Apply(budget, s, step), key) <==> step != Invalidate(key)
  {
    if Evicts(step) { EvictKeepsStuck(budget, s, step, key); }
    else if Fills(step) { FillKeepsStuck(budget, s, step, key); }
    else if Fails(step) { FailKeepsStuck(budget, s, step, key); }
  }

  /** Until somebody invalidates the key, no reader gets it and no fill replaces it. */
  lemma {:induction false} StuckUntilInvalidated(budget: nat, s: State, steps: seq<Step>, key: Key)
    requires Safe(budget, s) && IsRun(budget, s, steps) && Stuck(s, key) && Invalidate(key) !in steps
    ensures Stuck(After(budget, s, steps), key)
    ensures forall step | step in steps && step.Acquire? :: step.key != key
    decreases |steps|
  {
    if steps != [] {
      StepSafe(budget, s, steps[0]);
      StepKeepsStuck(budget, s, steps[0], key);
      StuckUntilInvalidated(budget, Apply(budget, s, steps[0]), steps[1..], key);
      forall step | step in steps && step.Acquire? ensures step.key != key { assert step == steps[0] || step in steps[1..]; }
    }
  }
}
