/** What each step of the cache protocol changes. */
module CacheEffects {
  import opened CacheDisk
  import opened CacheProtocol

  /** A lease begins when a reader is answered or a fill ends with it, and ends when it is given back. */
  lemma LeaseAfter(budget: nat, s: State, step: Step, r: Reader)
    requires Enabled(budget, s, step)
    ensures
      var begins := (step.Acquire? && step.r == r) || (step.FinishFill? && step.reader == r && step.leased);
      var after := Apply(budget, s, step).leases;
      && (r in after <==> begins || (r in s.leases && step != Release(r)))
      && (begins ==> r !in s.leases && after[r] == if step.Acquire? then s.current[step.key] else At(s, step.w).generation)
      && (r in after && !begins ==> after[r] == s.leases[r])
  {
  }

  /** A pointer is set by the fill of its key, and removed by an invalidation of the key or with the
    * generation of the key that it names; nothing else touches it. */
  lemma PointerAfter(budget: nat, s: State, step: Step, key: Key)
    requires Enabled(budget, s, step)
    ensures
      var after := Apply(budget, s, step).current;
      var sets := step.RenamePointer? && At(s, step.w).key == key;
      var drops := step == Invalidate(key)
        || (step.DropPointer? && key in s.current && s.current[key] == At(s, step.w).queue[0] && s.dirs[s.current[key]].key == key);
      && (sets ==> key in after && after[key] == At(s, step.w).generation)
      && (drops ==> key !in after)
      && (!sets && !drops ==> (key in after <==> key in s.current) && (key in after ==> after[key] == s.current[key]))
  {
  }

  ghost predicate Removes(budget: nat, s: State, step: Step, g: Generation)
    requires Enabled(budget, s, step)
  {
    || (step.StartEvict? && g in s.dirs && s.dirs[g].content == Content.Filling)
    || ((step.DeleteDirectory? || step.RemoveFill?) && At(s, step.w).victim == g)
  }

  /** The directory `g` after a step that changes it without removing it. */
  ghost predicate Writes(budget: nat, s: State, step: Step, g: Generation, after: Directory)
    requires Enabled(budget, s, step)
  {
    match step
    case StartFill(w, h) => g == h && after == Directory(At(s, w).key, 0, 0, Content.Filling)
    case WriteManifest(w, disk, acquired) => g == At(s, w).generation && after == Directory(At(s, w).key, disk, acquired, Complete)
    case AbandonFill(w, garbled) => garbled && g == At(s, w).generation && after == s.dirs[g].(content := Garbled)
    case Crash(w, garbled) => garbled && g == At(s, w).generation && after == s.dirs[g].(content := Garbled)
    case Tear(w, manifest) =>
      && g == At(s, w).victim
      && var was := s.dirs[g].content;
         after == s.dirs[g].(content := if !manifest || was == Content.Filling then Content.Filling else if was == Garbled then Garbled else Torn)
    case _ => false
  }

  /** Directories are only touched by fills, removals and evictions, each its own. */
  lemma DirectoryAfter(budget: nat, s: State, step: Step, g: Generation)
    requires Enabled(budget, s, step)
    ensures
      var after := Apply(budget, s, step).dirs;
      && (Removes(budget, s, step, g) ==> g !in after)
      && (!Removes(budget, s, step, g) ==>
            || ((g in after <==> g in s.dirs) && (g in after ==> after[g] == s.dirs[g]))
            || (g in after && (g in s.dirs || step.StartFill?) && Writes(budget, s, step, g, after[g])))
  {
  }

  /** A fill takes the locks of its key, of writing and of the catalog in this order, gives the catalog
    * up between eviction and publication, and may end at any time. */
  predicate Follows(p: Phase, q: Phase) {
    || q.Idle?
    || match p
       case Idle => q.Waiting?
       case Waiting(key) => q == Missed(key)
       case Missed(key) => q.Admitted? && q.key == key
       case Admitted(key, fill) => q.Evicting? && q.key == key && q.fill == fill
       case Evicting(key, fill, queue, total) =>
         || (queue != [] && (q == Evicting(key, fill, queue[1..], total) || q == Deleting(key, fill, queue[1..], total, queue[0])))
         || (q.Filling? && q.key == key && q.fill == fill)
       case Deleting(key, fill, queue, total, victim) => q == p || (q.Evicting? && q.key == key && q.fill == fill && q.queue == queue && q.total <= total)
       case Filling(key, fill, g) => q == Written(key, g) || q == Dropping(key, g)
       case Written(key, g) => q == Publishing(key, g) || q == Dropping(key, g)
       case Publishing(key, g) => q == Renamed(key, g) || q == Dropping(key, g)
       case Renamed(key, g) => q == Dropping(key, g)
       case Dropping(key, g) => q == p
  }

  lemma PhaseAfter(budget: nat, s: State, step: Step, v: Worker)
    requires Enabled(budget, s, step)
    ensures
      var p, q := At(s, v), At(Apply(budget, s, step), v);
      p == q || (!step.Acquire? && !step.Release? && !step.Invalidate? && step.w == v && Follows(p, q))
  {
  }

  // ---- Locks ----

  predicate Fills(p: Phase) {
    p.Admitted? || p.Evicting? || p.Deleting? || p.Filling? || p.Written? || p.Publishing? || p.Renamed? || p.Dropping?
  }

  predicate ReadsPointers(p: Phase) {
    p.Evicting? || p.Deleting? || p.Publishing? || p.Renamed?
  }

  /** In every safe state at most one worker fills, at most one reads or writes pointers, and at most
    * one is concerned with a key. */
  lemma OneAtATime(budget: nat, s: State, v: Worker, w: Worker)
    requires Safe(budget, s) && v != w && !At(s, v).Idle? && !At(s, w).Idle?
    ensures !(Fills(At(s, v)) && Fills(At(s, w)))
    ensures !(ReadsPointers(At(s, v)) && ReadsPointers(At(s, w)))
    ensures At(s, v).key != At(s, w).key
  {
    assert HoldsRefresh(At(s, v), At(s, v).key) && HoldsRefresh(At(s, w), At(s, w).key);
  }
}
