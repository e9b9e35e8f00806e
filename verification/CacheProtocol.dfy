/** Fills, readers, invalidations, evictions and crashes over one cache directory, step by step. */
module CacheProtocol {
  import opened CacheDisk
  import opened Widths

  type Worker = nat
  type Reader = nat

  /** Where one `resolve` call is; the locks it holds follow from it. A fill that fails
    * gives up the catalog first and then, `Dropping`, removes its directory. */
  datatype Phase =
    | Idle
    | Waiting(key: Key)
    | Missed(key: Key)
    | Admitted(key: Key, fill: nat)
    | Evicting(key: Key, fill: nat, queue: seq<Generation>, total: nat)
    | Deleting(key: Key, fill: nat, queue: seq<Generation>, total: nat, victim: Generation)
    | Filling(key: Key, fill: nat, generation: Generation)
    | Written(key: Key, generation: Generation)
    | Publishing(key: Key, generation: Generation)
    | Renamed(key: Key, generation: Generation)
    | Dropping(key: Key, victim: Generation)

  datatype State = State(
    dirs: map<Generation, Directory>, current: map<Key, Generation>,
    phases: map<Worker, Phase>, leases: map<Reader, Generation>)

  /** `Crash` stands for every end that leaves the directories as they are: of the process,
    * of a call that is answered from the cache, of an eviction or a removal that fails. */
  datatype Step =
    | LockRefresh(w: Worker, key: Key)
    | Miss(w: Worker)
    | LockWriter(w: Worker, fill: nat)
    | StartEvict(w: Worker, queue: seq<Generation>)
    | SkipLeased(w: Worker)
    | DropPointer(w: Worker)
    | Tear(w: Worker, manifest: bool)
    | DeleteDirectory(w: Worker)
    | StartFill(w: Worker, generation: Generation)
    | WriteManifest(w: Worker, disk: nat, acquired: nat)
    | LockCatalog(w: Worker)
    | RenamePointer(w: Worker)
    | FinishFill(w: Worker, reader: Reader, leased: bool)
    | AbandonFill(w: Worker, garbled: bool)
    | SyncFails(w: Worker)
    | RemoveFill(w: Worker)
    | Crash(w: Worker, garbled: bool)
    | Acquire(r: Reader, key: Key)
    | Release(r: Reader)
    | Invalidate(key: Key)

  function At(s: State, w: Worker): Phase {
    if w in s.phases then s.phases[w] else Idle
  }

  predicate HoldsRefresh(p: Phase, key: Key) {
    !p.Idle? && p.key == key
  }

  predicate HoldsWriter(p: Phase) {
    !p.Idle? && !p.Waiting? && !p.Missed?
  }

  predicate HoldsCatalog(p: Phase) {
    p.Evicting? || p.Deleting? || p.Publishing? || p.Renamed?
  }

  predicate CatalogFree(s: State) {
    forall v | v in s.phases :: !HoldsCatalog(s.phases[v])
  }

  predicate RefreshFree(s: State, key: Key) {
    forall v | v in s.phases :: !HoldsRefresh(s.phases[v], key)
  }

  predicate WriterFree(s: State) {
    forall v | v in s.phases :: !HoldsWriter(s.phases[v])
  }

  predicate Leased(s: State, g: Generation) {
    exists r :: r in s.leases && s.leases[r] == g
  }

  predicate Pointed(s: State, g: Generation) {
    exists k :: k in s.current && s.current[k] == g
  }

  /** No reader and no pointer knows the generation; so it is with a name just made up. */
  predicate Private(s: State, g: Generation) {
    !Leased(s, g) && !Pointed(s, g)
  }

  /** A lookup of the key finds no pointer or one to a readable manifest; else it is an error. */
  predicate Answers(s: State, key: Key) {
    key in s.current ==> s.current[key] in s.dirs && HasManifest(s.dirs[s.current[key]])
  }

  /** What the directory scan of `evict` finds: every readable manifest, oldest first. */
  ghost predicate Scan(dirs: map<Generation, Directory>, queue: seq<Generation>) {
    && (forall i, j | 0 <= i < j < |queue| :: queue[i] != queue[j])
    && (forall g :: g in queue <==> g in dirs && HasManifest(dirs[g]))
    && (forall i, j | 0 <= i < j < |queue| && queue[i] in dirs && queue[j] in dirs :: dirs[queue[i]].acquired <= dirs[queue[j]].acquired)
  }

  /** Directories without any manifest file are left-overs of dead fills. */
  function Cleaned(dirs: map<Generation, Directory>): map<Generation, Directory> {
    dirs - set g | g in dirs && dirs[g].content.Filling?
  }

  /** What a removal that got half-way leaves of a directory, with the manifest file or without. */
  function Remains(c: Content, manifest: bool): Content {
    if !manifest || c.Filling? then Content.Filling else if c.Garbled? then Garbled else Torn
  }

  function Moved(s: State, w: Worker, p: Phase): State {
    s.(phases := s.phases[w := p])
  }

  predicate Fits(total: nat, fill: nat, budget: nat) {
    SaturatingAdd(total, fill) <= budget
  }

  ghost predicate Enabled(budget: nat, s: State, step: Step) {
    match step
    case LockRefresh(w, key) => At(s, w).Idle? && RefreshFree(s, key)
    case Miss(w) => At(s, w).Waiting? && CatalogFree(s) && Answers(s, At(s, w).key)
    case LockWriter(w, fill) => At(s, w).Missed? && WriterFree(s) && fill <= U64_MAX
    case StartEvict(w, queue) =>
      At(s, w).Admitted? && CatalogFree(s) && At(s, w).fill <= budget && Scan(Cleaned(s.dirs), queue)
    case SkipLeased(w) =>
      var p := At(s, w);
      p.Evicting? && !Fits(p.total, p.fill, budget) && p.queue != [] && Leased(s, p.queue[0])
    case DropPointer(w) =>
      var p := At(s, w);
      p.Evicting? && !Fits(p.total, p.fill, budget) && p.queue != [] && p.queue[0] in s.dirs && !Leased(s, p.queue[0])
    case Tear(w, manifest) => (At(s, w).Deleting? || At(s, w).Dropping?) && At(s, w).victim in s.dirs
    case DeleteDirectory(w) => At(s, w).Deleting? && At(s, w).victim in s.dirs
    case StartFill(w, g) =>
      var p := At(s, w);
      p.Evicting? && Fits(p.total, p.fill, budget) && g !in s.dirs && Private(s, g)
    case WriteManifest(w, disk, acquired) =>
      var p := At(s, w);
      p.Filling? && p.generation in s.dirs && disk <= p.fill && disk <= budget
    case LockCatalog(w) => At(s, w).Written? && CatalogFree(s)
    case RenamePointer(w) => At(s, w).Publishing?
    case FinishFill(w, r, leased) => At(s, w).Renamed? && (leased ==> r !in s.leases)
    case AbandonFill(w, garbled) =>
      && (At(s, w).Filling? || At(s, w).Written? || At(s, w).Publishing?)
      && (garbled ==> At(s, w).Filling? && At(s, w).generation in s.dirs)
    case SyncFails(w) => At(s, w).Renamed?
    case RemoveFill(w) => At(s, w).Dropping?
    case Crash(w, garbled) => !At(s, w).Idle? && (garbled ==> At(s, w).Filling? && At(s, w).generation in s.dirs)
    case Acquire(r, key) =>
      && CatalogFree(s) && r !in s.leases && key in s.current && s.current[key] in s.dirs && HasManifest(s.dirs[s.current[key]])
    case Release(r) => r in s.leases
    case Invalidate(key) => RefreshFree(s, key) && CatalogFree(s)
  }

  ghost function Apply(budget: nat, s: State, step: Step): State
    requires Enabled(budget, s, step)
  {
    match step
    case LockRefresh(w, key) => Moved(s, w, Waiting(key))
    case Miss(w) => Moved(s, w, Missed(At(s, w).key))
    case LockWriter(w, fill) => Moved(s, w, Admitted(At(s, w).key, fill))
    case StartEvict(w, queue) =>
      Moved(s, w, Evicting(At(s, w).key, At(s, w).fill, queue, Capped(Used(Cleaned(s.dirs))))).(dirs := Cleaned(s.dirs))
    case SkipLeased(w) => Moved(s, w, Evicting(At(s, w).key, At(s, w).fill, At(s, w).queue[1..], At(s, w).total))
    case DropPointer(w) =>
      var p := At(s, w);
      var key := s.dirs[p.queue[0]].key;
      Moved(s, w, Deleting(p.key, p.fill, p.queue[1..], p.total, p.queue[0]))
        .(current := if key in s.current && s.current[key] == p.queue[0] then Without(s.current, key) else s.current)
    case Tear(w, manifest) =>
      var g := At(s, w).victim;
      s.(dirs := s.dirs[g := s.dirs[g].(content := Remains(s.dirs[g].content, manifest))])
    case DeleteDirectory(w) =>
      var p := At(s, w);
      Moved(s, w, Evicting(p.key, p.fill, p.queue, SaturatingSub(p.total, s.dirs[p.victim].disk))).(dirs := Without(s.dirs, p.victim))
    case StartFill(w, g) =>
      Moved(s, w, Phase.Filling(At(s, w).key, At(s, w).fill, g)).(dirs := s.dirs[g := Directory(At(s, w).key, 0, 0, Content.Filling)])
    case WriteManifest(w, disk, acquired) =>
      var p := At(s, w);
      Moved(s, w, Written(p.key, p.generation)).(dirs := s.dirs[p.generation := Directory(p.key, disk, acquired, Complete)])
    case LockCatalog(w) => Moved(s, w, Publishing(At(s, w).key, At(s, w).generation))
    case RenamePointer(w) =>
      Moved(s, w, Renamed(At(s, w).key, At(s, w).generation)).(current := s.current[At(s, w).key := At(s, w).generation])
    case FinishFill(w, r, leased) =>
      Moved(s, w, Idle).(leases := if leased then s.leases[r := At(s, w).generation] else s.leases)
    case AbandonFill(w, garbled) =>
      var g := At(s, w).generation;
      Moved(s, w, Dropping(At(s, w).key, g)).(dirs := if garbled then s.dirs[g := s.dirs[g].(content := Garbled)] else s.dirs)
    case SyncFails(w) => Moved(s, w, Dropping(At(s, w).key, At(s, w).generation))
    case RemoveFill(w) => Moved(s, w, Idle).(dirs := Without(s.dirs, At(s, w).victim))
    case Crash(w, garbled) =>
      Moved(s, w, Idle).(dirs := if garbled then s.dirs[At(s, w).generation := s.dirs[At(s, w).generation].(content := Garbled)] else s.dirs)
    case Acquire(r, key) => s.(leases := s.leases[r := s.current[key]])
    case Release(r) => s.(leases := s.leases - {r})
    case Invalidate(key) => s.(current := Without(s.current, key))
  }

  // ---- What every reachable state satisfies ----

  ghost predicate QueueOk(s: State, queue: seq<Generation>) {
    && (forall i, j | 0 <= i < j < |queue| :: queue[i] != queue[j])
    && (forall g | g in queue :: g in s.dirs && HasManifest(s.dirs[g]))
  }

  ghost predicate PhaseOk(budget: nat, s: State, p: Phase) {
    match p
    case Idle => true
    case Waiting(_) => true
    case Missed(_) => true
    case Admitted(_, fill) => fill <= U64_MAX
    case Evicting(_, fill, queue, total) =>
      && fill <= U64_MAX && QueueOk(s, queue) && total <= U64_MAX
      && (Enforced(budget) ==> Used(s.dirs) == total)
    case Deleting(_, fill, queue, total, g) =>
      && fill <= U64_MAX && QueueOk(s, queue)
      && g in s.dirs && g !in queue && Private(s, g)
      && total <= U64_MAX && (Enforced(budget) ==> Used(Without(s.dirs, g)) + s.dirs[g].disk == total <= budget)
    case Filling(key, fill, g) =>
      && g in s.dirs && s.dirs[g].content.Filling? && s.dirs[g].key == key && Private(s, g)
      && (Enforced(budget) ==> Used(s.dirs) + fill <= budget)
    case Written(key, g) => g in s.dirs && s.dirs[g].content.Complete? && s.dirs[g].key == key && Private(s, g)
    case Publishing(key, g) => g in s.dirs && s.dirs[g].content.Complete? && s.dirs[g].key == key && Private(s, g)
    case Renamed(key, g) =>
      && g in s.dirs && s.dirs[g].content.Complete? && s.dirs[g].key == key && !Leased(s, g)
      && key in s.current && s.current[key] == g
    case Dropping(key, g) => g in s.dirs && s.dirs[g].key == key
  }

  ghost predicate PhasesOk(budget: nat, s: State) {
    forall w | w in s.phases :: PhaseOk(budget, s, s.phases[w])
  }

  /** Each lock has at most one holder. */
  ghost predicate LocksExclusive(s: State) {
    forall v, w | v in s.phases && w in s.phases && v != w ::
      && !(HoldsWriter(s.phases[v]) && HoldsWriter(s.phases[w]))
      && !(HoldsCatalog(s.phases[v]) && HoldsCatalog(s.phases[w]))
      && (!s.phases[v].Idle? ==> !HoldsRefresh(s.phases[w], s.phases[v].key))
  }

  /** A pointer to an existing directory stays within its own key. */
  ghost predicate PointersKeyed(s: State) {
    forall k | k in s.current && s.current[k] in s.dirs :: s.dirs[s.current[k]].key == k
  }

  /** Saturating sums never exceed the largest budget, so that one is not enforced. */
  predicate Enforced(budget: nat) {
    budget < U64_MAX
  }

  ghost predicate WithinBudget(budget: nat, s: State) {
    Used(s.dirs) <= budget
  }

  /** What no failure whatever breaks. */
  ghost predicate Safe(budget: nat, s: State) {
    LocksExclusive(s) && PhasesOk(budget, s) && PointersKeyed(s) && (Enforced(budget) ==> WithinBudget(budget, s))
  }

  const START := State(map[], map[], map[], map[])

  // ---- Moving one worker ----

  lemma MovedExclusive(s: State, w: Worker, p: Phase)
    requires LocksExclusive(s)
    requires HoldsWriter(p) ==> HoldsWriter(At(s, w)) || WriterFree(s)
    requires HoldsCatalog(p) ==> HoldsCatalog(At(s, w)) || CatalogFree(s)
    requires !p.Idle? ==> HoldsRefresh(At(s, w), p.key) || RefreshFree(s, p.key)
    ensures LocksExclusive(Moved(s, w, p))
  {
  }

  /** A worker holding the writer lock moves; nobody else has a phase that could mind. */
  lemma OthersOk(budget: nat, s: State, s': State, w: Worker, p: Phase)
    requires LocksExclusive(s) && PhasesOk(budget, s) && s'.phases == s.phases[w := p]
    requires HoldsWriter(At(s, w)) && PhaseOk(budget, s', p)
    ensures PhasesOk(budget, s')
  {
    forall v | v in s'.phases ensures PhaseOk(budget, s', s'.phases[v]) {
      if v != w { assert !HoldsWriter(s.phases[v]); }
    }
  }

  // ---- Steps that only take locks ----

  lemma LockStepsSafe(budget: nat, s: State, step: Step)
    requires Safe(budget, s) && Enabled(budget, s, step)
    requires step.LockRefresh? || step.Miss? || step.LockWriter? || step.LockCatalog? || step.SkipLeased?
    ensures Safe(budget, Apply(budget, s, step))
  {
    var s' := Apply(budget, s, step);
    MovedExclusive(s, step.w, s'.phases[step.w]);
    forall v | v in s'.phases ensures PhaseOk(budget, s', s'.phases[v]) {
      assert PhaseOk(budget, s, At(s, v));
      if v != step.w { SamePhaseOk(budget, s, s', s.phases[v]); }
    }
  }

  /** The catalog is given up; the directory is still whole and CURRENT names it. */
  lemma SyncFailsSafe(budget: nat, s: State, step: Step)
    requires Safe(budget, s) && Enabled(budget, s, step) && step.SyncFails?
    ensures Safe(budget, Apply(budget, s, step))
  {
    var s' := Apply(budget, s, step);
    assert PhaseOk(budget, s, At(s, step.w));
    MovedExclusive(s, step.w, s'.phases[step.w]);
    OthersOk(budget, s, s', step.w, s'.phases[step.w]);
  }

  lemma SamePhaseOk(budget: nat, s: State, s': State, p: Phase)
    requires PhaseOk(budget, s, p) && s'.dirs == s.dirs && s'.current == s.current && s'.leases == s.leases
    ensures PhaseOk(budget, s', p)
  {
  }

  // ---- Steps of the writer ----

  lemma StartEvictSafe(budget: nat, s: State, step: Step)
    requires Safe(budget, s) && Enabled(budget, s, step) && step.StartEvict?
    ensures Safe(budget, Apply(budget, s, step))
  {
    var s' := Apply(budget, s, step);
    UsedDrop(s.dirs, s'.dirs);
    MovedExclusive(s, step.w, s'.phases[step.w]);
    OthersOk(budget, s, s', step.w, s'.phases[step.w]);
  }

  lemma DropPointerSafe(budget: nat, s: State, step: Step)
    requires Safe(budget, s) && Enabled(budget, s, step) && step.DropPointer?
    ensures Safe(budget, Apply(budget, s, step))
  {
    var s' := Apply(budget, s, step);
    assert PhaseOk(budget, s, At(s, step.w));
    UsedWithout(s.dirs, At(s, step.w).queue[0]);
    MovedExclusive(s, step.w, s'.phases[step.w]);
    OthersOk(budget, s, s', step.w, s'.phases[step.w]);
  }

  /** A directory that is being removed weighs what it did as long as its manifest is readable. */
  lemma TornWeighs(m: map<Generation, Directory>, g: Generation, d: Directory)
    requires g in m && d.disk == m[g].disk && (HasManifest(d) ==> HasManifest(m[g]))
    ensures Used(m[g := d]) <= Used(m) && Without(m[g := d], g) == Without(m, g)
  {
    UsedWith(m, g, d);
    UsedWithout(m, g);
  }

  lemma TearSafe(budget: nat, s: State, step: Step)
    requires Safe(budget, s) && Enabled(budget, s, step) && step.Tear?
    ensures Safe(budget, Apply(budget, s, step))
  {
    var s' := Apply(budget, s, step);
    var p := At(s, step.w);
    assert PhaseOk(budget, s, p);
    TornWeighs(s.dirs, p.victim, s'.dirs[p.victim]);
    assert s'.phases == s.phases[step.w := p];
    OthersOk(budget, s, s', step.w, p);
  }

  lemma DeleteDirectorySafe(budget: nat, s: State, step: Step)
    requires Safe(budget, s) && Enabled(budget, s, step) && step.DeleteDirectory?
    ensures Safe(budget, Apply(budget, s, step))
  {
    var s' := Apply(budget, s, step);
    assert PhaseOk(budget, s, At(s, step.w));
    MovedExclusive(s, step.w, s'.phases[step.w]);
    OthersOk(budget, s, s', step.w, s'.phases[step.w]);
  }

  lemma StartFillSafe(budget: nat, s: State, step: Step)
    requires Safe(budget, s) && Enabled(budget, s, step) && step.StartFill?
    ensures Safe(budget, Apply(budget, s, step))
  {
    var s' := Apply(budget, s, step);
    var p := At(s, step.w);
    assert PhaseOk(budget, s, p);
    if Enforced(budget) { AdmissionIsExact(p.total, p.fill, budget); }
    UsedWith(s.dirs, step.generation, s'.dirs[step.generation]);
    UsedWithoutAbsent(s.dirs, step.generation);
    MovedExclusive(s, step.w, s'.phases[step.w]);
    OthersOk(budget, s, s', step.w, s'.phases[step.w]);
  }

  lemma WriteManifestSafe(budget: nat, s: State, step: Step)
    requires Safe(budget, s) && Enabled(budget, s, step) && step.WriteManifest?
    ensures Safe(budget, Apply(budget, s, step))
  {
    var s' := Apply(budget, s, step);
    var p := At(s, step.w);
    assert PhaseOk(budget, s, p);
    UsedWith(s.dirs, p.generation, s'.dirs[p.generation]);
    UsedWithout(s.dirs, p.generation);
    MovedExclusive(s, step.w, s'.phases[step.w]);
    OthersOk(budget, s, s', step.w, s'.phases[step.w]);
  }

  lemma PublishSafe(budget: nat, s: State, step: Step)
    requires Safe(budget, s) && Enabled(budget, s, step) && (step.RenamePointer? || step.FinishFill?)
    ensures Safe(budget, Apply(budget, s, step))
  {
    var s' := Apply(budget, s, step);
    assert PhaseOk(budget, s, At(s, step.w));
    MovedExclusive(s, step.w, s'.phases[step.w]);
    OthersOk(budget, s, s', step.w, s'.phases[step.w]);
  }

  lemma AbandonFillSafe(budget: nat, s: State, step: Step)
    requires Safe(budget, s) && Enabled(budget, s, step) && step.AbandonFill?
    ensures Safe(budget, Apply(budget, s, step))
  {
    var s' := Apply(budget, s, step);
    var g := At(s, step.w).generation;
    assert PhaseOk(budget, s, At(s, step.w));
    UsedWith(s.dirs, g, s'.dirs[g]);
    UsedWithout(s.dirs, g);
    MovedExclusive(s, step.w, s'.phases[step.w]);
    OthersOk(budget, s, s', step.w, s'.phases[step.w]);
  }

  lemma RemoveFillSafe(budget: nat, s: State, step: Step)
    requires Safe(budget, s) && Enabled(budget, s, step) && step.RemoveFill?
    ensures Safe(budget, Apply(budget, s, step))
  {
    var s' := Apply(budget, s, step);
    assert PhaseOk(budget, s, At(s, step.w));
    UsedWithout(s.dirs, At(s, step.w).victim);
    MovedExclusive(s, step.w, Idle);
    OthersOk(budget, s, s', step.w, Idle);
  }

  lemma CrashSafe(budget: nat, s: State, step: Step)
    requires Safe(budget, s) && Enabled(budget, s, step) && step.Crash?
    ensures Safe(budget, Apply(budget, s, step))
  {
    var s' := Apply(budget, s, step);
    MovedExclusive(s, step.w, Idle);
    if step.garbled {
      var g := At(s, step.w).generation;
      assert PhaseOk(budget, s, At(s, step.w));
      UsedWith(s.dirs, g, s'.dirs[g]);
      UsedWithout(s.dirs, g);
      OthersOk(budget, s, s', step.w, Idle);
    } else {
      forall v | v in s'.phases ensures PhaseOk(budget, s', s'.phases[v]) {
        if v != step.w { SamePhaseOk(budget, s, s', s.phases[v]); }
      }
    }
  }

  // ---- Steps of readers and invalidations ----

  lemma AcquireSafe(budget: nat, s: State, step: Step)
    requires Safe(budget, s) && Enabled(budget, s, step) && step.Acquire?
    ensures Safe(budget, Apply(budget, s, step))
  {
    var s' := Apply(budget, s, step);
    forall v | v in s'.phases ensures PhaseOk(budget, s', s'.phases[v]) {
      PhaseOkAcquire(budget, s, s', step.r, step.key, s.phases[v]);
    }
  }

  lemma PhaseOkAcquire(budget: nat, s: State, s': State, r: Reader, key: Key, p: Phase)
    requires PhaseOk(budget, s, p) && !HoldsCatalog(p) && key in s.current && s' == s.(leases := s.leases[r := s.current[key]])
    ensures PhaseOk(budget, s', p)
  {
  }

  lemma PhaseOkFewer(budget: nat, s: State, s': State, p: Phase)
    requires PhaseOk(budget, s, p) && s'.dirs == s.dirs
    requires forall r | r in s'.leases :: r in s.leases && s'.leases[r] == s.leases[r]
    requires s'.current == s.current || (!p.Renamed? && forall k | k in s'.current :: k in s.current && s'.current[k] == s.current[k])
    ensures PhaseOk(budget, s', p)
  {
  }

  lemma FewerSafe(budget: nat, s: State, step: Step)
    requires Safe(budget, s) && Enabled(budget, s, step) && (step.Release? || step.Invalidate?)
    ensures Safe(budget, Apply(budget, s, step))
  {
    var s' := Apply(budget, s, step);
    forall v | v in s'.phases ensures PhaseOk(budget, s', s'.phases[v]) {
      PhaseOkFewer(budget, s, s', s.phases[v]);
    }
  }

  // ---- Every step, every run ----

  predicate TakesLock(step: Step) {
    step.LockRefresh? || step.Miss? || step.LockWriter? || step.LockCatalog? || step.SkipLeased?
  }

  predicate Evicts(step: Step) {
    step.StartEvict? || step.DropPointer? || step.Tear? || step.DeleteDirectory?
  }

  predicate Fills(step: Step) {
    step.StartFill? || step.WriteManifest? || step.RenamePointer? || step.FinishFill?
  }

  predicate Fails(step: Step) {
    step.AbandonFill? || step.SyncFails? || step.RemoveFill? || step.Crash?
  }

  lemma EvictStepSafe(budget: nat, s: State, step: Step)
    requires Safe(budget, s) && Enabled(budget, s, step) && Evicts(step)
    ensures Safe(budget, Apply(budget, s, step))
  {
    if step.StartEvict? { StartEvictSafe(budget, s, step); }
    else if step.DropPointer? { DropPointerSafe(budget, s, step); }
    else if step.Tear? { TearSafe(budget, s, step); }
    else { DeleteDirectorySafe(budget, s, step); }
  }

  lemma FillStepSafe(budget: nat, s: State, step: Step)
    requires Safe(budget, s) && Enabled(budget, s, step) && Fills(step)
    ensures Safe(budget, Apply(budget, s, step))
  {
    if step.StartFill? { StartFillSafe(budget, s, step); }
    else if step.WriteManifest? { WriteManifestSafe(budget, s, step); }
    else { PublishSafe(budget, s, step); }
  }

  lemma FailStepSafe(budget: nat, s: State, step: Step)
    requires Safe(budget, s) && Enabled(budget, s, step) && Fails(step)
    ensures Safe(budget, Apply(budget, s, step))
  {
    if step.AbandonFill? { AbandonFillSafe(budget, s, step); }
    else if step.SyncFails? { SyncFailsSafe(budget, s, step); }
    else if step.RemoveFill? { RemoveFillSafe(budget, s, step); }
    else { CrashSafe(budget, s, step); }
  }

  /** Every step keeps the protocol safe. */
  lemma StepSafe(budget: nat, s: State, step: Step)
    requires Safe(budget, s) && Enabled(budget, s, step)
    ensures Safe(budget, Apply(budget, s, step))
  {
    if TakesLock(step) { LockStepsSafe(budget, s, step); }
    else if Evicts(step) { EvictStepSafe(budget, s, step); }
    else if Fills(step) { FillStepSafe(budget, s, step); }
    else if Fails(step) { FailStepSafe(budget, s, step); }
    else if step.Acquire? { AcquireSafe(budget, s, step); }
    else { FewerSafe(budget, s, step); }
  }

  /** A run is given by its steps; each is enabled where it happens. */
  ghost predicate IsRun(budget: nat, s: State, steps: seq<Step>)
    decreases |steps|
  {
    steps == [] || (Enabled(budget, s, steps[0]) && IsRun(budget, Apply(budget, s, steps[0]), steps[1..]))
  }

  ghost function After(budget: nat, s: State, steps: seq<Step>): State
    requires IsRun(budget, s, steps)
    decreases |steps|
  {
    if steps == [] then s else After(budget, Apply(budget, s, steps[0]), steps[1..])
  }

  /** Over every run, crashes and failed syncs included, locks are exclusive and the manifests
    * on disk within an enforced budget. */
  lemma {:induction false} RunSafe(budget: nat, s: State, steps: seq<Step>)
    requires Safe(budget, s) && IsRun(budget, s, steps)
    ensures Safe(budget, After(budget, s, steps))
    decreases |steps|
  {
    if steps != [] {
      StepSafe(budget, s, steps[0]);
      RunSafe(budget, Apply(budget, s, steps[0]), steps[1..]);
    }
  }
}
