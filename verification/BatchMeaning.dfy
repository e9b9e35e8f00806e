/** What a batch of changes does, read off the batch alone. */
module BatchMeaning {
  import opened Publication
  import opened Relations
  import opened Wrappers

  function NameOf(change: Mutation): string {
    match change
    case PutRelation(r) => r.name
    case RemoveRelation(n) => n
  }

  /** The last change before position `i` that names `n` decides what is there, the catalog if
    * there is none. */
  function StandingAt(m: Content, batch: seq<Mutation>, i: nat, n: string): Option<Relation>
    requires i <= |batch|
  {
    if i == 0 then (if n in m then Some(m[n]) else None)
    else if NameOf(batch[i - 1]) != n then StandingAt(m, batch, i - 1, n)
    else match batch[i - 1]
      case PutRelation(r) => Some(r)
      case RemoveRelation(_) => None
  }

  lemma {:induction false} StandingBefore(m: Content, batch: seq<Mutation>, i: nat, n: string)
    requires i < |batch|
    ensures StandingAt(m, batch[..|batch| - 1], i, n) == StandingAt(m, batch, i, n)
  {
    if i > 0 { StandingBefore(m, batch, i - 1, n); }
  }

  lemma {:induction false} DraftedStands(m: Content, batch: seq<Mutation>, n: string)
    requires Drafted(m, batch).Some?
    ensures
      var after := Drafted(m, batch).value.0;
      StandingAt(m, batch, |batch|, n) == if n in after then Some(after[n]) else None
  {
    if batch != [] {
      DraftedStands(m, batch[..|batch| - 1], n);
      StandingBefore(m, batch, |batch| - 1, n);
    }
  }

  lemma {:induction false} StandsUnnamed(m: Content, batch: seq<Mutation>, i: nat, j: nat, n: string)
    requires i <= j <= |batch| && forall k | i <= k < j :: NameOf(batch[k]) != n
    ensures StandingAt(m, batch, j, n) == StandingAt(m, batch, i, n)
    decreases j
  {
    if i < j { StandsUnnamed(m, batch, i, j - 1, n); }
  }

  /** A name that no change names is as it was. */
  lemma {:induction false} UnnamedStays(m: Content, batch: seq<Mutation>, n: string)
    requires Drafted(m, batch).Some? && forall k | 0 <= k < |batch| :: NameOf(batch[k]) != n
    ensures
      var after := Drafted(m, batch).value.0;
      (n in after <==> n in m) && (n in m ==> after[n] == m[n])
  {
    DraftedStands(m, batch, n);
    StandsUnnamed(m, batch, 0, |batch|, n);
  }

  /** Otherwise the last change that names it decides: a put leaves exactly that relation, a
    * remove leaves none. */
  lemma {:induction false} LastDecides(m: Content, batch: seq<Mutation>, i: nat)
    requires Drafted(m, batch).Some? && i < |batch| && forall k | i < k < |batch| :: NameOf(batch[k]) != NameOf(batch[i])
    ensures
      var after := Drafted(m, batch).value.0;
      match batch[i]
      case PutRelation(r) => r.name in after && after[r.name] == r
      case RemoveRelation(n) => n !in after
  {
    DraftedStands(m, batch, NameOf(batch[i]));
    StandsUnnamed(m, batch, i + 1, |batch|, NameOf(batch[i]));
  }

  /** A batch fails exactly when it removes a name that is not there at that point. */
  lemma {:induction false} FailsExactly(m: Content, batch: seq<Mutation>)
    ensures Drafted(m, batch).None? <==>
      exists i :: 0 <= i < |batch| && batch[i].RemoveRelation? && StandingAt(m, batch, i, batch[i].name).None?
  {
    if batch != [] {
      var last := |batch| - 1;
      var front := batch[..last];
      FailsExactly(m, front);
      forall i | 0 <= i < last && batch[i].RemoveRelation?
        ensures StandingAt(m, front, i, batch[i].name) == StandingAt(m, batch, i, batch[i].name)
      {
        StandingBefore(m, batch, i, batch[i].name);
      }
      if Drafted(m, front).None? {
        var i :| 0 <= i < |front| && front[i].RemoveRelation? && StandingAt(m, front, i, front[i].name).None?;
        assert batch[i].RemoveRelation? && StandingAt(m, batch, i, batch[i].name).None?;
      } else {
        forall i | 0 <= i < last && batch[i].RemoveRelation? ensures StandingAt(m, batch, i, batch[i].name).Some? {
          assert front[i].RemoveRelation?;
        }
        DraftedStands(m, front, NameOf(batch[last]));
        StandingBefore(m, batch, last, NameOf(batch[last]));
      }
    }
  }

  /** A change has an effect unless it puts what is there already. */
  predicate Effective(m: Content, batch: seq<Mutation>, i: nat)
    requires i < |batch|
  {
    batch[i].PutRelation? ==> StandingAt(m, batch, i, batch[i].relation.name) != Some(batch[i].relation)
  }

  /** The changed names are those of the effective changes; that later ones undo them does not matter. */
  lemma {:induction false} ChangedExactly(m: Content, batch: seq<Mutation>, n: string)
    requires Drafted(m, batch).Some?
    ensures n in Drafted(m, batch).value.1 <==> exists i :: 0 <= i < |batch| && NameOf(batch[i]) == n && Effective(m, batch, i)
  {
    if batch != [] {
      var last := |batch| - 1;
      var front := batch[..last];
      ChangedExactly(m, front, n);
      forall i | 0 <= i < last ensures Effective(m, front, i) <==> Effective(m, batch, i) { StandingBefore(m, batch, i, NameOf(batch[i])); }
      DraftedStands(m, front, NameOf(batch[last]));
      StandingBefore(m, batch, last, NameOf(batch[last]));
      if n in Drafted(m, front).value.1 {
        var i :| 0 <= i < |front| && NameOf(front[i]) == n && Effective(m, front, i);
        assert NameOf(batch[i]) == n && Effective(m, batch, i);
      }
      if i :| 0 <= i < |batch| && NameOf(batch[i]) == n && Effective(m, batch, i) {
        if i < last { assert NameOf(front[i]) == n && Effective(m, front, i); }
      }
    }
  }

  /** A batch is accepted when no removal misses and, if any change has an effect, the outcome is valid. */
  lemma AcceptedExactly(setting: Setting, m: Content, batch: seq<Mutation>)
    ensures Accepts(setting, m, batch) <==>
      && (forall i | 0 <= i < |batch| && batch[i].RemoveRelation? :: StandingAt(m, batch, i, batch[i].name).Some?)
      && ((exists i :: 0 <= i < |batch| && Effective(m, batch, i)) ==> Drafted(m, batch).Some? && Valid(Drafted(m, batch).value.0, setting.local))
  {
    FailsExactly(m, batch);
    if Drafted(m, batch).Some? {
      var changed := Drafted(m, batch).value.1;
      if changed != {} {
        var n :| n in changed;
        ChangedExactly(m, batch, n);
      }
      if i :| 0 <= i < |batch| && Effective(m, batch, i) { ChangedExactly(m, batch, NameOf(batch[i])); }
    }
  }
}
