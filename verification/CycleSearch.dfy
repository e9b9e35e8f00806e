/** The cycle check of an incremental publication: a depth-first search with an explicit
    stack, started only from relations whose view dependencies changed. */
module CycleSearch {
  import opened Graphs
  import opened Relations

  /** A name still to be entered, or one to be left once everything above it is finished. */
  datatype Entry = Entry(name: string, exiting: bool)

  // ---- What the stack means ----

  ghost function Active(stack: seq<Entry>): set<string> {
    if stack == [] then {}
    else
      var top := stack[|stack| - 1];
      Active(stack[..|stack| - 1]) + (if top.exiting then {top.name} else {})
  }

  /** The innermost relation being explored. */
  ghost function Owner(stack: seq<Entry>): seq<string>
    ensures |Owner(stack)| <= 1 && (Active(stack) != {} ==> |Owner(stack)| == 1)
  {
    if stack == [] then []
    else if stack[|stack| - 1].exiting then [stack[|stack| - 1].name]
    else Owner(stack[..|stack| - 1])
  }

  /** Each entry is a dependency of the innermost explored relation below it. */
  ghost predicate Linked(g: Graph, stack: seq<Entry>) {
    stack == [] ||
    (var top, rest := stack[|stack| - 1], stack[..|stack| - 1];
     && Linked(g, rest)
     && (Owner(rest) != [] ==> top.name in Deps(g, Owner(rest)[0]))
     && (top.exiting ==> top.name !in Active(rest)))
  }

  /** What an explored relation depends on is settled, or waits above it on the stack. */
  ghost predicate Covered(g: Graph, stack: seq<Entry>, settled: set<string>) {
    stack == [] ||
    (var top, rest := stack[|stack| - 1], stack[..|stack| - 1];
     && (top.exiting ==> Deps(g, top.name) <= settled)
     && Covered(g, rest, settled + {top.name}))
  }

  ghost predicate Within(stack: seq<Entry>, universe: set<string>) {
    forall i | 0 <= i < |stack| :: stack[i].name in universe
  }

  lemma {:induction false} CoveredMore(g: Graph, stack: seq<Entry>, settled: set<string>, more: set<string>)
    requires Covered(g, stack, settled) && settled <= more
    ensures Covered(g, stack, more)
  {
    if stack != [] {
      var top, rest := stack[|stack| - 1], stack[..|stack| - 1];
      CoveredMore(g, rest, settled + {top.name}, more + {top.name});
    }
  }

  /** Meeting an active relation again closes a cycle. */
  lemma {:induction false} ActiveReachesOwner(g: Graph, stack: seq<Entry>, a: string)
    requires Linked(g, stack) && a in Active(stack)
    ensures Owner(stack) != [] && Reaches(g, a, Owner(stack)[0])
  {
    var top, rest := stack[|stack| - 1], stack[..|stack| - 1];
    if top.exiting && a == top.name {
      ReachesSelf(g, a);
    } else {
      ActiveReachesOwner(g, rest, a);
      if top.exiting { ReachesStep(g, a, Owner(rest)[0], top.name); }
    }
  }

  function Entering(names: seq<string>): seq<Entry> {
    seq(|names|, i requires 0 <= i < |names| => Entry(names[i], false))
  }

  /** Pushing the dependencies of the innermost relation keeps every reading of the stack. */
  lemma {:induction false} PushDependencies(g: Graph, stack: seq<Entry>, names: seq<string>, settled: set<string>)
    requires Linked(g, stack) && Owner(stack) != [] && forall d | d in names :: d in Deps(g, Owner(stack)[0])
    requires Covered(g, stack, settled + (set d | d in names))
    ensures var pushed := stack + Entering(names);
            && Linked(g, pushed) && Active(pushed) == Active(stack) && Owner(pushed) == Owner(stack)
            && Covered(g, pushed, settled)
  {
    if names == [] {
      assert stack + Entering(names) == stack;
      assert settled + (set d | d in names) == settled;
    } else {
      var front, last := names[..|names| - 1], names[|names| - 1];
      assert settled + (set d | d in names) == (settled + {last}) + (set d | d in front);
      PushDependencies(g, stack, front, settled + {last});
      PushOne(g, stack + Entering(front), last, settled);
      assert stack + Entering(names) == stack + Entering(front) + [Entry(last, false)];
    }
  }

  lemma PushOne(g: Graph, stack: seq<Entry>, d: string, settled: set<string>)
    requires Linked(g, stack) && Owner(stack) != [] && d in Deps(g, Owner(stack)[0]) && Covered(g, stack, settled + {d})
    ensures var pushed := stack + [Entry(d, false)];
            && Linked(g, pushed) && Active(pushed) == Active(stack) && Owner(pushed) == Owner(stack)
            && Covered(g, pushed, settled)
  {
    var pushed := stack + [Entry(d, false)];
    assert pushed[..|pushed| - 1] == stack;
  }

  /** Entering a new relation: it becomes the innermost one. */
  lemma EnterKeeps(g: Graph, rest: seq<Entry>, name: string, names: seq<string>, settled: set<string>)
    requires Linked(g, rest + [Entry(name, false)]) && Covered(g, rest + [Entry(name, false)], settled)
    requires name !in Active(rest) && Deps(g, name) == set d | d in names
    ensures var next := rest + [Entry(name, true)] + Entering(names);
            && Linked(g, next) && Covered(g, next, settled) && Active(next) == Active(rest) + {name}
  {
    var before, after := rest + [Entry(name, false)], rest + [Entry(name, true)];
    assert before[..|before| - 1] == rest && after[..|after| - 1] == rest;
    var wide := settled + (set d | d in names);
    CoveredMore(g, rest, settled + {name}, wide + {name});
    PushDependencies(g, after, names, settled);
  }

  // ---- The search ----

  /** Everything the search knows between two steps. `rank` is a ghost certificate for `done`. */
  ghost predicate Searching(g: Graph, stack: seq<Entry>, active: set<string>, done: set<string>, rank: map<string, nat>, round: nat) {
    && Linked(g, stack) && Covered(g, stack, done) && active == Active(stack)
    && active !! done && done == rank.Keys && Ranked(g, rank) && (forall n | n in rank :: rank[n] < round)
  }

  lemma LeaveKeeps(g: Graph, stack: seq<Entry>, active: set<string>, done: set<string>, rank: map<string, nat>, round: nat)
    requires Searching(g, stack, active, done, rank, round) && stack != [] && stack[|stack| - 1].exiting
    ensures var name := stack[|stack| - 1].name;
            && Searching(g, stack[..|stack| - 1], active - {name}, done + {name}, rank[name := round], round + 1)
            && name in active
  {
    var name := stack[|stack| - 1].name;
    assert Deps(g, name) <= done;
    RankNext(g, rank, round, name);
  }

  lemma SkipKeeps(g: Graph, stack: seq<Entry>, active: set<string>, done: set<string>, rank: map<string, nat>, round: nat)
    requires Searching(g, stack, active, done, rank, round) && stack != []
    requires var top := stack[|stack| - 1]; !top.exiting && top.name in done
    ensures Searching(g, stack[..|stack| - 1], active, done, rank, round)
  {
    assert done + {stack[|stack| - 1].name} == done;
  }

  lemma EnterNext(g: Graph, stack: seq<Entry>, active: set<string>, done: set<string>, rank: map<string, nat>, round: nat, names: seq<string>)
    requires Searching(g, stack, active, done, rank, round) && stack != []
    requires !stack[|stack| - 1].exiting && Deps(g, stack[|stack| - 1].name) == set d | d in names
    requires stack[|stack| - 1].name !in done && stack[|stack| - 1].name !in active
    ensures var top, rest := stack[|stack| - 1], stack[..|stack| - 1];
            Searching(g, rest + [Entry(top.name, true)] + Entering(names), active + {top.name}, done, rank, round)
  {
    var top, rest := stack[|stack| - 1], stack[..|stack| - 1];
    assert stack == rest + [Entry(top.name, false)];
    EnterKeeps(g, rest, top.name, names, done);
  }

  lemma MeetIsCycle(g: Graph, stack: seq<Entry>, active: set<string>, done: set<string>, rank: map<string, nat>, round: nat)
    requires Searching(g, stack, active, done, rank, round) && stack != []
    requires var top := stack[|stack| - 1]; !top.exiting && top.name in active
    ensures HasCycle(g) && forall n | n in active :: EndsInCycle(g, n)
  {
    var top, rest := stack[|stack| - 1], stack[..|stack| - 1];
    ActiveReachesOwner(g, rest, top.name);
    StepBackIsCycle(g, top.name, Owner(rest)[0]);
    forall n | n in active ensures EndsInCycle(g, n) {
      ActiveReachesOwner(g, rest, n);
      ReachesStep(g, n, Owner(rest)[0], top.name);
      ReachesBefore(g, n, top.name);
    }
  }

  lemma Start(g: Graph, root: string, done: set<string>, rank: map<string, nat>, round: nat)
    requires Searching(g, [], {}, done, rank, round)
    ensures Searching(g, [Entry(root, false)], {}, done, rank, round)
  {
    var stack := [Entry(root, false)];
    assert stack[..0] == [];
  }

  /** Not yet met, neither active nor done: what keeps the search finite. */
  ghost function Unmet(universe: set<string>, active: set<string>, done: set<string>): set<string> {
    universe - (active + done)
  }

  lemma UnmetShrinks(universe: set<string>, active: set<string>, done: set<string>, name: string)
    ensures name in active ==> Unmet(universe, active - {name}, done + {name}) == Unmet(universe, active, done)
    ensures name in universe && name !in active && name !in done ==>
              Unmet(universe, active + {name}, done) < Unmet(universe, active, done)
  {
    if name in universe && name !in active && name !in done {
      assert name in Unmet(universe, active, done) && name !in Unmet(universe, active + {name}, done);
    }
  }

  /** Explores everything below `root`; stops at once on meeting an active relation, and blames all active ones. */
  method Explore(m: Content, g: Graph, root: string, done: set<string>, ghost universe: set<string>, ghost rank: map<string, nat>, ghost round: nat)
    returns (blamed: set<string>, done': set<string>, ghost rank': map<string, nat>, ghost round': nat)
    requires g == ViewGraph(m) && root in universe && forall n | n in m :: ViewDependencies(m[n]) <= universe
    requires Searching(g, [], {}, done, rank, round)
    ensures blamed != {} ==> HasCycle(g) && forall n | n in blamed :: EndsInCycle(g, n)
    ensures blamed == {} ==> Searching(g, [], {}, done', rank', round') && done <= done' && root in done'
  {
    var stack, active := [Entry(root, false)], {};
    done', rank', round' := done, rank, round;
    Start(g, root, done, rank, round);
    while stack != []
      invariant Searching(g, stack, active, done', rank', round') && Within(stack, universe) && done <= done'
      invariant if stack == [] then root in done' && active == {} else stack[0].name == root
      decreases Unmet(universe, active, done'), |stack|
    {
      var top, rest := stack[|stack| - 1], stack[..|stack| - 1];
      UnmetShrinks(universe, active, done', top.name);
      if top.exiting {
        LeaveKeeps(g, stack, active, done', rank', round');
        active, done' := active - {top.name}, done' + {top.name};
        rank', round' := rank'[top.name := round'], round' + 1;
        stack := rest;
      } else if top.name in done' {
        SkipKeeps(g, stack, active, done', rank', round');
        stack := rest;
      } else if top.name in active {
        MeetIsCycle(g, stack, active, done', rank', round');
        return active, done', rank', round';
      } else {
        var dependencies := if top.name in m then ViewList(m[top.name]) else [];
        EnterNext(g, stack, active, done', rank', round', dependencies);
        active := active + {top.name};
        stack := rest + [Entry(top.name, true)] + Entering(dependencies);
      }
    }
    blamed := {};
  }

  // ---- Starting only where view dependencies changed ----

  function ViewOf(m: Content, n: string): seq<seq<string>> {
    if n in m && m[n].kind.View? then [m[n].kind.dependencies] else []
  }

  lemma SameViewSameDeps(a: Content, b: Content, n: string)
    requires ViewOf(a, n) == ViewOf(b, n)
    ensures Deps(ViewGraph(a), n) == Deps(ViewGraph(b), n)
  {
  }

  /** A cycle of the draft that avoids every searched relation was a cycle before. */
  lemma NoNewCycle(before: Content, draft: Content, done: set<string>, rank: map<string, nat>)
    requires !HasCycle(ViewGraph(before)) && Ranked(ViewGraph(draft), rank) && done == rank.Keys
    requires forall n | n !in done :: ViewOf(before, n) == ViewOf(draft, n)
    ensures !HasCycle(ViewGraph(draft))
  {
    if HasCycle(ViewGraph(draft)) {
      var p :| IsCycle(ViewGraph(draft), p);
      forall i | 0 <= i < |p| - 1 ensures p[i + 1] in Deps(ViewGraph(before), p[i]) {
        CycleAvoidsRanked(ViewGraph(draft), rank, p, i);
        SameViewSameDeps(before, draft, p[i]);
      }
      assert IsCycle(ViewGraph(before), p);
    }
  }

  /** Given an acyclic past, decides whether the draft has a cycle anywhere at all. */
  method FindCycle(before: Content, draft: Content, changed: set<string>) returns (blamed: set<string>)
    requires !HasCycle(ViewGraph(before))
    requires forall n | n !in changed :: ViewOf(before, n) == ViewOf(draft, n)
    ensures blamed != {} <==> HasCycle(ViewGraph(draft))
    ensures forall n | n in blamed :: EndsInCycle(ViewGraph(draft), n)
  {
    var g := ViewGraph(draft);
    ghost var universe := changed + set n, d | n in draft && d in ViewDependencies(draft[n]) :: d;
    var todo, done := changed, {};
    ghost var rank: map<string, nat>, round := map[], 0;
    while todo != {}
      invariant todo <= changed && Searching(g, [], {}, done, rank, round)
      invariant forall n | n in changed - todo :: n in done || ViewOf(before, n) == ViewOf(draft, n)
    {
      var name :| name in todo;
      todo := todo - {name};
      if ViewOf(before, name) != ViewOf(draft, name) {
        blamed, done, rank, round := Explore(draft, g, name, done, universe, rank, round);
        if blamed != {} { return; }
      }
    }
    NoNewCycle(before, draft, done, rank);
    blamed := {};
  }
}
