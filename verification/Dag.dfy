/** Dependency graphs and Kahn's algorithm (internal/domain/workflow.go `validateWorkflowDAG`).
    `g[i]` lists the indices of the steps that step `i` depends on. */
module Dag {
  import opened Basics

  type Graph = seq<seq<nat>>

  predicate Closed(g: Graph) {
    forall i, k :: 0 <= i < |g| && 0 <= k < |g[i]| ==> g[i][k] < |g|
  }

  predicate Distinct(s: seq<nat>) {
    forall i, j :: 0 <= i < j < |s| ==> s[i] != s[j]
  }

  /** `order` lists every step once, each after all its dependencies. */
  predicate TopologicalOrder(g: Graph, order: seq<nat>) {
    && (forall i :: 0 <= i < |order| ==> order[i] < |g|)
    && Distinct(order)
    && (forall i :: 0 <= i < |g| ==> i in order)
    && DependenciesFirst(g, order)
  }

  predicate DependenciesFirst(g: Graph, order: seq<nat>)
    requires forall i :: 0 <= i < |order| ==> order[i] < |g|
  {
    forall i :: 0 <= i < |order| ==> forall d :: d in g[order[i]] ==> d in order[..i]
  }

  ghost predicate Acyclic(g: Graph) {
    exists order: seq<nat> :: TopologicalOrder(g, order)
  }

  /** A closed walk: every node depends on the next one, and the last is the first. */
  predicate Cycle(g: Graph, p: seq<nat>) {
    && |p| >= 2
    && (forall i :: 0 <= i < |p| ==> p[i] < |g|)
    && (forall i :: 0 <= i < |p| - 1 ==> p[i + 1] in g[p[i]])
    && p[0] == p[|p| - 1]
  }

  // ----- an order and a cycle exclude each other ------------------------------------------------

  function Position(order: seq<nat>, x: nat): (k: nat)
    requires x in order
    ensures k < |order| && order[k] == x
  {
    if order[0] == x then 0 else 1 + Position(order[1..], x)
  }

  lemma DependencyEarlier(g: Graph, order: seq<nat>, x: nat, d: nat)
    requires TopologicalOrder(g, order) && x < |g| && d in g[x]
    ensures d in order && x in order && Position(order, d) < Position(order, x)
  {
    var k := Position(order, x);
    assert d in order[..k];
    var j :| 0 <= j < k && order[j] == d;
    var m := Position(order, d);
    assert order[m] == order[j];
  }

  lemma {:induction false} WalkDescends(g: Graph, order: seq<nat>, p: seq<nat>)
    requires TopologicalOrder(g, order) && |p| >= 2
    requires forall i :: 0 <= i < |p| ==> p[i] < |g|
    requires forall i :: 0 <= i < |p| - 1 ==> p[i + 1] in g[p[i]]
    ensures Position(order, p[|p| - 1]) < Position(order, p[0])
    decreases |p|
  {
    var n := |p|;
    DependencyEarlier(g, order, p[n - 2], p[n - 1]);
    if n > 2 {
      WalkDescends(g, order, p[..n - 1]);
    }
  }

  /** A graph with a topological order has no cycle. */
  lemma OrderExcludesCycle(g: Graph, order: seq<nat>, p: seq<nat>)
    requires TopologicalOrder(g, order)
    ensures !Cycle(g, p)
  {
    if Cycle(g, p) {
      WalkDescends(g, order, p);
    }
  }

  // ----- counting the dependencies still missing -------------------------------------------------

  function Missing(deps: seq<nat>, done: set<nat>): (n: nat)
    ensures n == 0 <==> forall d :: d in deps ==> d in done
  {
    if deps == [] then 0
    else (if deps[0] in done then 0 else 1) + Missing(deps[1..], done)
  }

  function FirstMissing(deps: seq<nat>, done: set<nat>): (d: nat)
    requires Missing(deps, done) > 0
    ensures d in deps && d !in done
  {
    if deps[0] !in done then deps[0] else FirstMissing(deps[1..], done)
  }

  function Occurs(s: seq<nat>, x: nat): nat {
    if s == [] then 0 else (if s[0] == x then 1 else 0) + Occurs(s[1..], x)
  }

  lemma {:induction false} OccursConcat(s: seq<nat>, t: seq<nat>, x: nat)
    ensures Occurs(s + t, x) == Occurs(s, x) + Occurs(t, x)
  {
    if s == [] {
      assert s + t == t;
    } else {
      assert (s + t)[1..] == s[1..] + t;
      OccursConcat(s[1..], t, x);
    }
  }

  lemma {:induction false} MissingNothingDone(deps: seq<nat>)
    ensures Missing(deps, {}) == |deps|
  {
    if deps == [] {
    } else {
      MissingNothingDone(deps[1..]);
    }
  }

  lemma {:induction false} MissingAfter(deps: seq<nat>, done: set<nat>, x: nat)
    requires x !in done
    ensures Missing(deps, done) == Missing(deps, done + {x}) + Occurs(deps, x)
  {
    if deps == [] {
    } else {
      MissingAfter(deps[1..], done, x);
    }
  }

  function Visited(s: seq<nat>): set<nat> {
    set x | x in s
  }

  // ----- a set of steps that all wait for each other contains a cycle ---------------------------

  /** `x` is a step outside `done` (the steps Kahn's loop has visited). */
  predicate Open(g: Graph, done: set<nat>, x: nat) {
    x < |g| && x !in done
  }

  predicate DependsOn(g: Graph, x: nat, d: nat) {
    x < |g| && d in g[x]
  }

  ghost predicate AllBlocked(g: Graph, done: set<nat>) {
    forall x: nat | Open(g, done, x) :: Missing(g[x], done) > 0
  }

  predicate OpenWalk(g: Graph, done: set<nat>, p: seq<nat>) {
    && (forall i :: 0 <= i < |p| ==> Open(g, done, p[i]))
    && (forall i :: 0 < i < |p| ==> DependsOn(g, p[i - 1], p[i]))
  }

  lemma {:induction false} LongWalk(g: Graph, done: set<nat>, start: nat, n: nat) returns (p: seq<nat>)
    requires Closed(g) && AllBlocked(g, done) && Open(g, done, start)
    ensures |p| == n + 1 && OpenWalk(g, done, p)
  {
    if n == 0 {
      p := [start];
    } else {
      var q := LongWalk(g, done, start, n - 1);
      assert Open(g, done, q[n - 1]);
      p := q + [FirstMissing(g[q[n - 1]], done)];
    }
  }

  /** By the pigeonhole principle a walk longer than the graph revisits a step. */
  lemma BlockedHasCycle(g: Graph, done: set<nat>, start: nat)
    requires Closed(g) && AllBlocked(g, done) && Open(g, done, start)
    ensures exists p :: Cycle(g, p)
  {
    var walk := LongWalk(g, done, start, |g|);
    var i, j := Revisited(walk, |g|);
    CycleInWalk(g, done, walk, i, j);
  }

  lemma Revisited(s: seq<nat>, n: nat) returns (i: nat, j: nat)
    requires |s| > n && forall k :: 0 <= k < |s| ==> s[k] < n
    ensures i < j < |s| && s[i] == s[j]
  {
    if Distinct(s) {
      DistinctBelow(s, n);
      assert false;
    }
    i, j :| 0 <= i < j < |s| && s[i] == s[j];
  }

  lemma CycleInWalk(g: Graph, done: set<nat>, walk: seq<nat>, i: nat, j: nat)
    requires OpenWalk(g, done, walk) && i < j < |walk| && walk[i] == walk[j]
    ensures Cycle(g, walk[i..j + 1])
  {
    var p := walk[i..j + 1];
    forall k | 0 <= k < |p|
      ensures p[k] < |g|
    {
      assert Open(g, done, walk[i + k]);
    }
    forall k | 0 <= k < |p| - 1
      ensures p[k + 1] in g[p[k]]
    {
      assert DependsOn(g, walk[i + k + 1 - 1], walk[i + k + 1]);
    }
  }

  // ----- the reverse adjacency lists ---------------------------------------------------------------

  /** Step `i` once for each time `p` occurs among `deps`. */
  function Copies(i: nat, deps: seq<nat>, p: nat): seq<nat> {
    if deps == [] then [] else (if deps[0] == p then [i] else []) + Copies(i, deps[1..], p)
  }

  /** The dependents of `p` among the first `n` steps. */
  function DependentsOf(g: Graph, p: nat, n: nat): seq<nat>
    requires n <= |g|
  {
    if n == 0 then [] else DependentsOf(g, p, n - 1) + Copies(n - 1, g[n - 1], p)
  }

  lemma {:induction false} CopiesOccur(i: nat, deps: seq<nat>, p: nat, x: nat)
    ensures Occurs(Copies(i, deps, p), x) == if x == i then Occurs(deps, p) else 0
    ensures forall k :: 0 <= k < |Copies(i, deps, p)| ==> Copies(i, deps, p)[k] == i
  {
    if deps == [] {
    } else {
      CopiesOccur(i, deps[1..], p, x);
      OccursConcat(if deps[0] == p then [i] else [], Copies(i, deps[1..], p), x);
    }
  }

  lemma {:induction false} DependentsOccur(g: Graph, p: nat, n: nat, x: nat)
    requires n <= |g|
    ensures Occurs(DependentsOf(g, p, n), x) == if x < n then Occurs(g[x], p) else 0
  {
    if n == 0 {
    } else {
      DependentsOccur(g, p, n - 1, x);
      CopiesOccur(n - 1, g[n - 1], p, x);
      OccursConcat(DependentsOf(g, p, n - 1), Copies(n - 1, g[n - 1], p), x);
    }
  }

  lemma {:induction false} DependentsBelow(g: Graph, p: nat, n: nat)
    requires n <= |g|
    ensures forall k :: 0 <= k < |DependentsOf(g, p, n)| ==> DependentsOf(g, p, n)[k] < n
  {
    if n == 0 {
    } else {
      DependentsBelow(g, p, n - 1);
      CopiesOccur(n - 1, g[n - 1], p, 0);
    }
  }

  // ----- the algorithm ---------------------------------------------------------------------------

  /** The body of the first loop for step `i`: append it to the list of each of its dependencies. */
  method AddDependent(g: Graph, i: nat, dependents: array<seq<nat>>)
    requires Closed(g) && i < |g| && dependents.Length == |g|
    modifies dependents
    ensures forall p: nat :: p < |g| ==> dependents[p] == old(dependents[p]) + Copies(i, g[i], p)
  {
    assert g[i][0..] == g[i];
    for k := 0 to |g[i]|
      invariant forall p: nat :: p < |g| ==> dependents[p] + Copies(i, g[i][k..], p) == old(dependents[p]) + Copies(i, g[i], p)
    {
      var parent := g[i][k];
      assert g[i][k..][1..] == g[i][k + 1..];
      forall p: nat | p < |g|
        ensures Copies(i, g[i][k..], p) == (if p == parent then [i] else []) + Copies(i, g[i][k + 1..], p)
      {
      }
      dependents[parent] := dependents[parent] + [i];
    }
    assert g[i][|g[i]|..] == [];
  }

  /** The first loop: in-degrees, and for each step the list of its dependents. */
  method CountDependents(g: Graph) returns (indegree: array<int>, dependents: array<seq<nat>>)
    requires Closed(g)
    ensures fresh(indegree) && fresh(dependents)
    ensures indegree.Length == |g| && dependents.Length == |g|
    ensures forall i :: 0 <= i < |g| ==> indegree[i] == |g[i]|
    ensures forall p: nat :: p < |g| ==> dependents[p] == DependentsOf(g, p, |g|)
  {
    indegree := new int[|g|](_ => 0);
    dependents := new seq<nat>[|g|](_ => []);
    for i := 0 to |g|
      invariant forall x :: 0 <= x < i ==> indegree[x] == |g[x]|
      invariant forall p: nat :: p < |g| ==> dependents[p] == DependentsOf(g, p, i)
    {
      indegree[i] := |g[i]|;
      AddDependent(g, i, dependents);
    }
  }

  /** Kahn's loop seen from outside: the steps taken from the queue and those waiting in it. */
  ghost predicate Progress(g: Graph, indegree: seq<int>, done: seq<nat>, queue: seq<nat>)
    requires |indegree| == |g|
  {
    var all := done + queue;
    && (forall i :: 0 <= i < |all| ==> all[i] < |g|)
    && Distinct(all)
    && DependenciesFirst(g, all)
    && (forall x: nat :: x < |g| ==> (x in all <==> indegree[x] == 0))
  }

  lemma EnqueueReady(g: Graph, indegree: seq<int>, done: seq<nat>, queue: seq<nat>, x: nat)
    requires |indegree| == |g| && Progress(g, indegree, done, queue)
    requires x < |g| && indegree[x] == 1
    requires forall d :: d in g[x] ==> d in done
    ensures Progress(g, indegree[x := 0], done, queue + [x])
  {
    var all := done + queue;
    assert done + (queue + [x]) == all + [x];
    assert x !in all;
    AppendReady(g, all, x);
  }

  lemma AppendReady(g: Graph, all: seq<nat>, x: nat)
    requires (forall i :: 0 <= i < |all| ==> all[i] < |g|) && DependenciesFirst(g, all)
    requires x < |g| && forall d :: d in g[x] ==> d in all
    ensures DependenciesFirst(g, all + [x])
  {
    var more := all + [x];
    forall i | 0 <= i < |more|
      ensures forall d :: d in g[more[i]] ==> d in more[..i]
    {
      assert more[..i] == all[..i];
      if i == |all| {
        assert all[..i] == all;
      }
    }
  }

  lemma LowerKeepsProgress(g: Graph, indegree: seq<int>, done: seq<nat>, queue: seq<nat>, x: nat)
    requires |indegree| == |g| && Progress(g, indegree, done, queue)
    requires x < |g| && indegree[x] > 1
    ensures Progress(g, indegree[x := indegree[x] - 1], done, queue)
  {
  }

  /** The second loop. `accepted` says that every step was visited. */
  method Drain(g: Graph, indegree: array<int>, dependents: array<seq<nat>>) returns (accepted: bool, ghost done: seq<nat>)
    requires Closed(g)
    requires indegree.Length == |g| && dependents.Length == |g|
    requires forall i :: 0 <= i < |g| ==> indegree[i] == |g[i]|
    requires forall p: nat :: p < |g| ==> dependents[p] == DependentsOf(g, p, |g|)
    modifies indegree
    ensures Progress(g, indegree[..], done, [])
    ensures forall x: nat :: x < |g| ==> indegree[x] == Missing(g[x], Visited(done))
    ensures accepted <==> |done| == |g|
  {
    done := [];
    var queue := InitialQueue(g, indegree);
    var visited := 0;
    forall x: nat | x < |g|
      ensures indegree[x] == Missing(g[x], Visited(done))
    {
      MissingNothingDone(g[x]);
      assert Visited(done) == {};
    }
    while |queue| > 0
      invariant Progress(g, indegree[..], done, queue)
      invariant forall x: nat :: x < |g| ==> indegree[x] == Missing(g[x], Visited(done))
      invariant visited == |done| <= |g|
      decreases |g| - |done|
    {
      var current := queue[0];
      ProgressPop(g, indegree[..], done, queue);
      queue := Release(g, current, done, queue[1..], indegree, dependents);
      visited := visited + 1;
      done := done + [current];
      ProgressBounded(g, indegree[..], done, queue);
    }
    accepted := visited == |g|;
  }

  lemma ProgressPop(g: Graph, indegree: seq<int>, done: seq<nat>, queue: seq<nat>)
    requires |indegree| == |g| && |queue| > 0 && Progress(g, indegree, done, queue)
    ensures Progress(g, indegree, done + [queue[0]], queue[1..]) && queue[0] !in done && queue[0] < |g|
  {
    assert done + [queue[0]] + queue[1..] == done + queue;
    assert (done + queue)[|done|] == queue[0];
    assert forall k :: 0 <= k < |done| ==> (done + queue)[k] == done[k];
  }

  lemma ProgressBounded(g: Graph, indegree: seq<int>, done: seq<nat>, queue: seq<nat>)
    requires |indegree| == |g| && Progress(g, indegree, done, queue)
    ensures |done| + |queue| <= |g|
  {
    DistinctBelow(done + queue, |g|);
  }

  method InitialQueue(g: Graph, indegree: array<int>) returns (queue: seq<nat>)
    requires indegree.Length == |g| && forall i :: 0 <= i < |g| ==> indegree[i] == |g[i]|
    ensures Progress(g, indegree[..], [], queue)
  {
    queue := [];
    for i := 0 to |g|
      invariant forall k :: 0 <= k < |queue| ==> queue[k] < i && g[queue[k]] == []
      invariant Distinct(queue)
      invariant forall x: nat :: x < i ==> (x in queue <==> indegree[x] == 0)
    {
      if indegree[i] == 0 {
        queue := queue + [i];
      }
    }
    InitialProgress(g, indegree[..], queue);
  }

  lemma InitialProgress(g: Graph, indegree: seq<int>, queue: seq<nat>)
    requires |indegree| == |g| && Distinct(queue) && forall k :: 0 <= k < |queue| ==> queue[k] < |g| && g[queue[k]] == []
    requires forall x: nat :: x < |g| ==> (x in queue <==> indegree[x] == 0)
    ensures Progress(g, indegree, [], queue)
  {
    assert [] + queue == queue;
  }

  /** Mid-way through the inner loop: what the in-degrees still have to lose is in `rest`. */
  ghost predicate Releasing(g: Graph, indegree: seq<int>, done: set<nat>, rest: seq<nat>)
    requires |indegree| == |g|
  {
    forall x: nat :: x < |g| ==> indegree[x] == Missing(g[x], done) + Occurs(rest, x)
  }

  /** The inner loop: lower the in-degree of every dependent and enqueue those that reach zero. */
  method Release(g: Graph, current: nat, ghost done: seq<nat>, waiting: seq<nat>, indegree: array<int>, dependents: array<seq<nat>>)
    returns (queue: seq<nat>)
    requires Closed(g) && current < |g| && current !in done
    requires indegree.Length == |g| && dependents.Length == |g|
    requires dependents[current] == DependentsOf(g, current, |g|)
    requires Progress(g, indegree[..], done + [current], waiting)
    requires forall x: nat :: x < |g| ==> indegree[x] == Missing(g[x], Visited(done))
    modifies indegree
    ensures Progress(g, indegree[..], done + [current], queue)
    ensures forall x: nat :: x < |g| ==> indegree[x] == Missing(g[x], Visited(done + [current]))
  {
    queue := waiting;
    var list := dependents[current];
    ghost var now := done + [current];
    ReleaseStarts(g, indegree[..], done, current);
    for k := 0 to |list|
      invariant Progress(g, indegree[..], now, queue)
      invariant Releasing(g, indegree[..], Visited(now), list[k..])
    {
      queue := Lower(g, now, queue, indegree, list[k], list[k..]);
      assert list[k..][1..] == list[k + 1..];
    }
    assert list[|list|..] == [];
    Released(g, indegree[..], Visited(now));
  }

  /** The body of the inner loop. */
  method Lower(g: Graph, ghost done: seq<nat>, waiting: seq<nat>, indegree: array<int>, dependent: nat, ghost rest: seq<nat>)
    returns (queue: seq<nat>)
    requires indegree.Length == |g| && |rest| > 0 && rest[0] == dependent < |g|
    requires Progress(g, indegree[..], done, waiting) && Releasing(g, indegree[..], Visited(done), rest)
    modifies indegree
    ensures Progress(g, indegree[..], done, queue) && Releasing(g, indegree[..], Visited(done), rest[1..])
  {
    ghost var before := indegree[..];
    ReleaseOne(g, before, done, waiting, rest);
    indegree[dependent] := indegree[dependent] - 1;
    assert indegree[..] == before[dependent := before[dependent] - 1];
    queue := if indegree[dependent] == 0 then waiting + [dependent] else waiting;
  }

  lemma Released(g: Graph, indegree: seq<int>, done: set<nat>)
    requires |indegree| == |g| && Releasing(g, indegree, done, [])
    ensures forall x: nat :: x < |g| ==> indegree[x] == Missing(g[x], done)
  {
    assert forall x: nat :: Occurs([], x) == 0;
  }

  lemma ReleaseStarts(g: Graph, indegree: seq<int>, done: seq<nat>, current: nat)
    requires |indegree| == |g| && current < |g| && current !in done
    requires forall x: nat :: x < |g| ==> indegree[x] == Missing(g[x], Visited(done))
    ensures Releasing(g, indegree, Visited(done + [current]), DependentsOf(g, current, |g|))
    ensures forall k :: 0 <= k < |DependentsOf(g, current, |g|)| ==> DependentsOf(g, current, |g|)[k] < |g|
  {
    assert Visited(done + [current]) == Visited(done) + {current};
    DependentsBelow(g, current, |g|);
    forall x: nat | x < |g|
      ensures indegree[x] == Missing(g[x], Visited(done + [current])) + Occurs(DependentsOf(g, current, |g|), x)
    {
      MissingAfter(g[x], Visited(done), current);
      DependentsOccur(g, current, |g|, x);
    }
  }

  /** One dependent loses one unit: the invariants carry over, and zero means it became ready. */
  lemma ReleaseOne(g: Graph, indegree: seq<int>, done: seq<nat>, queue: seq<nat>, rest: seq<nat>)
    requires |indegree| == |g| && |rest| > 0 && rest[0] < |g|
    requires Progress(g, indegree, done, queue) && Releasing(g, indegree, Visited(done), rest)
    ensures var x := rest[0];
            && indegree[x] >= 1
            && Releasing(g, indegree[x := indegree[x] - 1], Visited(done), rest[1..])
            && Progress(g, indegree[x := indegree[x] - 1], done, if indegree[x] == 1 then queue + [x] else queue)
  {
    var x := rest[0];
    assert Occurs(rest, x) == 1 + Occurs(rest[1..], x);
    if indegree[x] == 1 {
      assert Missing(g[x], Visited(done)) == 0;
      EnqueueReady(g, indegree, done, queue, x);
    } else {
      LowerKeepsProgress(g, indegree, done, queue, x);
    }
  }

  /** `validateWorkflowDAG` accepts exactly the acyclic graphs: acceptance comes with a topological
      order, rejection with a cycle, and no graph has both. */
  method Validate(g: Graph) returns (accepted: bool)
    requires Closed(g)
    ensures accepted <==> Acyclic(g)
    ensures accepted <==> !exists p :: Cycle(g, p)
  {
    var indegree, dependents := CountDependents(g);
    ghost var done;
    accepted, done := Drain(g, indegree, dependents);
    if accepted {
      CompleteOrder(g, indegree[..], done);
      forall p
        ensures !Cycle(g, p)
      {
        OrderExcludesCycle(g, done, p);
      }
    } else {
      var x := Unvisited(g, indegree[..], done);
      BlockedHasCycle(g, Visited(done), x);
      var p :| Cycle(g, p);
      forall order: seq<nat>
        ensures !TopologicalOrder(g, order)
      {
        if TopologicalOrder(g, order) {
          OrderExcludesCycle(g, order, p);
        }
      }
    }
  }

  lemma CompleteOrder(g: Graph, indegree: seq<int>, done: seq<nat>)
    requires |indegree| == |g| && Progress(g, indegree, done, []) && |done| == |g|
    ensures TopologicalOrder(g, done)
  {
    assert done + [] == done;
    forall i: nat | i < |g|
      ensures i in done
    {
      if i !in done {
        DistinctBelow(done + [i], |g|);
      }
    }
  }

  lemma Unvisited(g: Graph, indegree: seq<int>, done: seq<nat>) returns (x: nat)
    requires |indegree| == |g| && Progress(g, indegree, done, []) && |done| != |g|
    requires forall x: nat :: x < |g| ==> indegree[x] == Missing(g[x], Visited(done))
    ensures Open(g, Visited(done), x) && AllBlocked(g, Visited(done))
  {
    assert done + [] == done;
    ProgressBounded(g, indegree, done, []);
    if forall i: nat :: i < |g| ==> i in done {
      CoversAtLeast(done, |g|);
    }
    x :| x < |g| && x !in done;
  }

  lemma {:induction false} CoversAtLeast(s: seq<nat>, n: nat)
    requires forall i: nat :: i < n ==> i in s
    ensures |s| >= n
  {
    if n == 0 {
    } else {
      assert (n - 1) as nat in s;
      var k :| 0 <= k < |s| && s[k] == n - 1;
      var t := s[..k] + s[k + 1..];
      forall i: nat | i < n - 1
        ensures i in t
      {
        assert i in s;
        var j :| 0 <= j < |s| && s[j] == i;
        assert t[if j < k then j else j - 1] == i;
      }
      CoversAtLeast(t, n - 1);
    }
  }
}
