/** Counting active steps, ranks and changes, and the order in which steps become ready. */
module SchedulerCounting {
  import opened Basics
  import opened Workflows
  import opened Manager
  import opened Scheduler
  import Dag

  // ----- active steps --------------------------------------------------------------------------------

  lemma {:induction false} FewerActive(b: seq<StepState>, d: seq<StepState>)
    requires |b| == |d| && forall i :: 0 <= i < |d| && Active(d[i].status) ==> Active(b[i].status)
    ensures ActiveCount(d) <= ActiveCount(b)
  {
    if b == [] {
    } else {
      FewerActive(b[1..], d[1..]);
    }
  }

  lemma {:induction false} OneMoreActive(b: seq<StepState>, d: seq<StepState>, k: nat)
    requires |b| == |d| && k < |d| && forall i :: 0 <= i < |d| && i != k && Active(d[i].status) ==> Active(b[i].status)
    ensures ActiveCount(d) <= ActiveCount(b) + 1
  {
    if k == 0 {
      FewerActive(b[1..], d[1..]);
    } else {
      OneMoreActive(b[1..], d[1..], k - 1);
    }
  }

  lemma {:induction false} NoneActive(d: seq<StepState>)
    ensures ActiveCount(d) == 0 <==> forall i :: 0 <= i < |d| ==> !Active(d[i].status)
  {
    if d == [] {
    } else {
      NoneActive(d[1..]);
    }
  }

  // ----- the termination measure -----------------------------------------------------------------------

  /** A status change a scheduler write may make: down in rank, or the observed recovery of a run. */
  predicate StepMoves(b: StepState, d: StepState) {
    d.status == b.status || Regresses(b, d) || StepRank(d.status) < StepRank(b.status)
  }

  function Changes(b: seq<StepState>, d: seq<StepState>): nat
    requires |b| == |d|
  {
    if b == [] then 0 else (if b[0].status != d[0].status then 1 else 0) + Changes(b[1..], d[1..])
  }

  lemma {:induction false} RankDrops(b: seq<StepState>, d: seq<StepState>)
    requires |b| == |d| && forall i :: 0 <= i < |b| ==> StepMoves(b[i], d[i])
    ensures Rank(d) + Changes(b, d) <= Rank(b) + 2 * Regressions(b, d)
  {
    if b == [] {
    } else {
      assert StepMoves(b[0], d[0]);
      RankDrops(b[1..], d[1..]);
    }
  }

  predicate Differ(b: seq<StepState>, d: seq<StepState>)
    requires |b| == |d|
  {
    exists i :: 0 <= i < |b| && b[i].status != d[i].status
  }

  lemma {:induction false} DifferCounts(b: seq<StepState>, d: seq<StepState>)
    requires |b| == |d| && Differ(b, d)
    ensures Changes(b, d) >= 1
  {
    var i :| 0 <= i < |b| && b[i].status != d[i].status;
    if i > 0 {
      assert b[1..][i - 1].status != d[1..][i - 1].status;
      DifferCounts(b[1..], d[1..]);
    }
  }

  lemma {:induction false} FreshRank(steps: seq<StepState>)
    requires forall i :: 0 <= i < |steps| ==> steps[i].status.StepPending?
    ensures Rank(steps) == 3 * |steps| && ActiveCount(steps) == 0
  {
    if steps == [] {
    } else {
      FreshRank(steps[1..]);
    }
  }

  lemma {:induction false} RankOfFinished(steps: seq<StepState>)
    requires forall i :: 0 <= i < |steps| ==> !Unfinished(steps[i].status)
    ensures Rank(steps) == 0
  {
    if steps == [] {
    } else {
      RankOfFinished(steps[1..]);
    }
  }

  // ----- progress: acyclicity makes some step ready ----------------------------------------------------

  /** When nothing is active and nothing failed, following unfinished dependencies from a pending
      step down the topological order ends at a ready one. */
  lemma {:induction false} ReadyBelow(w: Workflow, order: seq<nat>, p: nat) returns (r: nat)
    requires Shaped(w) && Runnable(w.def) && Dag.TopologicalOrder(GraphOf(w.def.steps), order)
    requires forall i :: 0 <= i < |w.steps| ==> w.steps[i].status.StepPending? || Done(w.steps[i].status)
    requires p < |w.steps| && w.steps[p].status.StepPending?
    ensures r < |w.steps| && w.steps[r].status.StepPending? && DepsDone(w, r)
    decreases Dag.Position(order, p)
  {
    if DepsDone(w, p) {
      r := p;
    } else {
      var g := GraphOf(w.def.steps);
      var d :| d in w.def.steps[p].dependsOn && !RefDone(w, d);
      var m :| 0 <= m < |w.def.steps[p].dependsOn| && w.def.steps[p].dependsOn[m] == d;
      assert g[p][m] == Find(w.def.steps, d);
      var k: nat := Find(w.def.steps, d);
      Dag.DependencyEarlier(g, order, p, k);
      r := ReadyBelow(w, order, k);
    }
  }

  /** The "no workflow step is ready" branch needs a state no acyclic definition reaches. */
  lemma SomeStepReady(w: Workflow)
    requires Shaped(w) && Runnable(w.def)
    requires forall i :: 0 <= i < |w.steps| ==> !w.steps[i].status.StepFailed? && !w.steps[i].status.StepCanceled?
    requires ActiveCount(w.steps) == 0
    requires exists i :: 0 <= i < |w.steps| && !Done(w.steps[i].status)
    ensures ReadyStep(w) >= 0
  {
    NoneActive(w.steps);
    var p :| 0 <= p < |w.steps| && !Done(w.steps[p].status);
    var order: seq<nat> :| Dag.TopologicalOrder(GraphOf(w.def.steps), order);
    var r := ReadyBelow(w, order, p);
  }

  /** The `resolveInput` error branches need a step whose dependencies are not all finished. */
  lemma InputResolves(w: Workflow, i: nat, marshal: Marshal)
    requires Shaped(w) && Runnable(w.def) && i < |w.steps| && DepsDone(w, i)
    ensures ResolveInput(w, i, marshal) == Ok((InputFor(w, i, marshal), FirstRunId(w, w.def.steps[i].dependsOn)))
  {
    var s := w.def.steps[i];
    assert StepRunnable(w.def, s);
    forall source <- s.inputFrom
      ensures source == WORKFLOW_INPUT || RefDone(w, source)
    {
    }
  }
}
