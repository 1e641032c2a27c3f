/** The inductive invariant of the scheduler: what holds of every stored workflow, of every draft a
    participant is preparing, and of the key table that binds runs to steps. */
module SchedulerInvariant {
  import opened Workflows
  import opened Manager
  import opened StepKeys
  import opened Scheduler

  /** The runs and the key table, which only grow. */
  datatype World = World(runs: map<string, RunView>, keys: map<string, string>)

  predicate Grows(e: World, f: World) {
    && (forall r <- e.runs :: r in f.runs && Lifecycle(e.runs[r], f.runs[r]))
    && (forall k <- e.keys :: k in f.keys && f.keys[k] == e.keys[k])
  }

  // ----- one workflow record -------------------------------------------------------------------------

  function KeyOf(def: Definition, i: nat): string
    requires i < |def.steps|
  {
    StepKey(def.id, def.steps[i].id)
  }

  predicate Bound(def: Definition, i: nat, rid: string, e: World)
    requires i < |def.steps|
  {
    KeyOf(def, i) in e.keys && e.keys[KeyOf(def, i)] == rid && rid in e.runs
  }

  predicate StepInv(w: Workflow, i: nat, e: World)
    requires Shaped(w) && i < |w.steps|
  {
    var st := w.steps[i];
    && (st.runId != "" ==> Bound(w.def, i, st.runId, e))
    && (st.status.StepPending? || st.status.StepSkipped? ==> st.runId == "")
    && (Active(st.status) || st.status.StepSucceeded? || st.status.StepFailed? ==> st.runId != "")
    && (st.status.StepSucceeded? ==> e.runs[st.runId].status.Succeeded? && st.output == e.runs[st.runId].output)
    && (st.status.StepFailed? ==> e.runs[st.runId].status.Failed? && st.error == e.runs[st.runId].error)
    && (!st.status.StepSucceeded? ==> st.output == "")
    && (!st.status.StepFailed? ==> st.error == "")
    && (st.status.StepSkipped? ==> DepsDone(w, i) && !Keeps(w, i))
  }

  /** How the workflow status constrains the step statuses. */
  predicate StatusInv(w: Workflow) {
    && (w.status.WfPending? ==> forall i :: 0 <= i < |w.steps| ==> w.steps[i].status.StepPending?)
    && (!IsTerminal(w) ==> forall i :: 0 <= i < |w.steps| ==> !w.steps[i].status.StepFailed? && !w.steps[i].status.StepCanceled?)
    && (IsTerminal(w) ==> forall i :: 0 <= i < |w.steps| ==> !Unfinished(w.steps[i].status))
    && (w.status.WfSucceeded? ==> AllDone(w))
    && (w.status.WfFailed? ==> w.error == CREATION_FAILED || exists i :: 0 <= i < |w.steps| && w.steps[i].status.StepFailed?)
    && (|w.steps| == |w.def.steps| ==> Blamed(w))
  }

  /** A failed step has failed the workflow, whose error names it. */
  predicate Blamed(w: Workflow)
    requires Shaped(w)
  {
    forall i :: 0 <= i < |w.steps| && w.steps[i].status.StepFailed? ==>
      w.status.WfFailed? && w.error == FailureText(w.def.steps[i].id, w.steps[i].error)
  }

  predicate AllDone(w: Workflow) {
    forall i :: 0 <= i < |w.steps| ==> Done(w.steps[i].status)
  }

  /** A workflow all of whose steps are done has succeeded, unless a skip completed it: then the
      skip is stored first and the success with the next pass. It has never failed. */
  predicate Settled(w: Workflow) {
    AllDone(w) ==> w.status.WfSucceeded? || (!w.status.WfFailed? && exists i :: 0 <= i < |w.steps| && w.steps[i].status.StepSkipped?)
  }

  ghost predicate StepsInv(w: Workflow, e: World)
    requires Shaped(w)
  {
    forall i: nat :: i < |w.steps| ==> StepInv(w, i, e)
  }

  ghost predicate WfInv(w: Workflow, e: World) {
    Shaped(w) && w.version >= 1 && StatusInv(w) && StepsInv(w, e)
  }

  // ----- how records evolve --------------------------------------------------------------------------

  /** A finished step keeps its result, and a recorded run is never replaced. */
  predicate StepEvolves(a: StepState, b: StepState) {
    && (Done(a.status) ==> b.status == a.status && b.output == a.output && b.runId == a.runId)
    && (a.runId != "" ==> b.runId == a.runId)
  }

  ghost predicate Extends(v: Workflow, w: Workflow) {
    && w.def == v.def && |w.steps| == |v.steps|
    && forall i: nat :: i < |v.steps| ==> StepEvolves(v.steps[i], w.steps[i])
  }

  /** What happens to a stored record over time. */
  ghost predicate Evolves(v: Workflow, w: Workflow) {
    && Extends(v, w) && v.version <= w.version
    && (IsTerminal(v) ==> w == v)
    && (!v.status.WfPending? ==> !w.status.WfPending?)
  }

  lemma ExtendsTransitive(u: Workflow, v: Workflow, w: Workflow)
    requires Extends(u, v) && Extends(v, w)
    ensures Extends(u, w)
  {
    forall i: nat | i < |u.steps|
      ensures StepEvolves(u.steps[i], w.steps[i])
    {
      assert StepEvolves(u.steps[i], v.steps[i]);
      assert StepEvolves(v.steps[i], w.steps[i]);
    }
  }

  // ----- finished dependencies fix everything a step reads ---------------------------------------------

  lemma RefStable(v: Workflow, w: Workflow, id: string)
    requires Shaped(v) && Extends(v, w) && RefDone(v, id)
    ensures RefDone(w, id)
    ensures var k := Find(v.def.steps, id); w.steps[k].output == v.steps[k].output && w.steps[k].runId == v.steps[k].runId
  {
    var k := Find(v.def.steps, id);
    assert StepEvolves(v.steps[k], w.steps[k]);
  }

  lemma DepsStable(v: Workflow, w: Workflow, i: nat)
    requires Shaped(v) && Extends(v, w) && i < |v.steps| && DepsDone(v, i)
    ensures DepsDone(w, i)
  {
    forall d <- w.def.steps[i].dependsOn
      ensures RefDone(w, d)
    {
      assert RefDone(v, d);
      RefStable(v, w, d);
    }
  }

  lemma SourceStable(v: Workflow, w: Workflow, i: nat, source: string)
    requires Shaped(v) && Extends(v, w) && i < |v.steps| && DepsDone(v, i)
    requires source == WORKFLOW_INPUT || source in v.def.steps[i].dependsOn
    ensures SourceText(w, source) == SourceText(v, source)
  {
    if source != WORKFLOW_INPUT {
      assert RefDone(v, source);
      RefStable(v, w, source);
    }
  }

  lemma KeepsStable(v: Workflow, w: Workflow, i: nat)
    requires Shaped(v) && Extends(v, w) && i < |v.steps| && DepsDone(v, i) && StepRunnable(v.def, v.def.steps[i])
    ensures Keeps(w, i) <==> Keeps(v, i)
  {
    var c := v.def.steps[i].condition;
    if c.Some? {
      SourceStable(v, w, i, c.value.source);
    }
  }

  lemma InputStable(v: Workflow, w: Workflow, i: nat, marshal: Marshal)
    requires Shaped(v) && Extends(v, w) && i < |v.steps| && DepsDone(v, i) && StepRunnable(v.def, v.def.steps[i])
    ensures InputFor(w, i, marshal) == InputFor(v, i, marshal)
  {
    var s := v.def.steps[i];
    forall k | 0 <= k < |s.inputFrom|
      ensures SourceText(w, s.inputFrom[k]) == SourceText(v, s.inputFrom[k])
    {
      assert s.inputFrom[k] in s.inputFrom;
      SourceStable(v, w, i, s.inputFrom[k]);
    }
    assert SourceTexts(w, s.inputFrom) == SourceTexts(v, s.inputFrom);
  }

  lemma {:induction false} ParentStable(v: Workflow, w: Workflow, refs: seq<string>)
    requires Shaped(v) && Extends(v, w) && forall d <- refs :: RefDone(v, d)
    ensures FirstRunId(w, refs) == FirstRunId(v, refs)
  {
    if refs == [] {
    } else {
      assert refs[0] in refs;
      RefStable(v, w, refs[0]);
      ParentStable(v, w, refs[1..]);
    }
  }

  // ----- runs bound to steps ---------------------------------------------------------------------------

  /** The run bound to step `i`'s key was created for it: dependencies finished, condition holding,
      and with the input and the parent their results determine. */
  predicate Grounded(w: Workflow, i: nat, e: World, marshal: Marshal)
    requires Shaped(w) && i < |w.steps|
  {
    && KeyOf(w.def, i) in e.keys && e.keys[KeyOf(w.def, i)] in e.runs
    && DepsDone(w, i) && Keeps(w, i)
    && var v := e.runs[e.keys[KeyOf(w.def, i)]];
       v.input == InputFor(w, i, marshal) && v.parent == FirstRunId(w, w.def.steps[i].dependsOn)
  }

  ghost predicate KeysGrounded(w: Workflow, e: World, marshal: Marshal)
    requires Shaped(w)
  {
    forall i: nat :: i < |w.steps| && KeyOf(w.def, i) in e.keys ==> Grounded(w, i, e, marshal)
  }

  lemma GroundedEvolves(v: Workflow, w: Workflow, i: nat, e: World, marshal: Marshal)
    requires Shaped(v) && Extends(v, w) && i < |v.steps| && Runnable(v.def) && Grounded(v, i, e, marshal)
    ensures Grounded(w, i, e, marshal)
  {
    assert StepRunnable(v.def, v.def.steps[i]);
    DepsStable(v, w, i);
    KeepsStable(v, w, i);
    InputStable(v, w, i, marshal);
    ParentStable(v, w, v.def.steps[i].dependsOn);
  }

  // ----- growth of the world -------------------------------------------------------------------------

  lemma WfInvGrows(w: Workflow, e: World, f: World)
    requires WfInv(w, e) && Grows(e, f)
    ensures WfInv(w, f)
  {
    forall i: nat | i < |w.steps|
      ensures StepInv(w, i, f)
    {
      assert StepInv(w, i, e);
    }
  }

  lemma GroundedGrows(w: Workflow, i: nat, e: World, f: World, marshal: Marshal)
    requires Shaped(w) && i < |w.steps| && Grounded(w, i, e, marshal) && Grows(e, f)
    ensures Grounded(w, i, f, marshal)
  {
  }

  /** Replacing one step by a later state keeps the others' invariant. */
  lemma OthersKeepInv(w: Workflow, k: nat, st: StepState, j: nat, e: World)
    requires Shaped(w) && k < |w.steps| && j < |w.steps| && j != k && Runnable(w.def)
    requires StepEvolves(w.steps[k], st) && StepInv(w, j, e)
    ensures StepInv(SetStep(w, k, st), j, e)
  {
    var v := SetStep(w, k, st);
    assert Extends(w, v);
    if w.steps[j].status.StepSkipped? {
      assert StepRunnable(w.def, w.def.steps[j]);
      DepsStable(w, v, j);
      KeepsStable(w, v, j);
    }
  }

  /** Changing only unfinished steps to canceled keeps the step invariant. */
  lemma CancelKeepsInv(w: Workflow, e: World)
    requires Shaped(w) && Runnable(w.def) && StepsInv(w, e)
    ensures var v := w.(steps := CancelUnfinished(w.steps));
            Extends(w, v) && StepsInv(v, e)
  {
    var v := w.(steps := CancelUnfinished(w.steps));
    assert Extends(w, v);
    forall i: nat | i < |v.steps|
      ensures StepInv(v, i, e)
    {
      assert StepInv(w, i, e);
      if w.steps[i].status.StepSkipped? {
        assert StepRunnable(w.def, w.def.steps[i]);
        DepsStable(w, v, i);
        KeepsStable(w, v, i);
      }
    }
  }
}
