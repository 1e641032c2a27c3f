/** A reference evaluator for workflow definitions, and the proof that every workflow run that
    succeeds computes what it computes: scheduling order, limits, managers and takeovers do not
    show in the result. */
module Evaluator {
  import opened Workflows
  import opened Manager
  import opened Scheduler
  import opened SchedulerInvariant
  import opened SchedulerSafety
  import opened SchedulerTheorems
  import Dag

  datatype StepResult = StepResult(skipped: bool, input: string, output: string)

  /** What the agent of a step answers to an input. */
  type Answers = (string, string) -> string

  const UNKNOWN := StepResult(false, "", "")

  function TextOf(def: Definition, rs: seq<StepResult>, source: string): string
    requires |rs| == |def.steps|
  {
    if source == WORKFLOW_INPUT then def.input
    else
      var k := Find(def.steps, source);
      if k < 0 then "" else rs[k].output
  }

  /** One step, given the results of the steps it refers to. */
  function EvalStep(def: Definition, rs: seq<StepResult>, i: nat, answers: Answers, marshal: Marshal): StepResult
    requires |rs| == |def.steps| && i < |def.steps|
  {
    var s := def.steps[i];
    if s.condition.Some? && !EvaluateCondition(TextOf(def, rs, s.condition.value.source), s.condition.value)
    then StepResult(true, "", "")
    else
      var input :=
        if s.inputFrom == [] then s.input
        else if |s.inputFrom| == 1 then TextOf(def, rs, s.inputFrom[0])
        else marshal(seq(|s.inputFrom|, k requires 0 <= k < |s.inputFrom| => TextOf(def, rs, s.inputFrom[k])));
      StepResult(false, input, answers(s.id, input))
  }

  /** One step at a time along a given order. */
  function Evaluate(def: Definition, order: seq<nat>, answers: Answers, marshal: Marshal): (rs: seq<StepResult>)
    requires forall i :: 0 <= i < |order| ==> order[i] < |def.steps|
    ensures |rs| == |def.steps|
    decreases |order|
  {
    if order == [] then seq(|def.steps|, _ => UNKNOWN)
    else
      var n := |order| - 1;
      var before := Evaluate(def, order[..n], answers, marshal);
      before[order[n] := EvalStep(def, before, order[n], answers, marshal)]
  }

  /** Results that explain each other. */
  ghost predicate Solution(def: Definition, rs: seq<StepResult>, answers: Answers, marshal: Marshal) {
    |rs| == |def.steps| && forall i: nat :: i < |rs| ==> rs[i] == EvalStep(def, rs, i, answers, marshal)
  }

  predicate AgreeOn(rs: seq<StepResult>, ts: seq<StepResult>, ks: seq<nat>) {
    |rs| == |ts| && forall k <- ks :: k < |rs| ==> rs[k] == ts[k]
  }

  /** A step's result depends only on the results of its dependencies. */
  lemma EvalStepLocal(def: Definition, rs: seq<StepResult>, ts: seq<StepResult>, i: nat, answers: Answers, marshal: Marshal)
    requires Runnable(def) && |rs| == |ts| == |def.steps| && i < |rs|
    requires AgreeOn(rs, ts, GraphOf(def.steps)[i])
    ensures EvalStep(def, rs, i, answers, marshal) == EvalStep(def, ts, i, answers, marshal)
  {
    var s := def.steps[i];
    assert StepRunnable(def, s);
    forall source | source == WORKFLOW_INPUT || source in s.dependsOn
      ensures TextOf(def, rs, source) == TextOf(def, ts, source)
    {
      DependencyTextAgrees(def, rs, ts, i, source);
    }
    forall k | 0 <= k < |s.inputFrom|
      ensures TextOf(def, rs, s.inputFrom[k]) == TextOf(def, ts, s.inputFrom[k])
    {
      assert s.inputFrom[k] in s.inputFrom;
    }
    assert seq(|s.inputFrom|, k requires 0 <= k < |s.inputFrom| => TextOf(def, rs, s.inputFrom[k]))
        == seq(|s.inputFrom|, k requires 0 <= k < |s.inputFrom| => TextOf(def, ts, s.inputFrom[k]));
  }

  lemma DependencyTextAgrees(def: Definition, rs: seq<StepResult>, ts: seq<StepResult>, i: nat, source: string)
    requires Runnable(def) && |rs| == |ts| == |def.steps| && i < |rs|
    requires AgreeOn(rs, ts, GraphOf(def.steps)[i])
    requires source == WORKFLOW_INPUT || source in def.steps[i].dependsOn
    ensures TextOf(def, rs, source) == TextOf(def, ts, source)
  {
    if source != WORKFLOW_INPUT {
      var m :| 0 <= m < |def.steps[i].dependsOn| && def.steps[i].dependsOn[m] == source;
      assert GraphOf(def.steps)[i][m] == Find(def.steps, source);
      assert GraphOf(def.steps)[i][m] in GraphOf(def.steps)[i];
    }
  }

  /** Two solutions agree, by induction along a topological order. */
  lemma {:induction false} SolutionsAgree(def: Definition, rs: seq<StepResult>, ts: seq<StepResult>, order: seq<nat>, i: nat, answers: Answers, marshal: Marshal)
    requires Runnable(def) && Dag.TopologicalOrder(GraphOf(def.steps), order) && i in order
    requires Solution(def, rs, answers, marshal) && Solution(def, ts, answers, marshal)
    ensures i < |def.steps| && rs[i] == ts[i]
    decreases Dag.Position(order, i)
  {
    forall d | d in GraphOf(def.steps)[i]
      ensures d < |def.steps| && rs[d] == ts[d]
    {
      Dag.DependencyEarlier(GraphOf(def.steps), order, i, d);
      SolutionsAgree(def, rs, ts, order, d, answers, marshal);
    }
    SolutionsAgreeAt(def, rs, ts, i, answers, marshal);
  }

  lemma SolutionsAgreeAt(def: Definition, rs: seq<StepResult>, ts: seq<StepResult>, i: nat, answers: Answers, marshal: Marshal)
    requires Runnable(def) && Solution(def, rs, answers, marshal) && Solution(def, ts, answers, marshal)
    requires i < |def.steps| && AgreeOn(rs, ts, GraphOf(def.steps)[i])
    ensures rs[i] == ts[i]
  {
    EvalStepLocal(def, rs, ts, i, answers, marshal);
  }

  /** A definition has at most one solution. */
  lemma SolutionUnique(def: Definition, rs: seq<StepResult>, ts: seq<StepResult>, answers: Answers, marshal: Marshal)
    requires Runnable(def) && Solution(def, rs, answers, marshal) && Solution(def, ts, answers, marshal)
    ensures rs == ts
  {
    var order: seq<nat> :| Dag.TopologicalOrder(GraphOf(def.steps), order);
    forall i: nat | i < |rs|
      ensures rs[i] == ts[i]
    {
      assert i in order;
      SolutionsAgree(def, rs, ts, order, i, answers, marshal);
    }
  }

  /** After `n` steps of the order, those `n` steps have their final results. */
  lemma {:induction false} EvaluatePrefix(def: Definition, order: seq<nat>, n: nat, j: nat, answers: Answers, marshal: Marshal)
    requires Runnable(def) && Dag.TopologicalOrder(GraphOf(def.steps), order) && j < n <= |order|
    ensures var rs := Evaluate(def, order[..n], answers, marshal);
            rs[order[j]] == EvalStep(def, rs, order[j], answers, marshal)
    decreases n
  {
    var before := Evaluate(def, order[..n - 1], answers, marshal);
    var rs := Evaluate(def, order[..n], answers, marshal);
    assert order[..n][..n - 1] == order[..n - 1];
    assert rs == before[order[n - 1] := EvalStep(def, before, order[n - 1], answers, marshal)];
    NotOwnDependency(def, order, n - 1, j);
    EvalStepLocal(def, before, rs, order[j], answers, marshal);
    if j < n - 1 {
      EvaluatePrefix(def, order, n - 1, j, answers, marshal);
    }
  }

  /** No step up to position `n` depends on the step at position `n`. */
  lemma NotOwnDependency(def: Definition, order: seq<nat>, n: nat, j: nat)
    requires Runnable(def) && Dag.TopologicalOrder(GraphOf(def.steps), order) && j <= n < |order|
    ensures order[n] !in GraphOf(def.steps)[order[j]]
  {
    assert order[n] !in order[..j];
    assert forall d :: d in GraphOf(def.steps)[order[j]] ==> d in order[..j];
  }

  /** The reference evaluator computes the solution, whatever topological order it follows. */
  lemma EvaluateSolves(def: Definition, order: seq<nat>, answers: Answers, marshal: Marshal)
    requires Runnable(def) && Dag.TopologicalOrder(GraphOf(def.steps), order)
    ensures Solution(def, Evaluate(def, order, answers, marshal), answers, marshal)
  {
    var rs := Evaluate(def, order, answers, marshal);
    assert order[..|order|] == order;
    forall i: nat | i < |rs|
      ensures rs[i] == EvalStep(def, rs, i, answers, marshal)
    {
      assert i in order;
      var j :| 0 <= j < |order| && order[j] == i;
      EvaluatePrefix(def, order, |order|, j, answers, marshal);
    }
  }

  // ----- what a succeeded workflow computed ------------------------------------------------------------------

  /** The agents behaved as `answers` says: a succeeded run recorded for a step holds the answer to
      the input it was given. */
  ghost predicate AnsweredBy(w: Workflow, runs: map<string, RunView>, answers: Answers) {
    forall i: nat :: i < |w.steps| && i < |w.def.steps| && w.steps[i].runId in runs && runs[w.steps[i].runId].status.Succeeded?
                     ==> runs[w.steps[i].runId].output == answers(w.def.steps[i].id, runs[w.steps[i].runId].input)
  }

  /** Which steps were skipped, and the input and output of those that ran. */
  function Results(w: Workflow, runs: map<string, RunView>): seq<StepResult> {
    seq(|w.steps|, i requires 0 <= i < |w.steps| =>
      if w.steps[i].status.StepSkipped? || w.steps[i].runId !in runs then StepResult(true, "", "")
      else StepResult(false, runs[w.steps[i].runId].input, w.steps[i].output))
  }

  lemma ResultTexts(w: Workflow, runs: map<string, RunView>, source: string)
    requires Shaped(w)
    requires forall i: nat :: i < |w.steps| ==> Results(w, runs)[i].output == w.steps[i].output
    ensures TextOf(w.def, Results(w, runs), source) == SourceText(w, source)
  {
  }

  lemma ResultIsEvalStep(cfg: Config, w: Workflow, e: World, i: nat, answers: Answers)
    requires WfInv(w, e) && Runnable(w.def) && KeysGrounded(w, e, cfg.marshal) && AllDone(w) && i < |w.steps|
    requires AnsweredBy(w, e.runs, answers)
    requires forall j: nat :: j < |w.steps| ==> Results(w, e.runs)[j].output == w.steps[j].output
    ensures Results(w, e.runs)[i] == EvalStep(w.def, Results(w, e.runs), i, answers, cfg.marshal)
  {
    var rs := Results(w, e.runs);
    var s := w.def.steps[i];
    assert StepInv(w, i, e);
    assert StepRunnable(w.def, s);
    forall source: string
      ensures TextOf(w.def, rs, source) == SourceText(w, source)
    {
      ResultTexts(w, e.runs, source);
    }
    ConditionSourceKnown(w, i);
    if w.steps[i].status.StepSucceeded? {
      assert Grounded(w, i, e, cfg.marshal);
      assert SourceTexts(w, s.inputFrom) == seq(|s.inputFrom|, k requires 0 <= k < |s.inputFrom| => TextOf(w.def, rs, s.inputFrom[k]));
    }
  }

  lemma ConditionSourceKnown(w: Workflow, i: nat)
    requires Shaped(w) && Runnable(w.def) && i < |w.steps|
    ensures var c := w.def.steps[i].condition;
            c.Some? ==> c.value.source == WORKFLOW_INPUT || Find(w.def.steps, c.value.source) >= 0
  {
    assert StepRunnable(w.def, w.def.steps[i]);
  }

  /** A reachable workflow that succeeded has the solution of its definition as its results. */
  lemma SuccessIsSolution(cfg: Config, acts: seq<Action>, id: string, answers: Answers)
    requires id in Reached(cfg, acts).workflows && Reached(cfg, acts).workflows[id].status.WfSucceeded?
    requires AnsweredBy(Reached(cfg, acts).workflows[id], Reached(cfg, acts).runs, answers)
    ensures var s := Reached(cfg, acts);
            && Runnable(s.workflows[id].def)
            && Solution(s.workflows[id].def, Results(s.workflows[id], s.runs), answers, cfg.marshal)
  {
    ReachedInv(cfg, acts);
    var s := Reached(cfg, acts);
    var w := s.workflows[id];
    assert StoredOk(cfg, id, w, s.tally[id], Env(s));
    forall j: nat | j < |w.steps|
      ensures Results(w, s.runs)[j].output == w.steps[j].output
    {
      assert StepInv(w, j, Env(s));
    }
    forall i: nat | i < |w.steps|
      ensures Results(w, s.runs)[i] == EvalStep(w.def, Results(w, s.runs), i, answers, cfg.marshal)
    {
      ResultIsEvalStep(cfg, w, Env(s), i, answers);
    }
  }

  /** The scheduler refines the evaluator: in every reachable state, a succeeded workflow has
      exactly the skipped set, step inputs and step outputs of the reference evaluation, along any
      topological order. */
  lemma SchedulerRefinesEvaluator(cfg: Config, acts: seq<Action>, id: string, answers: Answers, order: seq<nat>)
    requires id in Reached(cfg, acts).workflows && Reached(cfg, acts).workflows[id].status.WfSucceeded?
    requires AnsweredBy(Reached(cfg, acts).workflows[id], Reached(cfg, acts).runs, answers)
    requires AllRefsKnown(Reached(cfg, acts).workflows[id].def.steps)
    requires Dag.TopologicalOrder(GraphOf(Reached(cfg, acts).workflows[id].def.steps), order)
    ensures var s := Reached(cfg, acts);
            Results(s.workflows[id], s.runs) == Evaluate(s.workflows[id].def, order, answers, cfg.marshal)
  {
    var s := Reached(cfg, acts);
    var w := s.workflows[id];
    SuccessIsSolution(cfg, acts, id, answers);
    EvaluateSolves(w.def, order, answers, cfg.marshal);
    SolutionUnique(w.def, Results(w, s.runs), Evaluate(w.def, order, answers, cfg.marshal), answers, cfg.marshal);
  }

  /** Two successful executions of one definition, under different limits, managers and
      schedules, agree on every skipped step, input and output. */
  lemma SuccessIsDeterministic(cfg: Config, cfg': Config, acts: seq<Action>, acts': seq<Action>, id: string, id': string, answers: Answers)
    requires cfg.marshal == cfg'.marshal
    requires id in Reached(cfg, acts).workflows && Reached(cfg, acts).workflows[id].status.WfSucceeded?
    requires id' in Reached(cfg', acts').workflows && Reached(cfg', acts').workflows[id'].status.WfSucceeded?
    requires Reached(cfg, acts).workflows[id].def == Reached(cfg', acts').workflows[id'].def
    requires AnsweredBy(Reached(cfg, acts).workflows[id], Reached(cfg, acts).runs, answers)
    requires AnsweredBy(Reached(cfg', acts').workflows[id'], Reached(cfg', acts').runs, answers)
    ensures Results(Reached(cfg, acts).workflows[id], Reached(cfg, acts).runs)
         == Results(Reached(cfg', acts').workflows[id'], Reached(cfg', acts').runs)
  {
    SuccessIsSolution(cfg, acts, id, answers);
    SuccessIsSolution(cfg', acts', id', answers);
    var s, t := Reached(cfg, acts), Reached(cfg', acts');
    SolutionUnique(s.workflows[id].def, Results(s.workflows[id], s.runs), Results(t.workflows[id'], t.runs), answers, cfg.marshal);
  }
}
