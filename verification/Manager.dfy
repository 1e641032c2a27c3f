/** What one scheduler pass computes from a workflow record and the runs it reads
    (internal/workflow/manager.go), and the version compare-and-swap that stores it. */
module Manager {
  import opened Basics
  import opened Runs
  import opened Workflows

  /** The part of a run the scheduler looks at or sets. */
  datatype RunView = RunView(status: RunStatus, parent: string, input: string, output: string, error: string)

  predicate Done(s: StepStatus) {
    s.StepSucceeded? || s.StepSkipped?
  }

  predicate Active(s: StepStatus) {
    s.StepQueued? || s.StepRunning?
  }

  predicate Unfinished(s: StepStatus) {
    s.StepPending? || Active(s)
  }

  predicate Shaped(w: Workflow) {
    |w.steps| == |w.def.steps|
  }

  predicate RefDone(w: Workflow, id: string)
    requires Shaped(w)
  {
    var k := Find(w.def.steps, id);
    k >= 0 && Done(w.steps[k].status)
  }

  predicate DepsDone(w: Workflow, i: nat)
    requires Shaped(w) && i < |w.steps|
  {
    forall d <- w.def.steps[i].dependsOn :: RefDone(w, d)
  }

  /** The text a condition or an input refers to. */
  function SourceText(w: Workflow, source: string): string
    requires Shaped(w)
  {
    if source == WORKFLOW_INPUT then w.def.input
    else
      var k := Find(w.def.steps, source);
      if k < 0 then "" else w.steps[k].output
  }

  // ----- conditions ------------------------------------------------------------------------------

  predicate OccursAt(s: string, sub: string, i: nat) {
    i + |sub| <= |s| && s[i..i + |sub|] == sub
  }

  predicate Occurs(s: string, sub: string) {
    exists i: nat :: i <= |s| && OccursAt(s, sub, i)
  }

  predicate EvaluateCondition(actual: string, c: Condition) {
    if c.operator == EQUALS then actual == c.value
    else if c.operator == NOT_EQUALS then actual != c.value
    else if c.operator == CONTAINS then Occurs(actual, c.value)
    else if c.operator == NOT_CONTAINS then !Occurs(actual, c.value)
    else false
  }

  /** Whatever the source: equality and its negation, occurrence of the value anywhere in the text and its
      negation, and no other operator ever holds. */
  lemma ConditionOperators(actual: string, source: string, value: string, op: string, before: string, after: string)
    ensures EvaluateCondition(actual, Condition(source, "equals", value)) <==> actual == value
    ensures EvaluateCondition(actual, Condition(source, "not-equals", value)) <==> actual != value
    ensures EvaluateCondition(before + value + after, Condition(source, "contains", value))
    ensures EvaluateCondition(actual, Condition(source, "contains", value)) ==>
              exists l: string, r: string :: actual == l + value + r
    ensures EvaluateCondition(actual, Condition(source, "not-contains", value)) <==> !EvaluateCondition(actual, Condition(source, "contains", value))
    ensures op !in {"equals", "not-equals", "contains", "not-contains"} ==> !EvaluateCondition(actual, Condition(source, op, value))
  {
    assert OccursAt(before + value + after, value, |before|);
    if Occurs(actual, value) {
      var i: nat :| i <= |actual| && OccursAt(actual, value, i);
      assert actual == actual[..i] + value + actual[i + |value|..];
    }
  }

  /** The step is not to be skipped: it has no condition, or the condition holds. */
  predicate Keeps(w: Workflow, i: nat)
    requires Shaped(w) && i < |w.steps|
  {
    var c := w.def.steps[i].condition;
    || c.None?
    || (c.value.source != WORKFLOW_INPUT && Find(w.def.steps, c.value.source) < 0)
    || EvaluateCondition(SourceText(w, c.value.source), c.value)
  }

  predicate SkipsNow(w: Workflow, i: nat)
    requires Shaped(w) && i < |w.steps|
  {
    w.steps[i].status.StepPending? && DepsDone(w, i) && !Keeps(w, i)
  }

  function SkipOne(w: Workflow, i: nat): Workflow
    requires Shaped(w) && i < |w.steps|
  {
    if SkipsNow(w, i) then SetStep(w, i, w.steps[i].(status := StepSkipped)) else w
  }

  /** `applyConditions` from step `i` on: later steps see the skips of earlier ones. */
  function SkipFrom(w: Workflow, i: nat): (r: Workflow)
    requires Shaped(w) && i <= |w.steps|
    ensures Shaped(r) && |r.steps| == |w.steps|
    decreases |w.steps| - i
  {
    if i == |w.steps| then w else SkipFrom(SkipOne(w, i), i + 1)
  }

  // ----- choosing and feeding the next step --------------------------------------------------------

  function ActiveCount(steps: seq<StepState>): nat {
    if steps == [] then 0 else (if Active(steps[0].status) then 1 else 0) + ActiveCount(steps[1..])
  }

  function ReadyFrom(w: Workflow, i: nat): (k: int)
    requires Shaped(w) && i <= |w.steps|
    ensures k < 0 ==> forall j :: i <= j < |w.steps| ==> !(w.steps[j].status.StepPending? && DepsDone(w, j))
    ensures k >= 0 ==> i <= k < |w.steps| && w.steps[k].status.StepPending? && DepsDone(w, k)
    ensures k >= 0 ==> forall j :: i <= j < k ==> !(w.steps[j].status.StepPending? && DepsDone(w, j))
    decreases |w.steps| - i
  {
    if i == |w.steps| then -1
    else if w.steps[i].status.StepPending? && DepsDone(w, i) then i
    else ReadyFrom(w, i + 1)
  }

  function ReadyStep(w: Workflow): int
    requires Shaped(w)
  {
    ReadyFrom(w, 0)
  }

  /** The first run among the dependencies becomes the parent of the new run. */
  function FirstRunId(w: Workflow, refs: seq<string>): string
    requires Shaped(w)
  {
    if refs == [] then ""
    else
      var k := Find(w.def.steps, refs[0]);
      if k >= 0 && w.steps[k].runId != "" then w.steps[k].runId else FirstRunId(w, refs[1..])
  }

  /** The run of the dependency `r`, if it has one. */
  predicate HasRun(w: Workflow, r: string)
    requires Shaped(w)
  {
    var k := Find(w.def.steps, r);
    k >= 0 && w.steps[k].runId != ""
  }

  /** The parent is the run of the first dependency that has one, and there is none exactly if no dependency
      has a run. */
  lemma {:induction false} FirstRunIdMeaning(w: Workflow, refs: seq<string>)
    requires Shaped(w)
    ensures FirstRunId(w, refs) == "" <==> forall r <- refs :: !HasRun(w, r)
    ensures FirstRunId(w, refs) != "" ==>
              exists k :: && 0 <= k < |refs| && HasRun(w, refs[k]) && (forall j :: 0 <= j < k ==> !HasRun(w, refs[j]))
                          && w.steps[Find(w.def.steps, refs[k])].runId == FirstRunId(w, refs)
  {
    if refs == [] {
    } else if HasRun(w, refs[0]) {
      assert refs[0] in refs;
    } else {
      FirstRunIdMeaning(w, refs[1..]);
      assert forall r :: r in refs <==> r == refs[0] || r in refs[1..];
      if FirstRunId(w, refs[1..]) != "" {
        var k :| && 0 <= k < |refs[1..]| && HasRun(w, refs[1..][k]) && (forall j :: 0 <= j < k ==> !HasRun(w, refs[1..][j]))
                 && w.steps[Find(w.def.steps, refs[1..][k])].runId == FirstRunId(w, refs[1..]);
        assert refs[k + 1] == refs[1..][k];
        forall j | 0 <= j < k + 1
          ensures !HasRun(w, refs[j])
        {
          assert j > 0 ==> refs[j] == refs[1..][j - 1];
        }
      }
    }
  }

  datatype InputError = DependencyIncomplete | SourceIncomplete | NeedsJsonArray

  /** `encoding/json`'s rendering of a list of strings, which lies outside the repository. */
  type Marshal = seq<string> -> string

  function SourceTexts(w: Workflow, sources: seq<string>): seq<string>
    requires Shaped(w)
  {
    seq(|sources|, k requires 0 <= k < |sources| => SourceText(w, sources[k]))
  }

  /** The input a step receives when its sources are complete. */
  function InputFor(w: Workflow, i: nat, marshal: Marshal): string
    requires Shaped(w) && i < |w.steps|
  {
    var s := w.def.steps[i];
    if s.inputFrom == [] then s.input
    else if |s.inputFrom| == 1 then SourceText(w, s.inputFrom[0])
    else marshal(SourceTexts(w, s.inputFrom))
  }

  function ResolveInput(w: Workflow, i: nat, marshal: Marshal): Result<(string, string), InputError>
    requires Shaped(w) && i < |w.steps|
  {
    var s := w.def.steps[i];
    if !DepsDone(w, i) then Err(DependencyIncomplete)
    else
      var parent := FirstRunId(w, s.dependsOn);
      if s.inputFrom == [] then Ok((s.input, parent))
      else if exists source <- s.inputFrom :: source != WORKFLOW_INPUT && !RefDone(w, source) then Err(SourceIncomplete)
      else
        var values := SourceTexts(w, s.inputFrom);
        if |values| == 1 then Ok((values[0], parent))
        else if s.aggregation != JSON_ARRAY then Err(NeedsJsonArray)
        else Ok((marshal(values), parent))
  }

  function SetStep(w: Workflow, i: nat, st: StepState): Workflow
    requires i < |w.steps|
  {
    w.(steps := w.steps[i := st])
  }

  // ----- reading the runs back -----------------------------------------------------------------------

  function RefreshStep(st: StepState, run: RunView): StepState {
    match run.status
    case Queued => st.(status := StepQueued)
    case Running => st.(status := StepRunning)
    case Succeeded => st.(status := StepSucceeded, output := run.output, error := "")
    case Failed => st.(status := StepFailed, error := run.error, output := "")
    case Canceled => st.(status := StepCanceled, output := "")
  }

  function CancelUnfinished(steps: seq<StepState>): (r: seq<StepState>)
    ensures |r| == |steps|
    ensures forall i :: 0 <= i < |steps| ==>
              r[i] == if Unfinished(steps[i].status) then steps[i].(status := StepCanceled) else steps[i]
  {
    seq(|steps|, i requires 0 <= i < |steps| => if Unfinished(steps[i].status) then steps[i].(status := StepCanceled) else steps[i])
  }

  /** The workflow ends because step `i` failed or was canceled. */
  function StopAt(w: Workflow, i: nat): Workflow
    requires Shaped(w) && i < |w.steps|
  {
    var ended := w.(steps := CancelUnfinished(w.steps));
    if w.steps[i].status.StepFailed?
    then ended.(status := WfFailed, error := "step " + w.def.steps[i].id + " failed: " + w.steps[i].error)
    else ended.(status := WfCanceled)
  }

  function FailWith(w: Workflow, cause: string): Workflow {
    w.(status := WfFailed, error := cause, steps := CancelUnfinished(w.steps))
  }

  /** Progress of `refreshSteps`: the record so far and the two flags, or how it ended. */
  datatype Pass =
    | Going(w: Workflow, changed: bool, all: bool)
    | Stopped(w: Workflow)
    | LoadFailed(w: Workflow)

  /** The loop body for step `i`; `read` is what `GetRun` answers at that moment, `None` when it fails. */
  function RefreshOne(w: Workflow, i: nat, changed: bool, all: bool, read: Option<RunView>): Pass
    requires Shaped(w) && i < |w.steps|
  {
    var st := w.steps[i];
    if st.status.StepSkipped? then Going(w, changed, all)
    else if st.runId == "" then Going(w, changed, false)
    else if read.None? then LoadFailed(w)
    else
      var st' := RefreshStep(st, read.value);
      var w' := SetStep(w, i, st');
      if st'.status.StepFailed? || st'.status.StepCanceled? then Stopped(StopAt(w', i))
      else Going(w', changed || st'.status != st.status, all && Done(st'.status))
  }

  // ----- what a pass makes of the answers -------------------------------------------------------------------

  /** The step's run is read at all. */
  predicate IsRead(st: StepState) {
    !st.status.StepSkipped? && st.runId != ""
  }

  /** The answer lets the pass go on. */
  predicate Quiet(st: StepState, answer: Option<RunView>) {
    IsRead(st) ==> answer.Some? && !answer.value.status.Failed? && !answer.value.status.Canceled?
  }

  /** The first step at which the pass cannot go on, or the number of steps. */
  function StopIndex(steps: seq<StepState>, answers: seq<Option<RunView>>): (k: nat)
    requires |steps| == |answers|
    ensures k <= |steps| && (k < |steps| ==> !Quiet(steps[k], answers[k]))
    ensures forall j :: 0 <= j < k ==> Quiet(steps[j], answers[j])
  {
    if steps == [] || !Quiet(steps[0], answers[0]) then 0 else 1 + StopIndex(steps[1..], answers[1..])
  }

  /** What a step becomes when its run is found as `run`. */
  predicate Mirrors(st: StepState, run: RunView, st': StepState) {
    && st'.runId == st.runId
    && match run.status
       case Queued => st'.status.StepQueued? && st'.output == st.output && st'.error == st.error
       case Running => st'.status.StepRunning? && st'.output == st.output && st'.error == st.error
       case Succeeded => st'.status.StepSucceeded? && st'.output == run.output && st'.error == ""
       case Failed => st'.status.StepFailed? && st'.output == "" && st'.error == run.error
       case Canceled => st'.status.StepCanceled? && st'.output == "" && st'.error == st.error
  }

  /** The step after a pass that reached it. */
  predicate Refreshes(st: StepState, answer: Option<RunView>, st': StepState) {
    if IsRead(st) then answer.Some? && Mirrors(st, answer.value, st') else st' == st
  }

  /** ... and after what is unfinished was canceled. */
  predicate Cleared(st: StepState, st': StepState) {
    if st.status.StepPending? || st.status.StepQueued? || st.status.StepRunning?
    then st' == st.(status := StepCanceled) else st' == st
  }

  function FailureText(step: string, error: string): string {
    "step " + step + " failed: " + error
  }

  /** A step the pass had refreshed before it stopped. */
  predicate RefreshedThenCleared(st: StepState, answer: Option<RunView>, st': StepState) {
    if !IsRead(st) then Cleared(st, st')
    else if answer.Some? && answer.value.status.Succeeded? then Mirrors(st, answer.value, st')
    else st' == st.(status := StepCanceled)
  }

  /** The step counts as complete. */
  predicate Completes(st: StepState, answer: Option<RunView>) {
    st.status.StepSkipped? || (IsRead(st) && answer.Some? && answer.value.status.Succeeded?)
  }

  /** The record of a pass stopped at step `k`. */
  ghost predicate StoppedBy(w: Workflow, answers: seq<Option<RunView>>, k: nat, v: Workflow)
    requires Shaped(w) && |answers| == |w.steps| && k < |w.steps| && answers[k].Some?
  {
    var failed := answers[k].value.status.Failed?;
    && v.def == w.def && v.version == w.version && |v.steps| == |w.steps|
    && v.status == (if failed then WfFailed else WfCanceled)
    && v.error == (if failed then FailureText(w.def.steps[k].id, answers[k].value.error) else w.error)
    && (forall i :: 0 <= i < k ==> RefreshedThenCleared(w.steps[i], answers[i], v.steps[i]))
    && Mirrors(w.steps[k], answers[k].value, v.steps[k])
    && (forall i :: k < i < |w.steps| ==> Cleared(w.steps[i], v.steps[i]))
  }

  /** The record and flags of a pass that read every run. */
  ghost predicate AllRefreshed(w: Workflow, answers: seq<Option<RunView>>, v: Workflow, changed: bool, all: bool)
    requires |answers| == |w.steps|
  {
    && v == w.(steps := v.steps) && |v.steps| == |w.steps|
    && (forall i :: 0 <= i < |w.steps| ==> Refreshes(w.steps[i], answers[i], v.steps[i]))
    && (changed <==> exists i :: 0 <= i < |w.steps| && v.steps[i].status != w.steps[i].status)
    && (all <==> forall i :: 0 <= i < |w.steps| ==> Completes(w.steps[i], answers[i]))
  }

  /** The pass went over the step. */
  predicate Passed(st: StepState, answer: Option<RunView>, st': StepState) {
    Quiet(st, answer) && Refreshes(st, answer, st')
  }

  /** The pass has come to step `i` with record `v`. */
  ghost predicate HalfDone(w: Workflow, v: Workflow, i: nat, answers: seq<Option<RunView>>)
    requires |answers| == |w.steps| && i <= |w.steps|
  {
    && v == w.(steps := v.steps) && |v.steps| == |w.steps|
    && (forall j :: 0 <= j < i ==> Passed(w.steps[j], answers[j], v.steps[j]))
    && (forall j :: i <= j < |w.steps| ==> v.steps[j] == w.steps[j])
  }

  /** The first answer that is not good decides: a failed run fails the workflow and names the step, a canceled
      one cancels it, a failed read ends the pass. Otherwise every step becomes what its run is. */
  ghost predicate Outcome(w: Workflow, answers: seq<Option<RunView>>, pass: Pass)
    requires Shaped(w) && |answers| == |w.steps|
  {
    var k := StopIndex(w.steps, answers);
    if k == |w.steps| then pass.Going? && AllRefreshed(w, answers, pass.w, pass.changed, pass.all)
    else if answers[k].None? then pass.LoadFailed? && HalfDone(w, pass.w, k, answers)
    else pass.Stopped? && StoppedBy(w, answers, k, pass.w)
  }

  function ChangedUpTo(ws: seq<StepState>, vs: seq<StepState>, i: nat): (c: bool)
    requires i <= |ws| == |vs|
    ensures c <==> exists j :: 0 <= j < i && vs[j].status != ws[j].status
  {
    i > 0 && (ChangedUpTo(ws, vs, i - 1) || vs[i - 1].status != ws[i - 1].status)
  }

  function CompleteUpTo(ws: seq<StepState>, answers: seq<Option<RunView>>, i: nat): (c: bool)
    requires i <= |ws| == |answers|
    ensures c <==> forall j :: 0 <= j < i ==> Completes(ws[j], answers[j])
  {
    i == 0 || (CompleteUpTo(ws, answers, i - 1) && Completes(ws[i - 1], answers[i - 1]))
  }

  /** ... and these two flags. */
  ghost predicate Halfway(w: Workflow, v: Workflow, i: nat, changed: bool, all: bool, answers: seq<Option<RunView>>)
    requires |answers| == |w.steps| && i <= |w.steps|
  {
    && HalfDone(w, v, i, answers)
    && changed == ChangedUpTo(w.steps, v.steps, i)
    && all == CompleteUpTo(w.steps, answers, i)
  }

  lemma ClearedStep(st: StepState, answer: Option<RunView>, mid: StepState, st': StepState)
    requires Quiet(st, answer) && Refreshes(st, answer, mid)
    requires st' == if Unfinished(mid.status) then mid.(status := StepCanceled) else mid
    ensures RefreshedThenCleared(st, answer, st')
  {
  }

  lemma StopsHere(w: Workflow, v: Workflow, i: nat, changed: bool, all: bool, answers: seq<Option<RunView>>)
    requires Shaped(w) && |answers| == |w.steps| && i < |w.steps| && Halfway(w, v, i, changed, all, answers)
    requires RefreshOne(v, i, changed, all, answers[i]).Stopped?
    ensures answers[i].Some? && StoppedBy(w, answers, i, RefreshOne(v, i, changed, all, answers[i]).w)
  {
    var mid := SetStep(v, i, RefreshStep(v.steps[i], answers[i].value));
    var d := RefreshOne(v, i, changed, all, answers[i]).w;
    assert d.steps == CancelUnfinished(mid.steps);
    assert Mirrors(w.steps[i], answers[i].value, d.steps[i]);
    forall j | 0 <= j < i
      ensures RefreshedThenCleared(w.steps[j], answers[j], d.steps[j])
    {
      ClearedStep(w.steps[j], answers[j], v.steps[j], d.steps[j]);
    }
  }

  lemma StepGoesOn(w: Workflow, v: Workflow, i: nat, changed: bool, all: bool, answers: seq<Option<RunView>>)
    requires Shaped(w) && |answers| == |w.steps| && i < |w.steps| && HalfDone(w, v, i, answers)
    requires RefreshOne(v, i, changed, all, answers[i]).Going?
    ensures var pass := RefreshOne(v, i, changed, all, answers[i]);
            && HalfDone(w, pass.w, i + 1, answers)
            && (pass.changed <==> changed || pass.w.steps[i].status != w.steps[i].status)
            && (pass.all <==> all && Completes(w.steps[i], answers[i]))
            && forall j :: 0 <= j < i ==> pass.w.steps[j] == v.steps[j]
  {
  }

  lemma GoesOn(w: Workflow, v: Workflow, i: nat, changed: bool, all: bool, answers: seq<Option<RunView>>)
    requires Shaped(w) && |answers| == |w.steps| && i < |w.steps| && Halfway(w, v, i, changed, all, answers)
    requires RefreshOne(v, i, changed, all, answers[i]).Going?
    ensures var pass := RefreshOne(v, i, changed, all, answers[i]); Halfway(w, pass.w, i + 1, pass.changed, pass.all, answers)
  {
    StepGoesOn(w, v, i, changed, all, answers);
    var pass := RefreshOne(v, i, changed, all, answers[i]);
    ChangedFrame(w.steps, v.steps, pass.w.steps, i);
  }

  lemma {:induction false} ChangedFrame(ws: seq<StepState>, vs: seq<StepState>, us: seq<StepState>, i: nat)
    requires i <= |ws| == |vs| == |us| && forall j :: 0 <= j < i ==> us[j] == vs[j]
    ensures ChangedUpTo(ws, us, i) == ChangedUpTo(ws, vs, i)
  {
    if i == 0 {
    } else {
      ChangedFrame(ws, vs, us, i - 1);
    }
  }

  /** A pass that cannot go on at step `i` stops there. */
  lemma PassBreaks(w: Workflow, v: Workflow, i: nat, changed: bool, all: bool, answers: seq<Option<RunView>>)
    requires Shaped(w) && |answers| == |w.steps| && i < |w.steps| && Halfway(w, v, i, changed, all, answers)
    requires !RefreshOne(v, i, changed, all, answers[i]).Going?
    ensures Outcome(w, answers, RefreshOne(v, i, changed, all, answers[i]))
  {
    StopIndexIs(w.steps, answers, i);
    if RefreshOne(v, i, changed, all, answers[i]).Stopped? {
      StopsHere(w, v, i, changed, all, answers);
    }
  }

  lemma StopIndexIs(steps: seq<StepState>, answers: seq<Option<RunView>>, i: nat)
    requires |steps| == |answers| && i <= |steps| && (i < |steps| ==> !Quiet(steps[i], answers[i]))
    requires forall j :: 0 <= j < i ==> Quiet(steps[j], answers[j])
    ensures StopIndex(steps, answers) == i
  {
  }

  lemma PassEnds(w: Workflow, v: Workflow, changed: bool, all: bool, answers: seq<Option<RunView>>)
    requires Shaped(w) && |answers| == |w.steps| && Halfway(w, v, |w.steps|, changed, all, answers)
    ensures Outcome(w, answers, Going(v, changed, all))
  {
    StopIndexIs(w.steps, answers, |w.steps|);
  }

  /** The reply `r` and the record `v` of a pass over `w`: at the first answer that is not good, the stopped
      record or the load error; otherwise the refreshed record, succeeded if every step is complete. */
  ghost predicate Reports(w: Workflow, answers: seq<Option<RunView>>, r: Option<(bool, bool)>, v: Workflow)
    requires Shaped(w) && |answers| == |w.steps|
  {
    var k := StopIndex(w.steps, answers);
    if k < |w.steps| then
      if answers[k].None? then r.None? && HalfDone(w, v, k, answers)
      else r == Some((true, true)) && StoppedBy(w, answers, k, v)
    else if forall i :: 0 <= i < |w.steps| ==> Completes(w.steps[i], answers[i]) then
      && r == Some((true, true)) && v == w.(status := WfSucceeded, error := "", steps := v.steps) && |v.steps| == |w.steps|
      && forall i :: 0 <= i < |w.steps| ==> Refreshes(w.steps[i], answers[i], v.steps[i])
    else r.Some? && !r.value.1 && AllRefreshed(w, answers, v, r.value.0, false)
  }

  /** How the reply and the record of the method stand for the outcome of the pass. */
  predicate Stands(pass: Pass, r: Option<(bool, bool)>, v: Workflow) {
    match pass
    case LoadFailed(w) => r.None? && v == w
    case Stopped(w) => r == Some((true, true)) && v == w
    case Going(w, changed, all) =>
      if all then r == Some((true, true)) && v == w.(status := WfSucceeded, error := "")
      else r == Some((changed, false)) && v == w
  }

  lemma OutcomeReports(w: Workflow, answers: seq<Option<RunView>>, pass: Pass, r: Option<(bool, bool)>, v: Workflow)
    requires Shaped(w) && |answers| == |w.steps| && Outcome(w, answers, pass) && Stands(pass, r, v)
    ensures Reports(w, answers, r, v)
  {
  }

  // ----- the record a manager edits in place ---------------------------------------------------------

  class Candidate {
    const def: Definition
    const version: int
    var status: WorkflowStatus
    var error: string
    const steps: array<StepState>

    constructor (w: Workflow)
      requires Shaped(w)
      ensures Valid() && fresh(steps) && Value() == w
    {
      def, version, status, error := w.def, w.version, w.status, w.error;
      steps := new StepState[|w.steps|](i requires 0 <= i < |w.steps| => w.steps[i]);
    }

    predicate Valid()
    {
      steps.Length == |def.steps|
    }

    function Value(): Workflow
      reads this, steps
    {
      Workflow(def, status, error, version, steps[..])
    }

    method CancelNonterminalSteps()
      requires Valid()
      modifies steps
      ensures Value() == old(Value()).(steps := CancelUnfinished(old(steps[..])))
    {
      for i := 0 to steps.Length
        invariant forall k :: 0 <= k < i ==> steps[k] == CancelUnfinished(old(steps[..]))[k]
        invariant forall k :: i <= k < steps.Length ==> steps[k] == old(steps[k])
      {
        if steps[i].status.StepPending? || steps[i].status.StepQueued? || steps[i].status.StepRunning? {
          steps[i] := steps[i].(status := StepCanceled);
        }
      }
      assert steps[..] == CancelUnfinished(old(steps[..]));
    }

    method ApplyConditions() returns (changed: bool)
      requires Valid()
      modifies steps
      ensures Value() == SkipFrom(old(Value()), 0)
      ensures changed <==> Value() != old(Value())
    {
      changed := false;
      ghost var start := Value();
      for i := 0 to steps.Length
        invariant SkipFrom(Value(), i) == SkipFrom(start, 0)
        invariant changed <==> Value() != start
        invariant forall k :: 0 <= k < steps.Length && start.steps[k].status.StepSkipped? ==> steps[k] == start.steps[k]
        invariant changed ==> exists k :: 0 <= k < steps.Length && steps[k].status.StepSkipped? && !start.steps[k].status.StepSkipped?
        invariant forall k :: i <= k < steps.Length ==> steps[k] == start.steps[k]
        invariant def == start.def && |start.steps| == steps.Length
      {
        ghost var before := Value();
        if steps[i].status == StepPending && def.steps[i].condition.Some? && DepsDone(Value(), i) && !Keeps(Value(), i) {
          steps[i] := steps[i].(status := StepSkipped);
          assert Value() == SkipOne(before, i);
          changed := true;
          assert steps[i].status.StepSkipped? && !start.steps[i].status.StepSkipped?;
        }
        assert Value() == SkipOne(before, i);
      }
    }

    method ActiveStepCount() returns (count: nat)
      requires Valid()
      ensures count == ActiveCount(steps[..])
    {
      count := 0;
      assert steps[..][0..] == steps[..];
      for i := 0 to steps.Length
        invariant count + ActiveCount(steps[..][i..]) == ActiveCount(steps[..])
      {
        assert steps[..][i..][1..] == steps[..][i + 1..];
        if steps[i].status == StepQueued || steps[i].status == StepRunning {
          count := count + 1;
        }
      }
      assert steps[..][steps.Length..] == [];
    }

    /** One round of the loop of `refreshSteps`; `done` holds the reply when the loop is left here. */
    method RefreshAt(i: nat, changed: bool, all: bool, read: Option<RunView>)
      returns (done: Option<Option<(bool, bool)>>, changed': bool, all': bool)
      requires Valid() && i < steps.Length
      modifies this, steps
      ensures match RefreshOne(old(Value()), i, changed, all, read)
              case LoadFailed(w) => done == Some(None) && Value() == w
              case Stopped(w) => done == Some(Some((true, true))) && Value() == w
              case Going(w, c, a) => done.None? && Value() == w && changed' == c && all' == a
    {
      done, changed', all' := None, changed, all;
      if steps[i].status == StepSkipped {
        return;
      }
      if steps[i].runId == "" {
        all' := false;
        return;
      }
      if read.None? {
        done := Some(None);
        return;
      }
      var previous := steps[i].status;
      steps[i] := RefreshStep(steps[i], read.value);
      assert steps[..] == old(steps[..])[i := steps[i]];
      changed' := changed || previous != steps[i].status;
      if steps[i].status != StepSucceeded && steps[i].status != StepSkipped {
        all' := false;
      }
      if steps[i].status == StepFailed || steps[i].status == StepCanceled {
        if steps[i].status == StepFailed {
          status, error := WfFailed, "step " + def.steps[i].id + " failed: " + steps[i].error;
        } else {
          status := WfCanceled;
        }
        CancelNonterminalSteps();
        done := Some(Some((true, true)));
      }
    }

    /** `refreshSteps`; `answers[k]` is what it reads for step `k`, so runs may move during the pass. `None` stands for the load error. */
    method RefreshSteps(answers: seq<Option<RunView>>) returns (r: Option<(bool, bool)>)
      requires Valid() && |answers| == steps.Length
      modifies this, steps
      ensures Reports(old(Value()), answers, r, Value())
    {
      var changed, all := false, true;
      ghost var start := Value();
      for i := 0 to steps.Length
        invariant Halfway(start, Value(), i, changed, all, answers)
      {
        ghost var before, c, a := Value(), changed, all;
        var done;
        done, changed, all := RefreshAt(i, changed, all, answers[i]);
        if done.Some? {
          PassBreaks(start, before, i, c, a, answers);
          OutcomeReports(start, answers, RefreshOne(before, i, c, a, answers[i]), done.value, Value());
          return done.value;
        }
        GoesOn(start, before, i, c, a, answers);
      }
      PassEnds(start, Value(), changed, all, answers);
      ghost var end := Going(Value(), changed, all);
      if all {
        status, error := WfSucceeded, "";
        OutcomeReports(start, answers, end, Some((true, true)), Value());
        return Some((true, true));
      }
      OutcomeReports(start, answers, end, Some((changed, false)), Value());
      return Some((changed, false));
    }
  }

  // ----- storing it ----------------------------------------------------------------------------------

  datatype UpdateError = WorkflowMissing | Conflict | DefinitionChanged

  /** `UpdateWorkflow`: only the execution fields are taken from the caller. */
  function Update(existing: Workflow, w: Workflow, expected: int): Result<Workflow, UpdateError> {
    if expected < 1 || existing.version != expected then Err(Conflict)
    else if |existing.steps| != |w.steps| || !SameNames(existing.def.steps, w.def.steps) then Err(DefinitionChanged)
    else Ok(existing.(status := w.status, error := w.error, version := existing.version + 1, steps := w.steps))
  }

  predicate SameNames(a: seq<StepDef>, b: seq<StepDef>) {
    |a| == |b| && forall i :: 0 <= i < |a| ==> a[i].id == b[i].id
  }

  class WorkflowMemory {
    var workflows: map<string, Workflow>

    method UpdateWorkflow(w: Workflow, expected: int) returns (r: Result<Workflow, UpdateError>)
      requires Shaped(w) && forall id <- workflows :: Shaped(workflows[id])
      modifies this
      ensures r == if w.def.id in old(workflows) then Update(old(workflows)[w.def.id], w, expected) else Err(WorkflowMissing)
      ensures workflows == if r.Ok? then old(workflows)[w.def.id := r.value] else old(workflows)
      ensures r == Err(Conflict) <==> w.def.id in old(workflows) && !(1 <= expected == old(workflows)[w.def.id].version)
      ensures r.Ok? ==>
                && w.def.id in old(workflows) && r.value.def == old(workflows)[w.def.id].def && r.value.version == expected + 1
                && r.value.status == w.status && r.value.error == w.error && r.value.steps == w.steps
    {
      if w.def.id !in workflows {
        return Err(WorkflowMissing);
      }
      var existing := workflows[w.def.id];
      if expected < 1 || existing.version != expected {
        return Err(Conflict);
      }
      if |existing.steps| != |w.steps| {
        return Err(DefinitionChanged);
      }
      var steps := existing.steps;
      for i := 0 to |steps|
        invariant |steps| == |w.steps| && steps[..i] == w.steps[..i]
        invariant forall k :: 0 <= k < i ==> existing.def.steps[k].id == w.def.steps[k].id
      {
        if existing.def.steps[i].id != w.def.steps[i].id {
          return Err(DefinitionChanged);
        }
        var s := w.steps[i];
        steps := steps[i := StepState(s.status, s.runId, s.output, s.error)];
      }
      assert steps == w.steps;
      var updated := existing.(status := w.status, error := w.error, version := existing.version + 1, steps := steps);
      workflows := workflows[w.def.id := updated];
      r := Ok(updated);
    }
  }
}
