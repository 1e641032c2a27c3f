/** Workflow records and the admission of definitions (internal/domain/workflow.go). A step's
    definition and its execution state are kept in two parallel sequences. */
module Workflows {
  import opened Basics
  import Dag

  const WORKFLOW_INPUT := "workflow"
  const SINGLE := "single"
  const JSON_ARRAY := "json-array"
  const EQUALS := "equals"
  const NOT_EQUALS := "not-equals"
  const CONTAINS := "contains"
  const NOT_CONTAINS := "not-contains"
  const MAX_STEPS := 100

  datatype Condition = Condition(source: string, operator: string, value: string)

  datatype StepDef = StepDef(
    id: string,
    agentId: string,
    input: string,
    inputFrom: seq<string>,
    aggregation: string,
    dependsOn: seq<string>,
    condition: Option<Condition>)

  datatype Definition = Definition(id: string, input: string, steps: seq<StepDef>)

  datatype StepStatus = StepPending | StepQueued | StepRunning | StepSucceeded | StepSkipped | StepFailed | StepCanceled

  datatype StepState = StepState(status: StepStatus, runId: string, output: string, error: string)

  datatype WorkflowStatus = WfPending | WfRunning | WfSucceeded | WfFailed | WfCanceled

  datatype Workflow = Workflow(def: Definition, status: WorkflowStatus, error: string, version: int, steps: seq<StepState>)

  predicate IsTerminal(w: Workflow) {
    w.status.WfSucceeded? || w.status.WfFailed? || w.status.WfCanceled?
  }

  // ----- looking steps up by name ----------------------------------------------------------------

  /** The first step with that name, or -1. */
  function Find(steps: seq<StepDef>, id: string): (k: int)
    ensures -1 <= k < |steps|
    ensures k >= 0 ==> steps[k].id == id
    ensures k < 0 ==> forall j :: 0 <= j < |steps| ==> steps[j].id != id
  {
    if steps == [] then -1
    else if steps[0].id == id then 0
    else
      var k := Find(steps[1..], id);
      if k < 0 then -1 else k + 1
  }

  predicate UniqueIds(steps: seq<StepDef>) {
    forall i, j :: 0 <= i < j < |steps| ==> steps[i].id != steps[j].id
  }

  predicate KnownRefs(steps: seq<StepDef>, refs: seq<string>) {
    forall r <- refs :: Find(steps, r) >= 0
  }

  function Indices(steps: seq<StepDef>, refs: seq<string>): (ks: seq<nat>)
    requires KnownRefs(steps, refs)
    ensures |ks| == |refs| && forall k :: 0 <= k < |refs| ==> ks[k] == Find(steps, refs[k])
    ensures forall k <- ks :: k < |steps|
  {
    seq(|refs|, k requires 0 <= k < |refs| => var r := refs[k]; assert r in refs; Find(steps, r))
  }

  predicate AllRefsKnown(steps: seq<StepDef>) {
    forall i :: 0 <= i < |steps| ==> KnownRefs(steps, steps[i].dependsOn)
  }

  function GraphOf(steps: seq<StepDef>): (g: Dag.Graph)
    requires AllRefsKnown(steps)
    ensures |g| == |steps| && Dag.Closed(g)
    ensures forall i :: 0 <= i < |steps| ==> g[i] == Indices(steps, steps[i].dependsOn)
  {
    seq(|steps|, i requires 0 <= i < |steps| => Indices(steps, steps[i].dependsOn))
  }

  // ----- which definitions are admitted ------------------------------------------------------------

  predicate LowerAlnum(c: char) {
    'a' <= c <= 'z' || '0' <= c <= '9'
  }

  /** The step name pattern: an alphanumeric, then up to 63 alphanumerics, dots, underscores, hyphens. */
  predicate ValidStepId(s: string) {
    && 1 <= |s| <= 64
    && LowerAlnum(s[0])
    && forall i :: 0 <= i < |s| ==> LowerAlnum(s[i]) || s[i] == '.' || s[i] == '_' || s[i] == '-'
  }

  /** `strings.TrimSpace` and `strings.ToLower`, whose definitions lie outside the repository. */
  datatype Text = Text(trim: string -> string, lower: string -> string)

  function Fold(t: Text, s: string): string {
    t.lower(t.trim(s))
  }

  predicate KnownOperator(op: string) {
    op == EQUALS || op == NOT_EQUALS || op == CONTAINS || op == NOT_CONTAINS
  }

  predicate ConditionOk(def: Definition, s: StepDef) {
    s.condition.Some? ==>
      var c := s.condition.value;
      && KnownOperator(c.operator)
      && c.source != ""
      && (c.source != WORKFLOW_INPUT ==> Find(def.steps, c.source) >= 0 && c.source in s.dependsOn)
  }

  predicate SourceOk(t: Text, def: Definition, s: StepDef, source: string) {
    if source == WORKFLOW_INPUT then t.trim(def.input) != ""
    else Find(def.steps, source) >= 0 && source in s.dependsOn
  }

  predicate InputOk(t: Text, def: Definition, s: StepDef) {
    if s.inputFrom == [] then t.trim(s.input) != "" && s.aggregation == ""
    else
      && t.trim(s.input) == ""
      && (forall source <- s.inputFrom :: SourceOk(t, def, s, source))
      && (|s.inputFrom| == 1 ==> s.aggregation == "" || s.aggregation == SINGLE)
      && (|s.inputFrom| > 1 ==> s.aggregation == JSON_ARRAY)
  }

  predicate StepOk(t: Text, def: Definition, s: StepDef) {
    && (forall d <- s.dependsOn :: d != s.id && Find(def.steps, d) >= 0)
    && ConditionOk(def, s)
    && InputOk(t, def, s)
  }

  /** What a normalized definition must satisfy to be created. */
  ghost predicate Admissible(t: Text, def: Definition) {
    && def.id != ""
    && 1 <= |def.steps| <= MAX_STEPS
    && (forall i :: 0 <= i < |def.steps| ==> ValidStepId(def.steps[i].id) && def.steps[i].agentId != "")
    && UniqueIds(def.steps)
    && (forall i :: 0 <= i < |def.steps| ==> StepOk(t, def, def.steps[i]))
    && AllRefsKnown(def.steps)
    && Dag.Acyclic(GraphOf(def.steps))
  }

  /** Folding, dropping blanks and keeping first occurrences. */
  function NormalizeRefs(t: Text, values: seq<string>): seq<string> {
    if values == [] then []
    else
      var before := NormalizeRefs(t, values[..|values| - 1]);
      var v := Fold(t, values[|values| - 1]);
      if v == "" || v in before then before else before + [v]
  }

  function NormalizeCondition(t: Text, c: Condition): Condition {
    c.(source := Fold(t, c.source), operator := Fold(t, c.operator))
  }

  function NormalizeStep(t: Text, s: StepDef): StepDef {
    s.(id := Fold(t, s.id), agentId := t.trim(s.agentId),
       dependsOn := NormalizeRefs(t, s.dependsOn), inputFrom := NormalizeRefs(t, s.inputFrom),
       aggregation := Fold(t, s.aggregation),
       condition := if s.condition.Some? then Some(NormalizeCondition(t, s.condition.value)) else None)
  }

  function Normalize(t: Text, def: Definition): Definition {
    Definition(t.trim(def.id), def.input, seq(|def.steps|, i requires 0 <= i < |def.steps| => NormalizeStep(t, def.steps[i])))
  }

  /** A single input source gets the `single` aggregation when none was declared. */
  function WithDefault(s: StepDef): StepDef {
    if |s.inputFrom| == 1 && s.aggregation == "" then s.(aggregation := SINGLE) else s
  }

  function WithDefaults(def: Definition): Definition {
    def.(steps := seq(|def.steps|, i requires 0 <= i < |def.steps| => WithDefault(def.steps[i])))
  }

  const FRESH_STEP := StepState(StepPending, "", "", "")

  function NewWorkflow(def: Definition): Workflow {
    Workflow(def, WfPending, "", 1, seq(|def.steps|, i => FRESH_STEP))
  }

  /** The normalized list holds each non-blank folded value once, in order of first occurrence:
      it has exactly the folded values as members, no duplicates, and prefixes give prefixes. */
  lemma NormalizeRefsMeaning(t: Text, values: seq<string>, k: nat)
    requires k <= |values|
    ensures var r := NormalizeRefs(t, values);
            && "" !in r
            && (forall i, j :: 0 <= i < j < |r| ==> r[i] != r[j])
            && (forall v :: v in r <==> v != "" && exists i :: 0 <= i < |values| && Fold(t, values[i]) == v)
            && NormalizeRefs(t, values[..k]) <= r
  {
    NormalizeRefsDistinct(t, values);
    NormalizeRefsPrefix(t, values, k);
    forall v
      ensures v in NormalizeRefs(t, values) <==> v != "" && exists i :: 0 <= i < |values| && Fold(t, values[i]) == v
    {
      NormalizeRefsMember(t, values, v);
    }
  }

  lemma {:induction false} NormalizeRefsMember(t: Text, values: seq<string>, v: string)
    ensures v in NormalizeRefs(t, values) <==> v != "" && exists i :: 0 <= i < |values| && Fold(t, values[i]) == v
  {
    if values == [] {
    } else {
      var front := values[..|values| - 1];
      NormalizeRefsMember(t, front, v);
      assert forall i :: 0 <= i < |front| ==> front[i] == values[i];
    }
  }

  lemma {:induction false} NormalizeRefsDistinct(t: Text, values: seq<string>)
    ensures var r := NormalizeRefs(t, values); "" !in r && forall i, j :: 0 <= i < j < |r| ==> r[i] != r[j]
  {
    if values == [] {
    } else {
      NormalizeRefsDistinct(t, values[..|values| - 1]);
    }
  }

  lemma {:induction false} NormalizeRefsPrefix(t: Text, values: seq<string>, k: nat)
    requires k <= |values|
    ensures NormalizeRefs(t, values[..k]) <= NormalizeRefs(t, values)
  {
    if k == |values| {
      assert values[..k] == values;
    } else {
      NormalizeRefsPrefix(t, values[..|values| - 1], k);
      assert values[..|values| - 1][..k] == values[..k];
    }
  }

  /** Where the folded text `v` occurs first among the given values. */
  predicate FirstAt(t: Text, values: seq<string>, v: string, p: nat) {
    p < |values| && t.lower(t.trim(values[p])) == v && forall q :: 0 <= q < p ==> t.lower(t.trim(values[q])) != v
  }

  /** `u` is given before `v`. */
  ghost predicate Precedes(t: Text, values: seq<string>, u: string, v: string) {
    exists p: nat, q: nat :: p < q && FirstAt(t, values, u, p) && FirstAt(t, values, v, q)
  }

  lemma {:induction false} NormalizeRefsOrder(t: Text, values: seq<string>, i: nat, j: nat)
    requires i < j < |NormalizeRefs(t, values)|
    ensures Precedes(t, values, NormalizeRefs(t, values)[i], NormalizeRefs(t, values)[j])
    decreases |values|
  {
    var n := |values| - 1;
    var front, r := values[..n], NormalizeRefs(t, values);
    var before := NormalizeRefs(t, front);
    if j < |before| {
      NormalizeRefsOrder(t, front, i, j);
      var p: nat, q: nat :| p < q && FirstAt(t, front, before[i], p) && FirstAt(t, front, before[j], q);
      assert FirstAt(t, values, r[i], p) && FirstAt(t, values, r[j], q);
    } else {
      var p := NormalizeRefsFirst(t, front, i);
      assert FirstAt(t, values, r[i], p);
      NormalizeRefsMember(t, front, r[j]);
      assert FirstAt(t, values, r[j], n);
    }
  }

  lemma {:induction false} NormalizeRefsFirst(t: Text, values: seq<string>, i: nat) returns (p: nat)
    requires i < |NormalizeRefs(t, values)|
    ensures FirstAt(t, values, NormalizeRefs(t, values)[i], p)
    decreases |values|
  {
    var n := |values| - 1;
    var front, r := values[..n], NormalizeRefs(t, values);
    if i < |NormalizeRefs(t, front)| {
      p := NormalizeRefsFirst(t, front, i);
    } else {
      NormalizeRefsMember(t, front, r[i]);
      p := n;
    }
  }

  /** `refs` are the given references, trimmed and in lower case: blanks dropped, each text once, in the order
      in which it is first given. */
  ghost predicate RefsOf(t: Text, given: seq<string>, refs: seq<string>) {
    && "" !in refs
    && (forall i, j :: 0 <= i < j < |refs| ==> refs[i] != refs[j])
    && (forall v :: v in refs <==> v != "" && exists p: nat :: FirstAt(t, given, v, p))
    && (forall i, j :: 0 <= i < j < |refs| ==> Precedes(t, given, refs[i], refs[j]))
  }

  lemma NormalizeRefsAreRefs(t: Text, given: seq<string>)
    ensures RefsOf(t, given, NormalizeRefs(t, given))
  {
    var r := NormalizeRefs(t, given);
    NormalizeRefsDistinct(t, given);
    forall i, j | 0 <= i < j < |r|
      ensures Precedes(t, given, r[i], r[j])
    {
      NormalizeRefsOrder(t, given, i, j);
    }
    forall v
      ensures v in r <==> v != "" && exists p: nat :: FirstAt(t, given, v, p)
    {
      NormalizeRefsMember(t, given, v);
      if v in r {
        var i :| 0 <= i < |r| && r[i] == v;
        var p := NormalizeRefsFirst(t, given, i);
      }
    }
  }

  /** The step stored for a given one: name and agent cleaned up, input text as given, the condition kept with
      its value, references as given, and the aggregation, "single" where one source needs none. */
  ghost predicate StoredAs(t: Text, given: StepDef, stored: StepDef) {
    && stored.id == t.lower(t.trim(given.id)) && stored.agentId == t.trim(given.agentId) && stored.input == given.input
    && RefsOf(t, given.dependsOn, stored.dependsOn) && RefsOf(t, given.inputFrom, stored.inputFrom)
    && (stored.condition.Some? <==> given.condition.Some?)
    && (given.condition.Some? ==>
          && stored.condition.value.source == t.lower(t.trim(given.condition.value.source))
          && stored.condition.value.operator == t.lower(t.trim(given.condition.value.operator))
          && stored.condition.value.value == given.condition.value.value)
    && var folded := t.lower(t.trim(given.aggregation));
       stored.aggregation == if |stored.inputFrom| == 1 && folded == "" then "single" else folded
  }

  /** A new workflow for the given definition: nothing has happened to any step yet. */
  ghost predicate StoredFor(t: Text, given: Definition, w: Workflow) {
    && w.def.id == t.trim(given.id) && w.def.input == given.input && |w.def.steps| == |given.steps| == |w.steps|
    && (forall i :: 0 <= i < |given.steps| ==> StoredAs(t, given.steps[i], w.def.steps[i]))
    && w.status == WfPending && w.error == "" && w.version == 1
    && (forall i :: 0 <= i < |w.steps| ==> w.steps[i] == StepState(StepPending, "", "", ""))
  }

  lemma NormalizedIsStoredFor(t: Text, given: Definition)
    ensures StoredFor(t, given, NewWorkflow(WithDefaults(Normalize(t, given))))
  {
    var w := NewWorkflow(WithDefaults(Normalize(t, given)));
    forall i | 0 <= i < |given.steps|
      ensures StoredAs(t, given.steps[i], w.def.steps[i])
    {
      NormalizeRefsAreRefs(t, given.steps[i].dependsOn);
      NormalizeRefsAreRefs(t, given.steps[i].inputFrom);
    }
  }

  method NormalizeWorkflowRefs(t: Text, values: seq<string>) returns (r: seq<string>)
    ensures r == NormalizeRefs(t, values)
  {
    r := [];
    var seen: set<string> := {};
    for i := 0 to |values|
      invariant r == NormalizeRefs(t, values[..i])
      invariant seen == set v | v in r
    {
      assert values[..i + 1][..i] == values[..i];
      var value := Fold(t, values[i]);
      if value != "" && value !in seen {
        seen := seen + {value};
        r := r + [value];
      }
    }
    assert values[..|values|] == values;
  }

  /** `validateStep` as a loop over the references; `ids` is the index built by the caller. */
  method ValidateStep(t: Text, def: Definition, index: nat, ids: map<string, nat>) returns (ok: bool)
    requires index < |def.steps|
    requires forall id :: id in ids <==> Find(def.steps, id) >= 0
    ensures ok <==> StepOk(t, def, def.steps[index])
  {
    var step := def.steps[index];
    var dependencies: set<string> := {};
    for i := 0 to |step.dependsOn|
      invariant dependencies == set k | 0 <= k < i :: step.dependsOn[k]
      invariant forall k :: 0 <= k < i ==> step.dependsOn[k] != step.id && step.dependsOn[k] in ids
    {
      if step.dependsOn[i] == step.id || step.dependsOn[i] !in ids {
        assert step.dependsOn[i] in step.dependsOn;
        return false;
      }
      dependencies := dependencies + {step.dependsOn[i]};
    }
    assert forall d :: d in dependencies <==> d in step.dependsOn;
    if step.condition.Some? {
      var c := step.condition.value;
      if c.source == "" || !KnownOperator(c.operator) {
        return false;
      }
      if c.source != WORKFLOW_INPUT && (c.source !in ids || c.source !in dependencies) {
        return false;
      }
    }
    if step.inputFrom == [] {
      return t.trim(step.input) != "" && step.aggregation == "";
    }
    if t.trim(step.input) != "" {
      return false;
    }
    for i := 0 to |step.inputFrom|
      invariant forall k :: 0 <= k < i ==> SourceOk(t, def, step, step.inputFrom[k])
    {
      var source := step.inputFrom[i];
      if (source == WORKFLOW_INPUT && t.trim(def.input) == "") || (source != WORKFLOW_INPUT && (source !in ids || source !in dependencies)) {
        assert source in step.inputFrom && !SourceOk(t, def, step, source);
        return false;
      }
    }
    if |step.inputFrom| == 1 {
      return step.aggregation == "" || step.aggregation == SINGLE;
    }
    return step.aggregation == JSON_ARRAY;
  }

  method ValidateWorkflowDag(steps: seq<StepDef>, ids: map<string, nat>) returns (accepted: bool)
    requires AllRefsKnown(steps)
    requires forall id :: Find(steps, id) >= 0 ==> id in ids && ids[id] == Find(steps, id)
    ensures accepted <==> Dag.Acyclic(GraphOf(steps))
    ensures accepted <==> !exists p :: Dag.Cycle(GraphOf(steps), p)
  {
    var g: Dag.Graph := [];
    for i := 0 to |steps|
      invariant |g| == i && g == GraphOf(steps)[..i]
    {
      var parents: seq<nat> := [];
      for k := 0 to |steps[i].dependsOn|
        invariant parents == Indices(steps, steps[i].dependsOn)[..k]
      {
        assert steps[i].dependsOn[k] in steps[i].dependsOn;
        parents := parents + [ids[steps[i].dependsOn[k]]];
      }
      assert parents == Indices(steps, steps[i].dependsOn);
      g := g + [parents];
    }
    assert g == GraphOf(steps);
    accepted := Dag.Validate(g);
  }

  datatype InitError =
    | MissingId
    | WrongStepCount
    | BadStep(index: nat)
    | DuplicateStep(index: nat)
    | InvalidStep(index: nat)
    | DependencyCycle

  /** The first pass: rewrite every step in place and index the names. */
  method NormalizeSteps(t: Text, def: Definition) returns (r: Result<(seq<StepDef>, map<string, nat>), InitError>)
    ensures var n := Normalize(t, def).steps;
            && (r.Ok? <==> UniqueIds(n) && forall i :: 0 <= i < |n| ==> ValidStepId(n[i].id) && n[i].agentId != "")
            && (r.Ok? ==> r.value.0 == n && forall id :: if Find(n, id) >= 0 then id in r.value.1 && r.value.1[id] == Find(n, id) else id !in r.value.1)
            && (r.Err? ==> !r.error.DependencyCycle?)
  {
    ghost var n := Normalize(t, def).steps;
    var steps: seq<StepDef> := [];
    var ids: map<string, nat> := map[];
    for i := 0 to |def.steps|
      invariant |steps| == i && steps == n[..i]
      invariant forall k :: 0 <= k < i ==> ValidStepId(n[k].id) && n[k].agentId != ""
      invariant Indexed(n, i, ids)
    {
      var s := def.steps[i];
      var id := t.lower(t.trim(s.id));
      var agentId := t.trim(s.agentId);
      if !ValidStepId(id) {
        assert n[i].id == id;
        return Err(BadStep(i));
      }
      if id in ids {
        assert n[ids[id]].id == n[i].id;
        return Err(DuplicateStep(i));
      }
      if agentId == "" {
        assert n[i].agentId == agentId;
        return Err(BadStep(i));
      }
      var step := RewriteStep(t, s);
      assert n[i] == step;
      IndexMore(n, i, ids);
      steps := steps + [step];
      ids := ids[id := i];
    }
    IndexIsFind(n, ids);
    r := Ok((steps, ids));
  }

  method RewriteStep(t: Text, s: StepDef) returns (r: StepDef)
    ensures r == NormalizeStep(t, s)
  {
    var dependsOn := NormalizeWorkflowRefs(t, s.dependsOn);
    var inputFrom := NormalizeWorkflowRefs(t, s.inputFrom);
    var condition := None;
    if s.condition.Some? {
      condition := Some(Condition(t.lower(t.trim(s.condition.value.source)), t.lower(t.trim(s.condition.value.operator)), s.condition.value.value));
    }
    r := StepDef(t.lower(t.trim(s.id)), t.trim(s.agentId), s.input, inputFrom, t.lower(t.trim(s.aggregation)), dependsOn, condition);
  }

  /** `ids` maps the names of the first `n` steps to their positions. */
  predicate Indexed(steps: seq<StepDef>, n: nat, ids: map<string, nat>)
    requires n <= |steps|
  {
    && (forall k :: 0 <= k < n ==> steps[k].id in ids && ids[steps[k].id] == k)
    && (forall id <- ids :: ids[id] < n && steps[ids[id]].id == id)
  }

  lemma IndexMore(steps: seq<StepDef>, n: nat, ids: map<string, nat>)
    requires n < |steps| && Indexed(steps, n, ids) && steps[n].id !in ids
    ensures Indexed(steps, n + 1, ids[steps[n].id := n])
  {
  }

  lemma IndexIsFind(steps: seq<StepDef>, ids: map<string, nat>)
    requires Indexed(steps, |steps|, ids)
    ensures UniqueIds(steps)
    ensures forall id :: if Find(steps, id) >= 0 then id in ids && ids[id] == Find(steps, id) else id !in ids
  {
    forall id
      ensures if Find(steps, id) >= 0 then id in ids && ids[id] == Find(steps, id) else id !in ids
    {
      if Find(steps, id) >= 0 {
        assert steps[Find(steps, id)].id == id;
      }
    }
  }

  /** The second pass: check every step against the index and fill in the default aggregation. */
  method ValidateSteps(t: Text, def: Definition, ids: map<string, nat>) returns (bad: Option<nat>, defaulted: Definition)
    requires forall id :: id in ids <==> Find(def.steps, id) >= 0
    ensures bad.None? ==> defaulted == WithDefaults(def) && forall k :: 0 <= k < |def.steps| ==> StepOk(t, def, def.steps[k])
    ensures bad.Some? ==> bad.value < |def.steps| && !StepOk(t, def, def.steps[bad.value])
                          && forall k :: 0 <= k < bad.value ==> StepOk(t, def, def.steps[k])
  {
    var steps: seq<StepDef> := [];
    for i := 0 to |def.steps|
      invariant forall k :: 0 <= k < i ==> StepOk(t, def, def.steps[k])
      invariant |steps| == i && forall k :: 0 <= k < i ==> steps[k] == WithDefault(def.steps[k])
    {
      var ok := ValidateStep(t, def, i, ids);
      if !ok {
        return Some(i), def;
      }
      steps := steps + [WithDefault(def.steps[i])];
    }
    assert def.(steps := steps) == WithDefaults(def);
    return None, def.(steps := steps);
  }

  /** Admission: exactly the admissible normalized definitions are accepted, and the result is the
      pending workflow with every step fresh; a cycle error is given only when there is a cycle. */
  method InitializeForCreate(t: Text, def: Definition) returns (r: Result<Workflow, InitError>)
    ensures r.Ok? <==> Admissible(t, Normalize(t, def))
    ensures r.Ok? ==> r.value == NewWorkflow(WithDefaults(Normalize(t, def)))
    ensures r.Ok? ==> StoredFor(t, def, r.value)
    ensures r == Err(DependencyCycle) ==>
              AllRefsKnown(Normalize(t, def).steps) && exists p :: Dag.Cycle(GraphOf(Normalize(t, def).steps), p)
  {
    ghost var n := Normalize(t, def);
    var id := t.trim(def.id);
    if id == "" {
      return Err(MissingId);
    }
    if |def.steps| == 0 || |def.steps| > MAX_STEPS {
      return Err(WrongStepCount);
    }
    var first := NormalizeSteps(t, def);
    if first.Err? {
      return Err(first.error);
    }
    var (steps, ids) := first.value;
    var whole := Definition(id, def.input, steps);
    assert whole == n;
    var bad, defaulted := ValidateSteps(t, whole, ids);
    if bad.Some? {
      return Err(InvalidStep(bad.value));
    }
    assert AllRefsKnown(n.steps);
    var acyclic := ValidateWorkflowDag(steps, ids);
    if !acyclic {
      return Err(DependencyCycle);
    }
    NormalizedIsStoredFor(t, def);
    r := Ok(NewWorkflow(defaulted));
  }

  // ----- what admission gives the scheduler --------------------------------------------------------

  /** The facts about a stored definition that execution relies on. */
  predicate StepRunnable(def: Definition, s: StepDef) {
    && ValidStepId(s.id)
    && KnownRefs(def.steps, s.dependsOn)
    && (s.condition.Some? ==> s.condition.value.source == WORKFLOW_INPUT || s.condition.value.source in s.dependsOn)
    && (forall source <- s.inputFrom :: source == WORKFLOW_INPUT || source in s.dependsOn)
    && (|s.inputFrom| > 1 ==> s.aggregation == JSON_ARRAY)
  }

  ghost predicate Runnable(def: Definition) {
    && |def.steps| >= 1
    && UniqueIds(def.steps)
    && (forall i :: 0 <= i < |def.steps| ==> StepRunnable(def, def.steps[i]))
    && AllRefsKnown(def.steps)
    && Dag.Acyclic(GraphOf(def.steps))
  }

  lemma {:induction false} FindDependsOnIds(a: seq<StepDef>, b: seq<StepDef>, id: string)
    requires |a| == |b| && forall i :: 0 <= i < |a| ==> a[i].id == b[i].id
    ensures Find(a, id) == Find(b, id)
  {
    if a == [] {
    } else {
      FindDependsOnIds(a[1..], b[1..], id);
    }
  }

  /** Every admitted definition, as stored, can be executed. */
  lemma AdmittedIsRunnable(t: Text, def: Definition)
    requires Admissible(t, def)
    ensures Runnable(WithDefaults(def))
  {
    var d := WithDefaults(def);
    forall id
      ensures Find(d.steps, id) == Find(def.steps, id)
    {
      FindDependsOnIds(d.steps, def.steps, id);
    }
    forall i | 0 <= i < |d.steps|
      ensures StepRunnable(d, d.steps[i])
    {
      assert StepOk(t, def, def.steps[i]);
    }
    assert AllRefsKnown(d.steps);
    forall i | 0 <= i < |d.steps|
      ensures GraphOf(d.steps)[i] == GraphOf(def.steps)[i]
    {
      assert Indices(d.steps, d.steps[i].dependsOn) == Indices(def.steps, def.steps[i].dependsOn);
    }
    assert GraphOf(d.steps) == GraphOf(def.steps);
  }
}
