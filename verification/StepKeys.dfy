/** The idempotency key that binds a run to a workflow step (internal/workflow/manager.go). */
module StepKeys {
  import opened Workflows

  function StepKey(workflowId: string, stepId: string): string {
    "workflow:" + workflowId + ":step:" + stepId
  }

  /** Two texts that each end in a colon followed by a colon-free name agree on both parts. */
  lemma SplitAtLastColon(a: string, x: string, b: string, y: string)
    requires ':' !in x && ':' !in y
    requires a + [':'] + x == b + [':'] + y
    ensures a == b && x == y
  {
    var s := a + [':'] + x;
    assert s[|a|] == ':' && s[|b|] == ':';
    assert |a| == |b|;
    assert s[..|a|] == a && s[..|b|] == b;
    assert s[|a| + 1..] == x && s[|b| + 1..] == y;
  }

  lemma ValidIdHasNoColon(s: string)
    requires ValidStepId(s)
    ensures ':' !in s
  {
  }

  /** Distinct (workflow, step) pairs have distinct keys: workflow names may contain colons, but
      step names cannot. */
  lemma StepKeysAreDistinct(w1: string, s1: string, w2: string, s2: string)
    requires ValidStepId(s1) && ValidStepId(s2)
    ensures StepKey(w1, s1) == StepKey(w2, s2) <==> w1 == w2 && s1 == s2
  {
    if StepKey(w1, s1) == StepKey(w2, s2) {
      ValidIdHasNoColon(s1);
      ValidIdHasNoColon(s2);
      var a, b := "workflow:" + w1 + ":step", "workflow:" + w2 + ":step";
      assert StepKey(w1, s1) == a + [':'] + s1;
      assert StepKey(w2, s2) == b + [':'] + s2;
      SplitAtLastColon(a, s1, b, s2);
      assert |w1| == |w2|;
      assert a[9..9 + |w1|] == w1 && b[9..9 + |w2|] == w2;
    }
  }

  /** The restriction on step names is needed: with a colon in a step name two different pairs can
      share a key. */
  lemma ColonInStepNameCollides()
    ensures StepKey("a", "b:step:c") == StepKey("a:step:b", "c")
    ensures !ValidStepId("b:step:c") && ValidStepId("c")
  {
    assert "b:step:c"[1] == ':';
  }
}
