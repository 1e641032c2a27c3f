/** Choosing an agent for a set of required capabilities (internal/router/router.go). The two lists the
    discovery service returns, one per health tier, and the active-run counts are inputs. */
module Router {
  import opened Basics
  import opened Agents
  import opened Ranking

  datatype RouteError = InvalidRequirements | NoCapacity | NoCandidate

  datatype Health = Healthy | Unknown

  datatype Decision = Decision(chosen: Ranked, required: seq<string>, health: Health, candidateCount: nat)

  // ----- requirements ---------------------------------------------------------------------------------

  /** First occurrences, in order. */
  function Dedupe(names: seq<string>): (r: seq<string>) {
    if names == [] then []
    else
      var rest := Dedupe(names[..|names| - 1]);
      if names[|names| - 1] in rest then rest else rest + [names[|names| - 1]]
  }

  lemma {:induction false} DedupeMeaning(names: seq<string>)
    ensures forall c :: c in Dedupe(names) <==> c in names
    ensures forall i, j :: 0 <= i < j < |Dedupe(names)| ==> Dedupe(names)[i] != Dedupe(names)[j]
    ensures names != [] ==> Dedupe(names) != [] && Dedupe(names)[0] == names[0]
  {
    if names == [] {
    } else {
      var front := names[..|names| - 1];
      DedupeMeaning(front);
      assert names == front + [names[|names| - 1]];
    }
  }

  /** `given[i]` is the canonical form of the i-th requirement, `None` when it has none. */
  method NormalizeRequirements(given: seq<Option<string>>) returns (r: Result<seq<string>, RouteError>)
    ensures r == Err(InvalidRequirements) <==> given == [] || None in given
    ensures r.Ok? <==> !(given == [] || None in given)
    ensures r.Ok? ==> exists names: seq<string> :: Canonical(given, names) && r.value == Dedupe(names)
  {
    if |given| == 0 {
      return Err(InvalidRequirements);
    }
    var result: seq<string>, seen: set<string> := [], {};
    ghost var names: seq<string> := [];
    for i := 0 to |given|
      invariant Canonical(given[..i], names)
      invariant result == Dedupe(names) && seen == set c | c in names
    {
      if given[i].None? {
        return Err(InvalidRequirements);
      }
      DedupeMeaning(names);
      names := names + [given[i].value];
      assert names[..|names| - 1] == names[..i];
      assert given[..i + 1] == given[..i] + [given[i]];
      if given[i].value !in seen {
        seen := seen + {given[i].value};
        result := result + [given[i].value];
      }
    }
    assert given[..|given|] == given;
    r := Ok(result);
  }

  predicate Canonical(given: seq<Option<string>>, names: seq<string>) {
    |names| == |given| && forall i :: 0 <= i < |given| ==> given[i] == Some(names[i])
  }

  // ----- candidates -----------------------------------------------------------------------------------

  predicate Declares(agent: Agent, required: seq<string>) {
    forall c <- required :: c in agent.capabilities
  }

  function Matching(agents: seq<Agent>, required: seq<string>): seq<Agent> {
    if agents == [] then []
    else
      var rest := Matching(agents[..|agents| - 1], required);
      if Declares(agents[|agents| - 1], required) then rest + [agents[|agents| - 1]] else rest
  }

  method MatchingAll(agents: seq<Agent>, required: seq<string>) returns (result: seq<Agent>)
    ensures result == Matching(agents, required)
  {
    result := [];
    for i := 0 to |agents|
      invariant result == Matching(agents[..i], required)
    {
      var declared: set<string> := {};
      for k := 0 to |agents[i].capabilities|
        invariant declared == set c | c in agents[i].capabilities[..k]
      {
        declared := declared + {agents[i].capabilities[k]};
      }
      assert agents[i].capabilities[..|agents[i].capabilities|] == agents[i].capabilities;
      var matches := true;
      var k := 0;
      while k < |required| && matches
        invariant 0 <= k <= |required|
        invariant matches <==> forall j :: 0 <= j < k ==> required[j] in agents[i].capabilities
      {
        if required[k] !in declared {
          matches := false;
        }
        k := k + 1;
      }
      assert agents[..i + 1][..i] == agents[..i];
      if matches {
        result := result + [agents[i]];
      }
    }
    assert agents[..|agents|] == agents;
  }

  function Load(loads: map<string, int>, id: string): int {
    if id in loads then loads[id] else 0
  }

  function Rank(agent: Agent, loads: map<string, int>): Ranked {
    Ranked(agent, Load(loads, agent.id), if agent.maxConcurrency == 0 then 1 else agent.maxConcurrency)
  }

  predicate Full(agent: Agent, loads: map<string, int>) {
    Rank(agent, loads).active >= Rank(agent, loads).capacity
  }

  function Available(agents: seq<Agent>, loads: map<string, int>): seq<Ranked> {
    if agents == [] then []
    else
      var rest := Available(agents[..|agents| - 1], loads);
      var last := agents[|agents| - 1];
      if Full(last, loads) then rest else rest + [Rank(last, loads)]
  }

  /** An insertion sort by the comparison, in place of the library's sort. */
  function Sort(xs: seq<Ranked>): seq<Ranked> {
    if xs == [] then [] else Insert(Sort(xs[..|xs| - 1]), xs[|xs| - 1])
  }

  function Insert(xs: seq<Ranked>, x: Ranked): seq<Ranked> {
    if xs == [] then [x]
    else if Less(x, xs[0]) then [x] + xs
    else [xs[0]] + Insert(xs[1..], x)
  }

  method RankAvailable(agents: seq<Agent>, loads: map<string, int>) returns (result: seq<Ranked>)
    ensures result == Sort(Available(agents, loads))
  {
    result := [];
    for i := 0 to |agents|
      invariant result == Available(agents[..i], loads)
    {
      assert agents[..i + 1][..i] == agents[..i];
      var capacity := agents[i].maxConcurrency;
      if capacity == 0 {
        capacity := 1;
      }
      var active := if agents[i].id in loads then loads[agents[i].id] else 0;
      if active < capacity {
        result := result + [Ranked(agents[i], active, capacity)];
      }
    }
    assert agents[..|agents|] == agents;
    result := Sort(result);
  }

  /** The decision for one health tier, `None` when nobody in it has room. */
  function InTier(agents: seq<Agent>, required: seq<string>, loads: map<string, int>, health: Health): Option<Decision> {
    var ranked := Sort(Available(Matching(agents, required), loads));
    if ranked == [] then None else Some(Decision(ranked[0], required, health, |ranked|))
  }

  /** `loads` counts the active runs of the healthy tier, `later` those of the fallback tier, which are
      counted afresh. */
  function Route(required: seq<string>, healthy: seq<Agent>, unknown: seq<Agent>, loads: map<string, int>, later: map<string, int>): Result<Decision, RouteError> {
    var first := InTier(healthy, required, loads, Healthy);
    var second := InTier(unknown, required, later, Unknown);
    if first.Some? then Ok(first.value)
    else if second.Some? then Ok(second.value)
    else if Matching(healthy, required) != [] || Matching(unknown, required) != [] then Err(NoCapacity)
    else Err(NoCandidate)
  }

  method Select(given: seq<Option<string>>, healthy: seq<Agent>, unknown: seq<Agent>, loads: map<string, int>, later: map<string, int>)
    returns (r: Result<Decision, RouteError>)
    ensures given == [] || None in given ==> r == Err(InvalidRequirements)
    ensures !(given == [] || None in given) ==>
              exists names: seq<string> :: Canonical(given, names) && r == Route(Dedupe(names), healthy, unknown, loads, later)
  {
    var normalized := NormalizeRequirements(given);
    if normalized.Err? {
      return Err(normalized.error);
    }
    var sawSaturated := false;
    var tiers := [(Healthy, healthy, loads), (Unknown, unknown, later)];
    for t := 0 to 2
      invariant t >= 1 ==> InTier(healthy, normalized.value, loads, Healthy).None?
      invariant t == 2 ==> InTier(unknown, normalized.value, later, Unknown).None?
      invariant sawSaturated <==> exists u :: 0 <= u < t && Matching(tiers[u].1, normalized.value) != []
    {
      var candidates := MatchingAll(tiers[t].1, normalized.value);
      if |candidates| == 0 {
        continue;
      }
      var eligible := RankAvailable(candidates, tiers[t].2);
      if |eligible| == 0 {
        sawSaturated := true;
        continue;
      }
      return Ok(Decision(eligible[0], normalized.value, tiers[t].0, |eligible|));
    }
    assert sawSaturated <==> Matching(tiers[0].1, normalized.value) != [] || Matching(tiers[1].1, normalized.value) != [];
    r := Err(if sawSaturated then NoCapacity else NoCandidate);
  }
}
