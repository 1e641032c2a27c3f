/** What the router's choice means: least loaded, the same for every input order, exact errors. */
module RouterTheorems {
  import opened Basics
  import opened Agents
  import opened Ranking
  import opened Router

  predicate DistinctIds(xs: seq<Ranked>) {
    forall i, j :: 0 <= i < j < |xs| ==> xs[i].agent.id != xs[j].agent.id
  }

  predicate DistinctAgents(agents: seq<Agent>) {
    forall i, j :: 0 <= i < j < |agents| ==> agents[i].id != agents[j].id
  }

  /** Agents with room whose cross products fit in 64 bits, pair by pair. */
  predicate Comparable(xs: seq<Ranked>) {
    && (forall x <- xs :: HasRoom(x))
    && (forall x, y | x in xs && y in xs && x != y :: ProductsFit(x, y))
  }

  predicate Sorted(xs: seq<Ranked>) {
    forall i, j :: 0 <= i < j < |xs| ==> Before(xs[i], xs[j])
  }

  // ----- sorting --------------------------------------------------------------------------------------

  lemma {:induction false} InsertPermutes(xs: seq<Ranked>, x: Ranked)
    ensures multiset(Insert(xs, x)) == multiset(xs) + multiset{x}
    decreases |xs|
  {
    if xs == [] {
    } else {
      assert xs == [xs[0]] + xs[1..];
      InsertPermutes(xs[1..], x);
    }
  }

  lemma {:induction false} SortPermutes(xs: seq<Ranked>)
    ensures multiset(Sort(xs)) == multiset(xs)
    decreases |xs|
  {
    if xs == [] {
    } else {
      var front := xs[..|xs| - 1];
      assert xs == front + [xs[|xs| - 1]];
      SortPermutes(front);
      InsertPermutes(Sort(front), xs[|xs| - 1]);
    }
  }

  lemma PrependSorts(head: Ranked, rest: seq<Ranked>)
    requires Sorted(rest) && forall y <- rest :: Before(head, y)
    ensures Sorted([head] + rest)
  {
  }

  lemma PrecedesAll(x: Ranked, xs: seq<Ranked>)
    requires xs != [] && Sorted(xs) && HasRoom(x) && (forall y <- xs :: HasRoom(y)) && Before(x, xs[0])
    ensures forall y <- xs :: Before(x, y)
  {
    forall y | y in xs
      ensures Before(x, y)
    {
      var i :| 0 <= i < |xs| && xs[i] == y;
      if i > 0 {
        BeforeIsTransitive(x, xs[0], y);
      }
    }
  }

  lemma {:induction false} InsertSorts(xs: seq<Ranked>, x: Ranked)
    requires Comparable(xs) && HasRoom(x) && Sorted(xs)
    requires forall y <- xs :: y.agent.id != x.agent.id && ProductsFit(x, y)
    ensures Sorted(Insert(xs, x))
    decreases |xs|
  {
    if xs == [] {
    } else {
      var head, rest := xs[0], xs[1..];
      assert head in xs;
      LessIsBefore(x, head);
      if Less(x, head) {
        PrecedesAll(x, xs);
        PrependSorts(x, xs);
      } else {
        BeforeIsTotal(x, head);
        InsertSorts(rest, x);
        InsertPermutes(rest, x);
        assert forall y <- Insert(rest, x) :: y in multiset(rest) + multiset{x};
        PrependSorts(head, Insert(rest, x));
      }
    }
  }

  lemma SortMembers(xs: seq<Ranked>, y: Ranked)
    ensures y in Sort(xs) <==> y in xs
  {
    SortPermutes(xs);
    assert y in multiset(Sort(xs)) <==> y in multiset(xs);
  }

  lemma SortComparable(xs: seq<Ranked>)
    requires Comparable(xs)
    ensures Comparable(Sort(xs))
  {
    forall y: Ranked { SortMembers(xs, y); }
  }

  /** The last of several comparable agents can be compared with the others. */
  lemma LastComparable(xs: seq<Ranked>)
    requires xs != [] && Comparable(xs) && DistinctIds(xs)
    ensures var front, last := xs[..|xs| - 1], xs[|xs| - 1];
            && Comparable(front) && DistinctIds(front) && HasRoom(last)
            && forall y <- front :: y.agent.id != last.agent.id && ProductsFit(last, y)
  {
    var front, last := xs[..|xs| - 1], xs[|xs| - 1];
    assert last in xs && forall y <- front :: y in xs;
    forall y <- front
      ensures y.agent.id != last.agent.id
    {
      var k :| 0 <= k < |front| && front[k] == y;
      assert xs[k] == y;
    }
  }

  lemma {:induction false} SortSorts(xs: seq<Ranked>)
    requires Comparable(xs) && DistinctIds(xs)
    ensures Sorted(Sort(xs))
    decreases |xs|
  {
    if xs == [] {
    } else {
      var front, last := xs[..|xs| - 1], xs[|xs| - 1];
      LastComparable(xs);
      SortSorts(front);
      SortComparable(front);
      forall y <- Sort(front)
        ensures y.agent.id != last.agent.id && ProductsFit(last, y)
      {
        SortMembers(front, y);
      }
      InsertSorts(Sort(front), last);
    }
  }

  /** Sorted lists with the same elements start with the same one. */
  lemma SameHead(xs: seq<Ranked>, ys: seq<Ranked>)
    requires Sorted(xs) && Sorted(ys) && xs != [] && ys != [] && xs[0] in ys && ys[0] in xs
    ensures xs[0] == ys[0]
  {
    BeforeIsTotal(xs[0], ys[0]);
  }

  /** A sequence in `Before` order is determined by its elements: any correct sort gives this one. */
  lemma {:induction false} SortedIsUnique(xs: seq<Ranked>, ys: seq<Ranked>)
    requires Sorted(xs) && Sorted(ys) && multiset(xs) == multiset(ys)
    ensures xs == ys
    decreases |xs|
  {
    assert |xs| == |multiset(xs)| == |multiset(ys)| == |ys|;
    if xs == [] {
    } else {
      assert xs[0] in multiset(ys) && ys[0] in multiset(xs);
      SameHead(xs, ys);
      TailMultiset(xs);
      TailMultiset(ys);
      SortedIsUnique(xs[1..], ys[1..]);
      assert xs == [xs[0]] + xs[1..] && ys == [ys[0]] + ys[1..];
    }
  }

  lemma TailMultiset(xs: seq<Ranked>)
    requires xs != []
    ensures multiset(xs[1..]) == multiset(xs) - multiset{xs[0]}
  {
    assert xs == [xs[0]] + xs[1..];
  }

  // ----- candidates -----------------------------------------------------------------------------------

  lemma {:induction false} MatchingMeaning(agents: seq<Agent>, required: seq<string>, a: Agent)
    ensures multiset(Matching(agents, required))[a] == if Declares(a, required) then multiset(agents)[a] else 0
    decreases |agents|
  {
    if agents == [] {
    } else {
      var front := agents[..|agents| - 1];
      assert agents == front + [agents[|agents| - 1]];
      MatchingMeaning(front, required, a);
    }
  }

  lemma {:induction false} AvailableMeaning(agents: seq<Agent>, loads: map<string, int>, a: Agent)
    ensures multiset(Available(agents, loads))[Rank(a, loads)] == if Full(a, loads) then 0 else multiset(agents)[a]
    decreases |agents|
  {
    if agents == [] {
    } else {
      var front := agents[..|agents| - 1];
      assert agents == front + [agents[|agents| - 1]];
      AvailableMeaning(front, loads, a);
    }
  }

  lemma {:induction false} AvailableAreRanks(agents: seq<Agent>, loads: map<string, int>, x: Ranked)
    requires x in Available(agents, loads)
    ensures x == Rank(x.agent, loads) && x.agent in agents && !Full(x.agent, loads)
    decreases |agents|
  {
    var front, last := agents[..|agents| - 1], agents[|agents| - 1];
    if x in Available(front, loads) {
      AvailableAreRanks(front, loads, x);
    } else {
      assert x == Rank(last, loads);
    }
  }

  /** The agents of a tier that declare everything and have room. */
  predicate Candidate(agents: seq<Agent>, required: seq<string>, loads: map<string, int>, a: Agent) {
    a in agents && Declares(a, required) && !Full(a, loads)
  }

  /** What the registry and the run counter guarantee of a tier: identifiers are distinct, capacities are
      validated to be non-negative, counts are counts. Beyond that, the cross products of the candidates
      fit in 64 bits. */
  ghost predicate TierOk(agents: seq<Agent>, required: seq<string>, loads: map<string, int>) {
    && DistinctAgents(agents)
    && (forall a <- agents :: 0 <= a.maxConcurrency && Load(loads, a.id) >= 0)
    && (forall a, b | Candidate(agents, required, loads, a) && Candidate(agents, required, loads, b) && a != b ::
          ProductsFit(Rank(a, loads), Rank(b, loads)))
  }

  lemma CandidateIff(agents: seq<Agent>, required: seq<string>, loads: map<string, int>, a: Agent)
    ensures Candidate(agents, required, loads, a) <==> Rank(a, loads) in Sort(Available(Matching(agents, required), loads))
  {
    var matching := Matching(agents, required);
    MatchingMeaning(agents, required, a);
    AvailableMeaning(matching, loads, a);
    SortPermutes(Available(matching, loads));
    assert a in multiset(agents) <==> a in agents;
    assert Rank(a, loads) in multiset(Sort(Available(matching, loads))) <==> Rank(a, loads) in Sort(Available(matching, loads));
  }

  lemma AvailableIsCandidate(agents: seq<Agent>, required: seq<string>, loads: map<string, int>, x: Ranked)
    requires x in Available(Matching(agents, required), loads)
    ensures x == Rank(x.agent, loads) && Candidate(agents, required, loads, x.agent)
  {
    AvailableAreRanks(Matching(agents, required), loads, x);
    MatchingMeaning(agents, required, x.agent);
    assert x.agent in multiset(Matching(agents, required));
  }

  lemma TierSorted(agents: seq<Agent>, required: seq<string>, loads: map<string, int>)
    requires TierOk(agents, required, loads)
    ensures Sorted(Sort(Available(Matching(agents, required), loads)))
  {
    var avail := Available(Matching(agents, required), loads);
    forall x | x in avail
      ensures x == Rank(x.agent, loads) && Candidate(agents, required, loads, x.agent)
    {
      AvailableIsCandidate(agents, required, loads, x);
    }
    DistinctAvailable(agents, required, loads);
    assert Comparable(avail);
    SortSorts(avail);
  }

  lemma {:induction false} DistinctMatching(agents: seq<Agent>, required: seq<string>)
    requires DistinctAgents(agents)
    ensures DistinctAgents(Matching(agents, required))
    decreases |agents|
  {
    if agents == [] {
    } else {
      var front, last := agents[..|agents| - 1], agents[|agents| - 1];
      DistinctMatching(front, required);
      forall a | a in Matching(front, required)
        ensures a.id != last.id
      {
        MatchingMeaning(front, required, a);
        assert a in multiset(Matching(front, required));
        assert a in multiset(front);
      }
    }
  }

  lemma {:induction false} DistinctRanks(agents: seq<Agent>, loads: map<string, int>)
    requires DistinctAgents(agents)
    ensures DistinctIds(Available(agents, loads))
    decreases |agents|
  {
    if agents == [] {
    } else {
      var front, last := agents[..|agents| - 1], agents[|agents| - 1];
      DistinctRanks(front, loads);
      forall x | x in Available(front, loads)
        ensures x.agent.id != last.id
      {
        AvailableAreRanks(front, loads, x);
      }
    }
  }

  lemma DistinctAvailable(agents: seq<Agent>, required: seq<string>, loads: map<string, int>)
    requires DistinctAgents(agents)
    ensures DistinctIds(Available(Matching(agents, required), loads))
  {
    DistinctMatching(agents, required);
    DistinctRanks(Matching(agents, required), loads);
  }

  // ----- the theorems ---------------------------------------------------------------------------------

  /** The capacity that counts: an unset limit is one run. */
  function RoomFor(a: Agent): int {
    if a.maxConcurrency == 0 then 1 else a.maxConcurrency
  }

  /** The agent declares everything and has fewer active runs than its capacity. */
  predicate Fits(tier: seq<Agent>, required: seq<string>, counts: map<string, int>, a: Agent) {
    a in tier && (forall c <- required :: c in a.capabilities) && Load(counts, a.id) < RoomFor(a)
  }

  /** `a` is to be preferred to `b`: the smaller share of its capacity in use; then the higher priority; then the
      more room left; then the older; then the first by name. */
  predicate Preferred(a: Agent, b: Agent, counts: map<string, int>) {
    var used, used' := Load(counts, a.id) * RoomFor(b), Load(counts, b.id) * RoomFor(a);
    var left, left' := RoomFor(a) - Load(counts, a.id), RoomFor(b) - Load(counts, b.id);
    && used <= used'
    && (used == used' ==> a.priority >= b.priority)
    && (used == used' && a.priority == b.priority ==> left >= left')
    && (used == used' && a.priority == b.priority && left == left' ==> a.createdAt <= b.createdAt)
    && (used == used' && a.priority == b.priority && left == left' && a.createdAt == b.createdAt ==> DictionaryBefore(a.id, b.id))
  }

  /** The chosen agent fits, in the first tier in which any does, and is preferred to every other that fits. */
  lemma ChoiceIsLeastLoaded(required: seq<string>, healthy: seq<Agent>, unknown: seq<Agent>, loads: map<string, int>, later: map<string, int>, other: Agent)
    requires TierOk(healthy, required, loads) && TierOk(unknown, required, later)
    ensures var r := Route(required, healthy, unknown, loads, later);
            r.Ok? ==>
              var d := r.value;
              var tier := if d.health.Healthy? then healthy else unknown;
              var counts := if d.health.Healthy? then loads else later;
              && Fits(tier, required, counts, d.chosen.agent)
              && d.chosen.active == Load(counts, d.chosen.agent.id) && d.chosen.capacity == RoomFor(d.chosen.agent)
              && d.required == required && d.candidateCount == |set a | a in tier && Fits(tier, required, counts, a)|
              && (d.health.Unknown? ==> !Fits(healthy, required, loads, other))
              && (Fits(tier, required, counts, other) && other != d.chosen.agent ==> Preferred(d.chosen.agent, other, counts))
  {
    var r := Route(required, healthy, unknown, loads, later);
    if r.Ok? {
      var best := r.value.chosen.agent;
      if r.value.health.Healthy? {
        CandidatesCounted(healthy, required, loads);
        HeadIsBest(healthy, required, loads, other);
        if Fits(healthy, required, loads, other) && other != best {
          BeforeIsPreferred(best, other, loads);
        }
      } else {
        CandidatesCounted(unknown, required, later);
        HeadIsBest(unknown, required, later, other);
        if Fits(unknown, required, later, other) && other != best {
          BeforeIsPreferred(best, other, later);
        }
        CandidateIff(healthy, required, loads, other);
      }
    }
  }

  function Fitting(tier: seq<Agent>, required: seq<string>, loads: map<string, int>): set<Agent> {
    set a | a in tier && Declares(a, required) && !Full(a, loads)
  }

  lemma CandidatesCounted(tier: seq<Agent>, required: seq<string>, loads: map<string, int>)
    requires DistinctAgents(tier)
    ensures |Sort(Available(Matching(tier, required), loads))| == |set a | a in tier && Fits(tier, required, loads, a)|
  {
    var avail := Available(Matching(tier, required), loads);
    SortPermutes(avail);
    assert |Sort(avail)| == |multiset(Sort(avail))| == |multiset(avail)| == |avail|;
    AvailableCounted(tier, required, loads);
    assert Fitting(tier, required, loads) == (set a | a in tier && Fits(tier, required, loads, a));
  }

  lemma OneMoreFitting(front: seq<Agent>, last: Agent, required: seq<string>, loads: map<string, int>)
    requires last !in front
    ensures |Fitting(front + [last], required, loads)|
         == |Fitting(front, required, loads)| + if Declares(last, required) && !Full(last, loads) then 1 else 0
  {
    assert Fitting(front + [last], required, loads)
        == Fitting(front, required, loads) + if Declares(last, required) && !Full(last, loads) then {last} else {};
  }

  lemma OneMoreAvailable(front: seq<Agent>, last: Agent, required: seq<string>, loads: map<string, int>)
    ensures |Available(Matching(front + [last], required), loads)|
         == |Available(Matching(front, required), loads)| + if Declares(last, required) && !Full(last, loads) then 1 else 0
  {
    assert (front + [last])[..|front|] == front;
    var matching := Matching(front, required);
    assert (matching + [last])[..|matching|] == matching;
  }

  lemma {:induction false} AvailableCounted(tier: seq<Agent>, required: seq<string>, loads: map<string, int>)
    requires DistinctAgents(tier)
    ensures |Available(Matching(tier, required), loads)| == |Fitting(tier, required, loads)|
    decreases |tier|
  {
    if tier == [] {
    } else {
      var front, last := tier[..|tier| - 1], tier[|tier| - 1];
      assert tier == front + [last];
      AvailableCounted(front, required, loads);
      assert last !in front;
      OneMoreFitting(front, last, required, loads);
      OneMoreAvailable(front, last, required, loads);
    }
  }

  lemma BeforeIsPreferred(a: Agent, b: Agent, counts: map<string, int>)
    requires Before(Rank(a, counts), Rank(b, counts))
    ensures Preferred(a, b, counts)
  {
    StringLessMeaning(a.id, b.id);
  }

  lemma HeadIsBest(tier: seq<Agent>, required: seq<string>, loads: map<string, int>, other: Agent)
    requires TierOk(tier, required, loads) && Sort(Available(Matching(tier, required), loads)) != []
    ensures var best := Sort(Available(Matching(tier, required), loads))[0];
            && Candidate(tier, required, loads, best.agent) && best == Rank(best.agent, loads)
            && (Candidate(tier, required, loads, other) && other != best.agent ==> Before(best, Rank(other, loads)))
  {
    var avail := Available(Matching(tier, required), loads);
    var ranked := Sort(avail);
    TierSorted(tier, required, loads);
    SortPermutes(avail);
    assert ranked[0] in multiset(ranked);
    AvailableAreRanks(Matching(tier, required), loads, ranked[0]);
    CandidateIff(tier, required, loads, ranked[0].agent);
    CandidateIff(tier, required, loads, other);
  }

  /** The errors are exact: no candidate when nobody in either tier declares everything, no capacity when
      somebody does but all of those are full. */
  lemma ErrorsAreExact(required: seq<string>, healthy: seq<Agent>, unknown: seq<Agent>, loads: map<string, int>, later: map<string, int>)
    ensures var r := Route(required, healthy, unknown, loads, later);
            && (r == Err(NoCandidate) <==> (forall a <- healthy :: !Declares(a, required)) && forall a <- unknown :: !Declares(a, required))
            && (r == Err(NoCapacity) <==> && r != Err(NoCandidate)
                                          && (forall a <- healthy :: Declares(a, required) ==> Full(a, loads))
                                          && (forall a <- unknown :: Declares(a, required) ==> Full(a, later)))
  {
    TierErrors(required, healthy, loads);
    TierErrors(required, unknown, later);
  }

  lemma TierErrors(required: seq<string>, tier: seq<Agent>, loads: map<string, int>)
    ensures Matching(tier, required) == [] <==> forall a <- tier :: !Declares(a, required)
    ensures Sort(Available(Matching(tier, required), loads)) == [] <==> forall a <- tier :: Declares(a, required) ==> Full(a, loads)
  {
    var matching := Matching(tier, required);
    var avail := Available(matching, loads);
    SortPermutes(avail);
    forall a | a in tier
      ensures Declares(a, required) ==> a in multiset(matching)
      ensures Declares(a, required) && !Full(a, loads) ==> Rank(a, loads) in Sort(avail)
    {
      MatchingMeaning(tier, required, a);
      CandidateIff(tier, required, loads, a);
    }
    if matching != [] {
      MatchingMeaning(tier, required, matching[0]);
      assert matching[0] in multiset(matching);
      assert matching[0] in multiset(tier);
    }
    if Sort(avail) != [] {
      var x := Sort(avail)[0];
      assert x in multiset(Sort(avail));
      AvailableAreRanks(matching, loads, x);
      CandidateIff(tier, required, loads, x.agent);
    }
  }

  /** The decision does not depend on the order in which agents are listed. */
  lemma RouteIgnoresOrder(required: seq<string>, healthy: seq<Agent>, unknown: seq<Agent>, healthy': seq<Agent>, unknown': seq<Agent>,
                          loads: map<string, int>, later: map<string, int>)
    requires TierOk(healthy, required, loads) && TierOk(unknown, required, later)
    requires multiset(healthy) == multiset(healthy') && multiset(unknown) == multiset(unknown')
    ensures Route(required, healthy, unknown, loads, later) == Route(required, healthy', unknown', loads, later)
  {
    TierIgnoresOrder(required, healthy, healthy', loads);
    TierIgnoresOrder(required, unknown, unknown', later);
  }

  lemma TierIgnoresOrder(required: seq<string>, tier: seq<Agent>, tier': seq<Agent>, loads: map<string, int>)
    requires TierOk(tier, required, loads) && multiset(tier) == multiset(tier')
    ensures Sort(Available(Matching(tier, required), loads)) == Sort(Available(Matching(tier', required), loads))
    ensures Matching(tier, required) == [] <==> Matching(tier', required) == []
  {
    var m, m' := Matching(tier, required), Matching(tier', required);
    forall a: Agent
      ensures multiset(m)[a] == multiset(m')[a]
    {
      MatchingMeaning(tier, required, a);
      MatchingMeaning(tier', required, a);
    }
    assert multiset(m) == multiset(m');
    assert |m| == |multiset(m)| == |multiset(m')| == |m'|;
    AvailableIgnoresOrder(m, m', loads);
    SortPermutes(Available(m, loads));
    SortPermutes(Available(m', loads));
    TierSorted(tier, required, loads);
    TierOkIgnoresOrder(required, tier, tier', loads);
    TierSorted(tier', required, loads);
    SortedIsUnique(Sort(Available(m, loads)), Sort(Available(m', loads)));
  }

  lemma TierOkIgnoresOrder(required: seq<string>, tier: seq<Agent>, tier': seq<Agent>, loads: map<string, int>)
    requires TierOk(tier, required, loads) && multiset(tier) == multiset(tier')
    ensures TierOk(tier', required, loads)
  {
    DistinctIgnoresOrder(tier, tier');
    forall a: Agent
      ensures a in tier <==> a in tier'
    {
      assert a in multiset(tier) <==> a in multiset(tier');
    }
  }

  lemma DistinctIgnoresOrder(tier: seq<Agent>, tier': seq<Agent>)
    requires DistinctAgents(tier) && multiset(tier) == multiset(tier')
    ensures DistinctAgents(tier')
  {
    forall i, j | 0 <= i < j < |tier'|
      ensures tier'[i].id != tier'[j].id
    {
      assert tier'[i] in multiset(tier) && tier'[j] in multiset(tier);
      var p :| 0 <= p < |tier| && tier[p] == tier'[i];
      var q :| 0 <= q < |tier| && tier[q] == tier'[j];
      if tier'[i] == tier'[j] {
        ListedOnce(tier, tier'[i]);
        ListedTwice(tier', i, j);
      }
    }
  }

  lemma {:induction false} ListedOnce(agents: seq<Agent>, a: Agent)
    requires DistinctAgents(agents)
    ensures multiset(agents)[a] <= 1
    decreases |agents|
  {
    if agents == [] {
    } else {
      var front, last := agents[..|agents| - 1], agents[|agents| - 1];
      assert agents == front + [last];
      ListedOnce(front, a);
      if a == last {
        assert a !in front;
        assert multiset(front)[a] == 0;
      }
    }
  }

  lemma ListedTwice(agents: seq<Agent>, i: nat, j: nat)
    requires i < j < |agents| && agents[i] == agents[j]
    ensures multiset(agents)[agents[i]] >= 2
  {
    assert agents == agents[..j] + agents[j..];
    assert agents[..j][i] == agents[i] && agents[j..][0] == agents[i];
    assert agents[i] in multiset(agents[..j]) && agents[i] in multiset(agents[j..]);
  }

  lemma AvailableIgnoresOrder(m: seq<Agent>, m': seq<Agent>, loads: map<string, int>)
    requires multiset(m) == multiset(m')
    ensures multiset(Available(m, loads)) == multiset(Available(m', loads))
  {
    forall x: Ranked
      ensures multiset(Available(m, loads))[x] == multiset(Available(m', loads))[x]
    {
      if x == Rank(x.agent, loads) {
        AvailableMeaning(m, loads, x.agent);
        AvailableMeaning(m', loads, x.agent);
      } else {
        NotARank(m, loads, x);
        NotARank(m', loads, x);
      }
    }
  }

  lemma NotARank(m: seq<Agent>, loads: map<string, int>, x: Ranked)
    requires x != Rank(x.agent, loads)
    ensures multiset(Available(m, loads))[x] == 0
  {
    if x in Available(m, loads) {
      AvailableAreRanks(m, loads, x);
    }
    assert x !in multiset(Available(m, loads));
  }
}
