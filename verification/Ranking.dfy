/** The order in which the router ranks agents with spare capacity (internal/router/router.go). */
module Ranking {
  import opened Basics
  import opened Agents

  datatype Ranked = Ranked(agent: Agent, active: int, capacity: int)

  /** Two's-complement truncation of a product to a signed 64-bit integer. */
  function Wrap64(x: int): int {
    (x + 0x8000_0000_0000_0000) % 0x1_0000_0000_0000_0000 - 0x8000_0000_0000_0000
  }

  /** Go's byte-wise string order; on UTF-8 text it is the code-point order. */
  predicate StringLess(s: string, t: string) {
    t != [] && (s == [] || s[0] < t[0] || (s[0] == t[0] && StringLess(s[1..], t[1..])))
  }

  /** The tie-breaks after the load: priority, remaining capacity, age, identifier. */
  predicate TieLess(l: Ranked, r: Ranked) {
    if l.agent.priority != r.agent.priority then l.agent.priority > r.agent.priority
    else if l.capacity - l.active != r.capacity - r.active then l.capacity - l.active > r.capacity - r.active
    else if l.agent.createdAt != r.agent.createdAt then l.agent.createdAt < r.agent.createdAt
    else StringLess(l.agent.id, r.agent.id)
  }

  /** The comparison function as written, with 64-bit products. */
  predicate Less(l: Ranked, r: Ranked) {
    var leftLoad := Wrap64(l.active * r.capacity);
    var rightLoad := Wrap64(r.active * l.capacity);
    if leftLoad != rightLoad then leftLoad < rightLoad else TieLess(l, r)
  }

  /** What it is meant to be: smaller active/capacity first, ties broken by `TieLess`. */
  predicate Before(l: Ranked, r: Ranked) {
    if l.active * r.capacity != r.active * l.capacity then l.active * r.capacity < r.active * l.capacity else TieLess(l, r)
  }

  /** An agent with room, as `rankAvailable` keeps it. */
  predicate HasRoom(x: Ranked) {
    0 <= x.active < x.capacity
  }

  // ----- 64-bit products ------------------------------------------------------------------------------

  const TWO_TO_THE_63: int := 0x8000_0000_0000_0000

  /** Both cross products of the pair fit in a signed 64-bit integer. */
  predicate ProductsFit(l: Ranked, r: Ranked) {
    l.active * r.capacity < TWO_TO_THE_63 && r.active * l.capacity < TWO_TO_THE_63
  }

  /** The comparison as written is the intended one for every pair whose products fit. */
  lemma LessIsBefore(l: Ranked, r: Ranked)
    requires HasRoom(l) && HasRoom(r) && ProductsFit(l, r)
    ensures Less(l, r) == Before(l, r)
  {
    ProductsGrow(0, l.active, 0, r.capacity);
    ProductsGrow(0, r.active, 0, l.capacity);
  }

  lemma ProductsGrow(a: int, b: int, c: int, d: int)
    requires 0 <= a <= b && 0 <= c <= d
    ensures 0 <= a * c <= b * d
  {
    assert a * c <= b * c;
    assert b * c <= b * d;
  }

  predicate Within(x: Ranked, load: int, bound: int) {
    HasRoom(x) && x.active <= load && x.capacity <= bound
  }

  /** The comparison is the intended one for all agents with at most `load` active runs and a capacity of
      at most `bound`. */
  ghost predicate CorrectWithin(load: int, bound: int) {
    forall l: Ranked, r: Ranked | Within(l, load, bound) && Within(r, load, bound) :: Less(l, r) == Before(l, r)
  }

  function Blank(active: int, capacity: int): Ranked {
    Ranked(Agent("", "", "", "", "", "", "", [], "", capacity, 0, ZERO_TIME, ZERO_TIME, 1), active, capacity)
  }

  /** An idle agent against a busy one whose product overflows once: the busy one wins. */
  lemma OverflowMisranks(active: int, capacity: int)
    requires 0 < active < capacity && TWO_TO_THE_63 <= active * capacity < 2 * TWO_TO_THE_63
    ensures var busy, idle := Blank(active, capacity), Blank(0, capacity); Less(busy, idle) && !Before(busy, idle)
  {
  }

  /** If the largest product overflows, some product of the class overflows exactly once. */
  lemma FirstOverflow(load: int, bound: int) returns (active: int, capacity: int)
    requires 0 <= load < bound && load * bound >= TWO_TO_THE_63
    ensures 0 < active <= load && active < capacity <= bound
    ensures TWO_TO_THE_63 <= active * capacity < 2 * TWO_TO_THE_63
  {
    if bound >= TWO_TO_THE_63 {
      active, capacity := 1, TWO_TO_THE_63;
    } else {
      active := LeastAbove(load, bound);
      capacity := bound;
    }
  }

  /** The least number of active runs whose product with `bound` overflows. */
  lemma {:induction false} LeastAbove(load: int, bound: int) returns (active: int)
    requires 0 <= load < bound < TWO_TO_THE_63 && load * bound >= TWO_TO_THE_63
    ensures 0 < active <= load && TWO_TO_THE_63 <= active * bound < 2 * TWO_TO_THE_63
    decreases load
  {
    assert (load - 1) * bound == load * bound - bound;
    if (load - 1) * bound < TWO_TO_THE_63 {
      active := load;
    } else {
      active := LeastAbove(load - 1, bound);
    }
  }

  /** The exact range of the 64-bit comparison: it is right for every class of agents whose largest product
      fits, and for no larger one. */
  lemma CorrectWithinIff(load: int, bound: int)
    requires 0 <= load < bound
    ensures CorrectWithin(load, bound) <==> load * bound < TWO_TO_THE_63
  {
    if load * bound < TWO_TO_THE_63 {
      forall l: Ranked, r: Ranked | Within(l, load, bound) && Within(r, load, bound)
        ensures Less(l, r) == Before(l, r)
      {
        ProductsGrow(l.active, load, r.capacity, bound);
        ProductsGrow(r.active, load, l.capacity, bound);
        LessIsBefore(l, r);
      }
    } else {
      var active, capacity := FirstOverflow(load, bound);
      OverflowMisranks(active, capacity);
      assert Within(Blank(active, capacity), load, bound) && Within(Blank(0, capacity), load, bound);
    }
  }

  /** A failing input with few runs: 3 active of 10 is ranked before 4 active of 2^62. */
  lemma HugeCapacityMisranks()
    ensures var small, huge := Blank(3, 10), Blank(4, 0x4000_0000_0000_0000);
            HasRoom(small) && HasRoom(huge) && Less(small, huge) && Before(huge, small)
  {
  }

  // ----- strict total order ---------------------------------------------------------------------------

  lemma {:induction false} StringLessTotal(s: string, t: string)
    ensures s != t <==> StringLess(s, t) || StringLess(t, s)
    ensures !(StringLess(s, t) && StringLess(t, s))
    decreases |s|
  {
    if s != [] && t != [] && s[0] == t[0] {
      StringLessTotal(s[1..], t[1..]);
      assert s == [s[0]] + s[1..] && t == [t[0]] + t[1..];
    }
  }

  lemma {:induction false} StringLessTransitive(s: string, t: string, u: string)
    requires StringLess(s, t) && StringLess(t, u)
    ensures StringLess(s, u)
    decreases |s|
  {
    if s != [] && s[0] == t[0] == u[0] {
      StringLessTransitive(s[1..], t[1..], u[1..]);
    }
  }

  /** `s` comes before `t` in a dictionary: it is a proper prefix, or smaller at the first difference. */
  predicate DictionaryBefore(s: string, t: string) {
    exists k :: && 0 <= k <= |s| && k < |t| && s[..k] == t[..k]
                && (k == |s| || s[k] < t[k])
  }

  lemma {:induction false} StringLessMeaning(s: string, t: string)
    ensures StringLess(s, t) <==> DictionaryBefore(s, t)
    decreases |s|
  {
    if t == [] {
    } else if s == [] || s[0] < t[0] {
      assert s[..0] == t[..0];
    } else if s[0] == t[0] {
      StringLessMeaning(s[1..], t[1..]);
      if StringLess(s, t) {
        var k :| && 0 <= k <= |s[1..]| && k < |t[1..]| && s[1..][..k] == t[1..][..k] && (k == |s[1..]| || s[1..][k] < t[1..][k]);
        assert s[..k + 1] == [s[0]] + s[1..][..k] && t[..k + 1] == [t[0]] + t[1..][..k];
      }
      if k :| && 0 <= k <= |s| && k < |t| && s[..k] == t[..k] && (k == |s| || s[k] < t[k]) {
        assert s[1..][..k - 1] == s[..k][1..] && t[1..][..k - 1] == t[..k][1..];
      }
    } else {
      assert forall k :: 0 < k <= |s| && k <= |t| ==> s[..k][0] == s[0] && t[..k][0] == t[0];
    }
  }

  lemma TieLessTransitive(x: Ranked, y: Ranked, z: Ranked)
    requires TieLess(x, y) && TieLess(y, z)
    ensures TieLess(x, z)
  {
    if StringLess(x.agent.id, y.agent.id) && StringLess(y.agent.id, z.agent.id) {
      StringLessTransitive(x.agent.id, y.agent.id, z.agent.id);
    }
  }

  /** Comparing fractions by cross products is transitive, strictly if one of the steps is. */
  lemma FractionsTransitive(a: int, c: int, a': int, c': int, a'': int, c'': int)
    requires 0 < c && 0 < c' && 0 < c''
    requires a * c' <= a' * c && a' * c'' <= a'' * c'
    ensures a * c'' <= a'' * c
    ensures a * c'' == a'' * c ==> a * c' == a' * c && a' * c'' == a'' * c'
  {
    var d, e := a' * c - a * c', a'' * c' - a' * c'';
    calc {
      c' * (a'' * c - a * c'');
      (a'' * c') * c - (a * c') * c'';
      (a' * c'' + e) * c - (a' * c - d) * c'';
      { assert (a' * c'') * c == (a' * c) * c''; }
      e * c + d * c'';
    }
    assert e * c >= 0 && d * c'' >= 0;
    if a * c'' == a'' * c {
      assert e * c == 0 && d * c'' == 0;
      assert e == 0 && d == 0;
    }
  }

  /** `Before` is a strict total order on agents with room and distinct identifiers. */
  lemma BeforeIsTotal(x: Ranked, y: Ranked)
    ensures !(Before(x, y) && Before(y, x))
    ensures x.agent.id != y.agent.id ==> Before(x, y) || Before(y, x)
  {
    StringLessTotal(x.agent.id, y.agent.id);
  }

  lemma BeforeIsTransitive(x: Ranked, y: Ranked, z: Ranked)
    requires HasRoom(x) && HasRoom(y) && HasRoom(z) && Before(x, y) && Before(y, z)
    ensures Before(x, z)
  {
    FractionsTransitive(x.active, x.capacity, y.active, y.capacity, z.active, z.capacity);
    if x.active * z.capacity == z.active * x.capacity {
      TieLessTransitive(x, y, z);
    }
  }
}
