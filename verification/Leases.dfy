/** The in-memory lease coordinator (internal/coordination/memory.go). */
module Leases {
  import opened Basics

  datatype Lock = Lock(token: int, expiresAt: Time)

  /** The mutex-protected state: one lock per key, and the last token handed out. */
  datatype Table = Table(locks: map<string, Lock>, next: int)

  datatype LeaseError = ContextDone | InvalidTtl | LeaseLost

  predicate Live(t: Table, key: string, now: Time) {
    key in t.locks && now < t.locks[key].expiresAt
  }

  /** `None` inside `Ok` means the key is held by someone else. */
  function AcquireReply(t: Table, done: bool, key: string, ttl: int, now: Time): Result<Option<int>, LeaseError> {
    if done then Err(ContextDone)
    else if ttl <= 0 then Err(InvalidTtl)
    else if Live(t, key, now) then Ok(None)
    else Ok(Some(t.next + 1))
  }

  function AfterAcquire(t: Table, done: bool, key: string, ttl: int, now: Time): Table {
    if AcquireReply(t, done, key, ttl, now) == Ok(Some(t.next + 1))
    then Table(t.locks[key := Lock(t.next + 1, now + ttl)], t.next + 1)
    else t
  }

  /** The clock is read twice: `now` for the check, `later` for the new expiry. */
  function RenewReply(t: Table, done: bool, key: string, token: int, ttl: int, now: Time): Option<LeaseError> {
    if done then Some(ContextDone)
    else if ttl <= 0 then Some(InvalidTtl)
    else if Live(t, key, now) && t.locks[key].token == token then None
    else Some(LeaseLost)
  }

  function AfterRenew(t: Table, done: bool, key: string, token: int, ttl: int, now: Time, later: Time): Table {
    match RenewReply(t, done, key, token, ttl, now)
    case None => t.(locks := t.locks[key := Lock(token, later + ttl)])
    case Some(LeaseLost) => AfterRelease(t, key, token)
    case Some(_) => t
  }

  function AfterRelease(t: Table, key: string, token: int): Table {
    if key in t.locks && t.locks[key].token == token then t.(locks := t.locks - {key}) else t
  }

  class Coordinator {
    var locks: map<string, Lock>
    var next: int

    constructor ()
      ensures State() == Table(map[], 0)
    {
      locks, next := map[], 0;
    }

    function State(): Table
      reads this
    {
      Table(locks, next)
    }

    method Acquire(done: bool, key: string, ttl: int, now: Time) returns (r: Result<Option<Lease>, LeaseError>)
      modifies this
      ensures State() == AfterAcquire(old(State()), done, key, ttl, now)
      ensures match AcquireReply(old(State()), done, key, ttl, now)
              case Err(e) => r == Err(e)
              case Ok(None) => r == Ok(None)
              case Ok(Some(token)) =>
                && r.Ok? && r.value.Some? && fresh(r.value.value)
                && r.value.value.coordinator == this && r.value.value.key == key
                && r.value.value.token == token && !r.value.value.released
    {
      if done {
        return Err(ContextDone);
      }
      if ttl <= 0 {
        return Err(InvalidTtl);
      }
      if key in locks && now < locks[key].expiresAt {
        return Ok(None);
      }
      next := next + 1;
      locks := locks[key := Lock(next, now + ttl)];
      var lease := new Lease(this, key, next);
      r := Ok(Some(lease));
    }
  }

  class Lease {
    const coordinator: Coordinator
    const key: string
    const token: int
    var released: bool

    constructor (coordinator: Coordinator, key: string, token: int)
      ensures this.coordinator == coordinator && this.key == key && this.token == token && !released
    {
      this.coordinator, this.key, this.token := coordinator, key, token;
      released := false;
    }

    method Renew(done: bool, ttl: int, now: Time, later: Time) returns (err: Option<LeaseError>)
      modifies coordinator
      ensures err == RenewReply(old(coordinator.State()), done, key, token, ttl, now)
      ensures coordinator.State() == AfterRenew(old(coordinator.State()), done, key, token, ttl, now, later)
    {
      if done {
        return Some(ContextDone);
      }
      if ttl <= 0 {
        return Some(InvalidTtl);
      }
      if key !in coordinator.locks || coordinator.locks[key].token != token || !(now < coordinator.locks[key].expiresAt) {
        if key in coordinator.locks && coordinator.locks[key].token == token {
          coordinator.locks := coordinator.locks - {key};
        }
        return Some(LeaseLost);
      }
      var current := coordinator.locks[key].(expiresAt := later + ttl);
      coordinator.locks := coordinator.locks[key := current];
      err := None;
    }

    /** `Release` acts once; a second call does nothing. */
    method Release()
      modifies this, coordinator
      ensures released
      ensures coordinator.State() == if old(released) then old(coordinator.State()) else AfterRelease(old(coordinator.State()), key, token)
    {
      if !released {
        released := true;
        if key in coordinator.locks && coordinator.locks[key].token == token {
          coordinator.locks := coordinator.locks - {key};
        }
      }
    }
  }

  // ----- histories -----------------------------------------------------------------------------------------

  /** One call on the coordinator or on a lease, with the readings of its clock. */
  datatype Op =
    | DoAcquire(key: string, ttl: int)
    | DoRenew(key: string, token: int, ttl: int)
    | DoRelease(key: string, token: int)

  datatype Event = Event(op: Op, done: bool, now: Time, later: Time)

  function Apply(t: Table, ev: Event): Table {
    match ev.op
    case DoAcquire(key, ttl) => AfterAcquire(t, ev.done, key, ttl, ev.now)
    case DoRenew(key, token, ttl) => AfterRenew(t, ev.done, key, token, ttl, ev.now, ev.later)
    case DoRelease(key, token) => AfterRelease(t, key, token)
  }

  function Exec(t: Table, evs: seq<Event>): Table
    decreases |evs|
  {
    if evs == [] then t else Exec(Apply(t, evs[0]), evs[1..])
  }

  /** `ev` is an acquisition of `key` that succeeds in state `t`; its token is then `t.next + 1`. */
  predicate Grants(t: Table, ev: Event, key: string) {
    ev.op.DoAcquire? && ev.op.key == key && AcquireReply(t, ev.done, key, ev.op.ttl, ev.now) == Ok(Some(t.next + 1))
  }

  predicate RenewsOk(t: Table, ev: Event, key: string, token: int) {
    ev.op.DoRenew? && ev.op.key == key && ev.op.token == token && RenewReply(t, ev.done, key, token, ev.op.ttl, ev.now).None?
  }

  /** Tokens in the table were handed out, and no two keys share one. */
  predicate Issued(t: Table) {
    && t.next >= 0
    && (forall k <- t.locks :: 1 <= t.locks[k].token <= t.next)
    && (forall j, k | j in t.locks && k in t.locks && j != k :: t.locks[j].token != t.locks[k].token)
  }

  lemma {:induction false} ExecIssued(t: Table, evs: seq<Event>)
    requires Issued(t)
    ensures Issued(Exec(t, evs)) && t.next <= Exec(t, evs).next
    decreases |evs|
  {
    if evs == [] {
    } else {
      assert Issued(Apply(t, evs[0]));
      ExecIssued(Apply(t, evs[0]), evs[1..]);
    }
  }

  /** Tokens are never reused, on any key: a later acquisition gets a strictly greater one. */
  lemma TokensStrictlyIncrease(t: Table, early: Event, between: seq<Event>, late: Event, key: string, other: string)
    requires Issued(t) && Grants(t, early, key) && Grants(Exec(Apply(t, early), between), late, other)
    ensures var u := Exec(Apply(t, early), between);
            && Apply(t, early).locks[key].token == t.next + 1
            && Apply(u, late).locks[other].token == u.next + 1
            && t.next + 1 < u.next + 1
  {
    GrantIssued(t, early, key);
    ExecIssued(Apply(t, early), between);
  }

  /** The lock of `key`, if there is one, was granted at or after token `floor`. */
  predicate AtLeast(t: Table, key: string, floor: int) {
    t.next >= floor && (key in t.locks ==> t.locks[key].token >= floor)
  }

  lemma {:induction false} FloorStays(t: Table, evs: seq<Event>, key: string, floor: int)
    requires AtLeast(t, key, floor)
    ensures AtLeast(Exec(t, evs), key, floor)
    decreases |evs|
  {
    if evs == [] {
    } else {
      assert AtLeast(Apply(t, evs[0]), key, floor);
      FloorStays(Apply(t, evs[0]), evs[1..], key, floor);
    }
  }

  /** Once a key has been granted to someone else, the older lease can never change the table again, at
      any later point: its renewals are refused and its release does nothing. */
  lemma StaleLeaseIsPowerless(t: Table, grant: Event, later: seq<Event>, stale: Event, key: string, token: int)
    requires Grants(t, grant, key) && token <= t.next
    requires stale.op.key == key && !stale.op.DoAcquire? && stale.op.token == token
    ensures var u := Exec(Apply(t, grant), later); Apply(u, stale) == u && !RenewsOk(u, stale, key, token)
  {
    FloorStays(Apply(t, grant), later, key, t.next + 1);
  }

  lemma {:induction false} ExecAppend(t: Table, first: seq<Event>, second: seq<Event>)
    ensures Exec(t, first + second) == Exec(Exec(t, first), second)
    decreases |first|
  {
    if first == [] {
      assert first + second == second;
    } else {
      assert (first + second)[1..] == first[1..] + second;
      ExecAppend(Apply(t, first[0]), first[1..], second);
    }
  }

  lemma SplitAt(t: Table, evs: seq<Event>, i: nat)
    requires i < |evs|
    ensures Exec(t, evs) == Exec(Apply(Exec(t, evs[..i]), evs[i]), evs[i + 1..])
  {
    assert evs == evs[..i] + evs[i..];
    ExecAppend(t, evs[..i], evs[i..]);
    assert evs[i..][0] == evs[i] && evs[i..][1..] == evs[i + 1..];
  }

  lemma GrantIssued(t: Table, grant: Event, key: string)
    requires Issued(t) && Grants(t, grant, key)
    ensures Issued(Apply(t, grant)) && Apply(t, grant).next == t.next + 1
  {
  }

  /** A successful renewal proves that no other acquisition of the key succeeded since the lease was
      granted: at no point of the history in between was there one. */
  lemma RenewProvesNoTakeover(t: Table, grant: Event, between: seq<Event>, renew: Event, key: string, i: nat)
    requires Issued(t) && Grants(t, grant, key)
    requires RenewsOk(Exec(Apply(t, grant), between), renew, key, t.next + 1)
    requires i < |between|
    ensures !Grants(Exec(Apply(t, grant), between[..i]), between[i], key)
  {
    var u := Exec(Apply(t, grant), between[..i]);
    SplitAt(Apply(t, grant), between, i);
    GrantIssued(t, grant, key);
    ExecIssued(Apply(t, grant), between[..i]);
    if Grants(u, between[i], key) {
      StaleLeaseIsPowerless(u, between[i], between[i + 1..], renew, key, t.next + 1);
    }
  }

  /** The clock never goes back, starting from `from`. */
  predicate ClockRuns(from: Time, evs: seq<Event>)
    decreases |evs|
  {
    evs == [] || (from <= evs[0].now <= evs[0].later && ClockRuns(evs[0].later, evs[1..]))
  }

  /** The expiry its holder knows for a lease that expired at `expiry` when the history began: the one
      set by its last successful renewal. */
  function KnownExpiry(t: Table, evs: seq<Event>, key: string, token: int, expiry: Time): Time
    decreases |evs|
  {
    if evs == [] then expiry
    else KnownExpiry(Apply(t, evs[0]), evs[1..], key, token,
                     if RenewsOk(t, evs[0], key, token) then evs[0].later + evs[0].op.ttl else expiry)
  }

  function ClockAfter(from: Time, evs: seq<Event>): Time {
    if evs == [] then from else evs[|evs| - 1].later
  }

  /** The lease is either the one in the table, or it has run out and is gone for good. */
  predicate HeldOrLapsed(t: Table, key: string, token: int, expiry: Time, now: Time) {
    || (key in t.locks && t.locks[key] == Lock(token, expiry))
    || (expiry <= now && token <= t.next && (key in t.locks ==> t.locks[key].token != token))
  }

  predicate NeverReleased(evs: seq<Event>, key: string, token: int) {
    forall k :: 0 <= k < |evs| ==> evs[k].op != DoRelease(key, token)
  }

  lemma StepHeldOrLapsed(t: Table, ev: Event, key: string, token: int, expiry: Time, from: Time)
    requires Issued(t) && HeldOrLapsed(t, key, token, expiry, from) && from <= ev.now <= ev.later
    requires ev.op != DoRelease(key, token)
    ensures HeldOrLapsed(Apply(t, ev), key, token,
                         if RenewsOk(t, ev, key, token) then ev.later + ev.op.ttl else expiry, ev.later)
  {
    var u := Apply(t, ev);
    if ev.op.key != key {
      assert (key in u.locks <==> key in t.locks) && (key in t.locks ==> u.locks[key] == t.locks[key]);
    }
  }

  lemma {:induction false} LeaseHeldOrLapsed(t: Table, evs: seq<Event>, key: string, token: int, expiry: Time, from: Time)
    requires Issued(t) && HeldOrLapsed(t, key, token, expiry, from) && ClockRuns(from, evs)
    requires NeverReleased(evs, key, token)
    ensures HeldOrLapsed(Exec(t, evs), key, token, KnownExpiry(t, evs, key, token, expiry), ClockAfter(from, evs))
    decreases |evs|
  {
    if evs == [] {
    } else {
      var ev := evs[0];
      var known := if RenewsOk(t, ev, key, token) then ev.later + ev.op.ttl else expiry;
      StepHeldOrLapsed(t, ev, key, token, expiry, from);
      ExecIssued(t, [ev]);
      assert Exec(t, [ev]) == Apply(t, ev);
      LeaseHeldOrLapsed(Apply(t, ev), evs[1..], key, token, known, ev.later);
      assert |evs| > 1 ==> evs[|evs| - 1] == evs[1..][|evs| - 2];
    }
  }

  /** At most one unexpired lease per key: when a second acquisition of a key succeeds and the first
      lease was not released in between, the first one had run out, counting all its renewals. */
  lemma AtMostOneUnexpired(t: Table, grant: Event, between: seq<Event>, second: Event, key: string)
    requires Issued(t) && Grants(t, grant, key) && Grants(Exec(Apply(t, grant), between), second, key)
    requires ClockRuns(grant.now, between) && ClockAfter(grant.now, between) <= second.now
    requires NeverReleased(between, key, t.next + 1)
    ensures KnownExpiry(Apply(t, grant), between, key, t.next + 1, grant.now + grant.op.ttl) <= second.now
  {
    GrantIssued(t, grant, key);
    LeaseHeldOrLapsed(Apply(t, grant), between, key, t.next + 1, grant.now + grant.op.ttl, grant.now);
  }

  // ----- the next caller ------------------------------------------------------------------------------

  /** No acquisition of the key succeeds in this history. */
  predicate NoGrants(t: Table, evs: seq<Event>, key: string)
    decreases |evs|
  {
    evs == [] || (!Grants(t, evs[0], key) && NoGrants(Apply(t, evs[0]), evs[1..], key))
  }

  /** The key is locked by this lease or not at all. */
  predicate OnlyBy(t: Table, key: string, token: int, expiry: Time) {
    key in t.locks ==> t.locks[key] == Lock(token, expiry)
  }

  lemma StepOnlyBy(t: Table, ev: Event, key: string, token: int, expiry: Time)
    requires OnlyBy(t, key, token, expiry) && !Grants(t, ev, key)
    ensures OnlyBy(Apply(t, ev), key, token, if RenewsOk(t, ev, key, token) then ev.later + ev.op.ttl else expiry)
    ensures ev.op == DoRelease(key, token) || key !in t.locks ==> key !in Apply(t, ev).locks
  {
    var u := Apply(t, ev);
    if ev.op.key != key {
      assert (key in u.locks <==> key in t.locks) && (key in t.locks ==> u.locks[key] == t.locks[key]);
    }
  }

  lemma {:induction false} HistoryOnlyBy(t: Table, evs: seq<Event>, key: string, token: int, expiry: Time)
    requires OnlyBy(t, key, token, expiry) && NoGrants(t, evs, key)
    ensures OnlyBy(Exec(t, evs), key, token, KnownExpiry(t, evs, key, token, expiry))
    ensures !NeverReleased(evs, key, token) || key !in t.locks ==> key !in Exec(t, evs).locks
    decreases |evs|
  {
    if evs == [] {
    } else {
      var ev := evs[0];
      StepOnlyBy(t, ev, key, token, expiry);
      HistoryOnlyBy(Apply(t, ev), evs[1..], key, token, if RenewsOk(t, ev, key, token) then ev.later + ev.op.ttl else expiry);
      if ev.op != DoRelease(key, token) && !NeverReleased(evs, key, token) {
        var k :| 0 <= k < |evs| && evs[k].op == DoRelease(key, token);
        assert evs[1..][k - 1].op == DoRelease(key, token);
      }
    }
  }

  /** When exactly the next caller gets the key: with the clock running and no other grant since, an
      acquisition succeeds if and only if its context is live, its time to live is positive, and the lease
      was released or has run out, counting all its renewals. */
  lemma NextCallerIsGrantedIff(t: Table, grant: Event, between: seq<Event>, next: Event, key: string)
    requires Issued(t) && Grants(t, grant, key) && NoGrants(Apply(t, grant), between, key)
    requires ClockRuns(grant.now, between) && ClockAfter(grant.now, between) <= next.now
    requires next.op.DoAcquire? && next.op.key == key
    ensures Grants(Exec(Apply(t, grant), between), next, key) <==>
              && !next.done && next.op.ttl > 0
              && (|| !NeverReleased(between, key, t.next + 1)
                  || KnownExpiry(Apply(t, grant), between, key, t.next + 1, grant.now + grant.op.ttl) <= next.now)
  {
    HistoryOnlyBy(Apply(t, grant), between, key, t.next + 1, grant.now + grant.op.ttl);
    if Grants(Exec(Apply(t, grant), between), next, key) && NeverReleased(between, key, t.next + 1) {
      AtMostOneUnexpired(t, grant, between, next, key);
    }
  }

  /** A key that was never granted goes to the first live caller. */
  lemma FirstCallerIsGrantedIff(between: seq<Event>, first: Event, key: string)
    requires NoGrants(Table(map[], 0), between, key) && first.op.DoAcquire? && first.op.key == key
    ensures Grants(Exec(Table(map[], 0), between), first, key) <==> !first.done && first.op.ttl > 0
  {
    HistoryOnlyBy(Table(map[], 0), between, key, 0, 0);
  }
}
