/**
 The per-principal token buckets of src/limiter.rs.

 Amounts and seconds are `real`; rounding of floating point is not modelled.
 `Check` decides both dimensions before it debits either.
 */
module Limiter {
  import opened Common

  type Principal = nat

  datatype Limits = Limits(requestsPerMin: Option<nat>, tokensPerMin: Option<nat>)

  predicate Unlimited(l: Limits) { l.requestsPerMin.None? && l.tokensPerMin.None? }

  datatype Status = Status(
    requestsLimit: Option<nat>, requestsRemaining: Option<nat>,
    tokensLimit: Option<nat>, tokensRemaining: Option<nat>,
    resetAfter: real)

  datatype Decision = Admitted(status: Option<Status>) | Exceeded(retryAfter: real)

  const SHARE_SCALE: nat := 1_000_000

  function RMin(a: real, b: real): real { if a < b then a else b }

  function RMax(a: real, b: real): real { if a < b then b else a }

  function Ceil(x: real): int { -((-x).Floor) }

  // ----- one bucket -----------------------------------------------------

  datatype Bucket = Bucket(available: real, lastRefill: real)

  function Refilled(b: Bucket, capacity: real, now: real): real {
    RMin(b.available + RMax(now - b.lastRefill, 0.0) * (capacity / 60.0), capacity)
  }

  /** `None` when `amount` is there; otherwise how long to wait. */
  function Peek(b: Bucket, amount: real, capacity: real, now: real): Option<real> {
    var available := Refilled(b, capacity, now);
    if available >= amount then None
    else if capacity <= 0.0 then Some(60.0)
    else Some(RMax((amount - available) / (capacity / 60.0), 0.0))
  }

  function Commit(b: Bucket, amount: real, capacity: real, now: real): Bucket {
    Bucket(Refilled(b, capacity, now) - amount, now)
  }

  function EffectiveCapacity(configured: nat, shareMillionths: nat): real {
    configured as real * (shareMillionths as real / SHARE_SCALE as real)
  }

  function ShareToMillionths(share: real): nat {
    (RMax(RMin(share, 1.0), 0.0) * SHARE_SCALE as real + 0.5).Floor
  }

  // ----- one principal --------------------------------------------------

  datatype Entry = Entry(
    requests: Bucket, tokens: Bucket,
    requestsShare: nat, tokensShare: nat,
    requestsUsed: nat, tokensUsed: nat,
    lastSeen: real)

  function OrZero(limit: Option<nat>): nat { if limit.Some? then limit.value else 0 }

  function NewEntry(l: Limits, now: real): Entry {
    Entry(Bucket(OrZero(l.requestsPerMin) as real, now), Bucket(OrZero(l.tokensPerMin) as real, now),
          SHARE_SCALE, SHARE_SCALE, 0, 0, now)
  }

  datatype Dim = Requests | Tokens

  function LimitOf(l: Limits, d: Dim): Option<nat> { if d.Requests? then l.requestsPerMin else l.tokensPerMin }

  function BucketOf(e: Entry, d: Dim): Bucket { if d.Requests? then e.requests else e.tokens }

  function ShareOf(e: Entry, d: Dim): nat { if d.Requests? then e.requestsShare else e.tokensShare }

  function CostOf(tokenCost: nat, d: Dim): nat { if d.Requests? then 1 else Max(tokenCost, 1) }

  function CapacityOf(e: Entry, l: Limits, d: Dim): real
    requires LimitOf(l, d).Some?
  {
    EffectiveCapacity(LimitOf(l, d).value, ShareOf(e, d))
  }

  function PeekDim(e: Entry, l: Limits, tokenCost: nat, now: real, d: Dim): Option<real> {
    if LimitOf(l, d).None? then None
    else Peek(BucketOf(e, d), CostOf(tokenCost, d) as real, CapacityOf(e, l, d), now)
  }

  function CommitDim(e: Entry, l: Limits, tokenCost: nat, now: real, d: Dim): Bucket {
    if LimitOf(l, d).None? then BucketOf(e, d)
    else Commit(BucketOf(e, d), CostOf(tokenCost, d) as real, CapacityOf(e, l, d), now)
  }

  /** `last_seen` and the demand counters move whatever the decision. */
  function Seen(e: Entry, l: Limits, tokenCost: nat, now: real): Entry {
    e.(lastSeen := now,
       requestsUsed := e.requestsUsed + (if l.requestsPerMin.Some? then 1 else 0),
       tokensUsed := e.tokensUsed + (if l.tokensPerMin.Some? then CostOf(tokenCost, Tokens) else 0))
  }

  function Remaining(b: Bucket, limit: Option<nat>): Option<nat> {
    if limit.None? then None else Some(RMax(b.available, 0.0).Floor)
  }

  function RefillSeconds(b: Bucket, limit: Option<nat>, share: nat): real {
    if limit.None? then 0.0 else
      var capacity := EffectiveCapacity(limit.value, share);
      if capacity / 60.0 <= 0.0 then 60.0 else RMin(RMax(capacity - b.available, 0.0) / (capacity / 60.0), 60.0)
  }

  function StatusOf(e: Entry, l: Limits): Status {
    Status(l.requestsPerMin, Remaining(e.requests, l.requestsPerMin),
           l.tokensPerMin, Remaining(e.tokens, l.tokensPerMin),
           Ceil(RMax(RefillSeconds(e.requests, l.requestsPerMin, e.requestsShare),
                     RefillSeconds(e.tokens, l.tokensPerMin, e.tokensShare))) as real)
  }

  function Wait(e: Entry, l: Limits, tokenCost: nat, now: real): Option<real> {
    var r, t := PeekDim(e, l, tokenCost, now, Requests), PeekDim(e, l, tokenCost, now, Tokens);
    if r.None? then t else if t.None? then r else Some(RMax(r.value, t.value))
  }

  /** What `check` does to an existing entry, and what it answers. */
  function CheckEntry(e: Entry, l: Limits, tokenCost: nat, now: real): (Entry, Decision) {
    var seen := Seen(e, l, tokenCost, now);
    var wait := Wait(seen, l, tokenCost, now);
    if wait.Some? then (seen, Exceeded(wait.value)) else
      var debited := seen.(requests := CommitDim(seen, l, tokenCost, now, Requests),
                           tokens := CommitDim(seen, l, tokenCost, now, Tokens));
      (debited, Admitted(Some(StatusOf(debited, l))))
  }

  // ----- the whole limiter ----------------------------------------------

  type Entries = map<Principal, Entry>

  function EntryFor(m: Entries, p: Principal, l: Limits, now: real): Entry {
    if p in m then m[p] else NewEntry(l, now)
  }

  function CheckAll(m: Entries, p: Principal, l: Limits, tokenCost: nat, now: real): (Entries, Decision) {
    if Unlimited(l) then (m, Admitted(None)) else
      var (e, decision) := CheckEntry(EntryFor(m, p, l, now), l, tokenCost, now);
      (m[p := e], decision)
  }

  predicate KeepsAlive(e: Entry, now: real, idleAfter: real) { RMax(now - e.lastSeen, 0.0) < idleAfter }

  function EvictIdle(m: Entries, now: real, idleAfter: real): Entries {
    map p | p in m && KeepsAlive(m[p], now, idleAfter) :: m[p]
  }

  datatype Allowance = Allowance(principal: Principal, requestsShare: real, tokensShare: real)

  function ApplyOne(m: Entries, a: Allowance): Entries {
    if a.principal in m
    then m[a.principal := m[a.principal].(requestsShare := ShareToMillionths(a.requestsShare),
                                          tokensShare := ShareToMillionths(a.tokensShare))]
    else m
  }

  function ApplyAllowances(m: Entries, allowances: seq<Allowance>): Entries {
    if allowances == [] then m
    else ApplyOne(ApplyAllowances(m, allowances[..|allowances| - 1]), allowances[|allowances| - 1])
  }

  function Drained(m: Entries): Entries {
    map p | p in m :: m[p].(requestsUsed := 0, tokensUsed := 0)
  }

  datatype Observed = Observed(requests: nat, tokens: nat)

  class RateLimiter {
    var entries: Entries

    constructor ()
      ensures entries == map[]
    {
      entries := map[];
    }

    method StateFor(p: Principal, l: Limits, now: real) returns (state: Entry)
      modifies this
      ensures state == EntryFor(old(entries), p, l, now)
      ensures entries == old(entries)[p := state]
    {
      if p !in entries {
        entries := entries[p := NewEntry(l, now)];
      }
      state := entries[p];
    }

    method Check(p: Principal, l: Limits, tokenCost: nat, now: real) returns (decision: Decision)
      modifies this
      ensures (entries, decision) == CheckAll(old(entries), p, l, tokenCost, now)
    {
      if Unlimited(l) {
        return Admitted(None);
      }
      var state := StateFor(p, l, now);
      state := Seen(state, l, tokenCost, now);
      entries := entries[p := state];
      assert entries == old(entries)[p := state];
      var requestsPeek := PeekDim(state, l, tokenCost, now, Requests);
      var tokensPeek := PeekDim(state, l, tokenCost, now, Tokens);
      var retryAfter: Option<real> := None;
      if requestsPeek.Some? {
        retryAfter := requestsPeek;
      }
      if tokensPeek.Some? {
        retryAfter := Some(if retryAfter.Some? then RMax(retryAfter.value, tokensPeek.value) else tokensPeek.value);
      }
      if retryAfter.Some? {
        return Exceeded(retryAfter.value);
      }
      state := state.(requests := CommitDim(state, l, tokenCost, now, Requests),
                      tokens := CommitDim(state, l, tokenCost, now, Tokens));
      entries := entries[p := state];
      assert entries == old(entries)[p := state];
      return Admitted(Some(StatusOf(state, l)));
    }

    method Evict(now: real, idleAfter: real)
      modifies this
      ensures entries == EvictIdle(old(entries), now, idleAfter)
    {
      entries := map p | p in entries && KeepsAlive(entries[p], now, idleAfter) :: entries[p];
    }

    /** Reports and zeroes every principal's demand since the last flush. */
    method DrainCounts() returns (counts: map<Principal, Observed>)
      modifies this
      ensures counts.Keys == old(entries).Keys
      ensures forall p :: p in counts ==> counts[p] == Observed(old(entries)[p].requestsUsed, old(entries)[p].tokensUsed)
      ensures entries == Drained(old(entries))
    {
      counts := map p | p in entries :: Observed(entries[p].requestsUsed, entries[p].tokensUsed);
      entries := Drained(entries);
    }

    method Apply(allowances: seq<Allowance>)
      modifies this
      ensures entries == ApplyAllowances(old(entries), allowances)
    {
      for i := 0 to |allowances|
        invariant entries == ApplyAllowances(old(entries), allowances[..i])
      {
        assert allowances[..i + 1][..i] == allowances[..i];
        entries := ApplyOne(entries, allowances[i]);
      }
      assert allowances[..|allowances|] == allowances;
    }
  }

  // ----- facts about one bucket -----------------------------------------

  lemma ShareIsAFraction(share: real)
    ensures ShareToMillionths(share) <= SHARE_SCALE
  {
  }

  lemma CapacityWithinConfigured(configured: nat, share: nat)
    requires share <= SHARE_SCALE
    ensures 0.0 <= EffectiveCapacity(configured, share) <= configured as real
    ensures share == SHARE_SCALE ==> EffectiveCapacity(configured, share) == configured as real
  {
    var f := share as real / SHARE_SCALE as real;
    assert 0.0 <= f <= 1.0;
    Scale(f, 1.0, configured as real);
    assert configured as real * f == f * configured as real;
  }

  lemma Scale(a: real, b: real, c: real)
    requires a <= b && 0.0 <= c
    ensures a * c <= b * c
  {
  }

  /** Waiting never loses tokens. */
  lemma RefillsWithTime(b: Bucket, capacity: real, t: real, t': real)
    requires t <= t' && 0.0 <= capacity
    ensures Refilled(b, capacity, t) <= Refilled(b, capacity, t')
  {
    Scale(RMax(t - b.lastRefill, 0.0), RMax(t' - b.lastRefill, 0.0), capacity / 60.0);
  }

  /** A minute untouched fills the bucket, at whatever capacity it is read. */
  lemma AMinuteFills(b: Bucket, capacity: real, now: real)
    requires b.available >= 0.0 && 0.0 <= capacity && now - b.lastRefill >= 60.0
    ensures Refilled(b, capacity, now) == capacity
  {
    Scale(60.0, now - b.lastRefill, capacity / 60.0);
  }

  /** A bucket already holding `capacity` reads as full. */
  lemma HoldingEnoughIsFull(b: Bucket, capacity: real, now: real)
    requires b.available >= capacity >= 0.0
    ensures Refilled(b, capacity, now) == capacity
  {
    Scale(0.0, RMax(now - b.lastRefill, 0.0), capacity / 60.0);
  }
}
