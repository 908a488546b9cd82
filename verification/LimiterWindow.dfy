/** No window of any run lets a bucket admit more than its capacity plus one refill. */
module LimiterWindow {
  import opened Common
  import opened Limiter

  datatype Event =
    | Check(p: Principal, l: Limits, tokenCost: nat, now: real)
    | Evict(now: real, idleAfter: real)
    | Reconcile(allowances: seq<Allowance>, now: real)
    | Drain(now: real)

  function Step(m: Entries, e: Event): Entries {
    match e
    case Check(p, l, cost, now) => CheckAll(m, p, l, cost, now).0
    case Evict(now, idleAfter) => EvictIdle(m, now, idleAfter)
    case Reconcile(allowances, _) => ApplyAllowances(m, allowances)
    case Drain(_) => Drained(m)
  }

  ghost predicate Run(tr: seq<Entries>, events: seq<Event>) {
    && |tr| == |events| + 1
    && forall i {:trigger events[i]} :: 0 <= i < |events| ==> tr[i + 1] == Step(tr[i], events[i])
  }

  /** What every limiter state satisfies at time `now`. */
  ghost predicate Valid(m: Entries, now: real) {
    forall p :: p in m ==> ValidEntry(m[p], now)
  }

  ghost predicate ValidEntry(e: Entry, now: real) {
    && e.requestsShare <= SHARE_SCALE && e.tokensShare <= SHARE_SCALE
    && e.requests.available >= 0.0 && e.tokens.available >= 0.0
    && e.requests.lastRefill <= e.lastSeen && e.tokens.lastRefill <= e.lastSeen
    && e.lastSeen <= now
  }

  /** A request of `p` meets, in dimension `d`, an effective capacity (the
      limit scaled by the share in force) of at most `c`. */
  predicate Within(m: Entries, e: Event, p: Principal, d: Dim, c: real) {
    e.Check? && e.p == p && LimitOf(e.l, d).Some? ==> CapacityOf(EntryFor(m, p, e.l, e.now), e.l, d) <= c
  }

  /** The events fall in order inside the window, the sweeps wait at least a
      minute, and `p`'s effective capacity in dimension `d` never exceeds `c`. */
  ghost predicate Window(tr: seq<Entries>, events: seq<Event>, p: Principal, d: Dim, c: real, start: real, end: real)
    requires |tr| == |events| + 1
  {
    && c >= 0.0
    && (forall i :: 0 <= i < |events| ==> start <= events[i].now <= end)
    && (forall i, j :: 0 <= i < j < |events| ==> events[i].now <= events[j].now)
    && (forall i :: 0 <= i < |events| && events[i].Evict? ==> events[i].idleAfter >= 60.0)
    && (forall i :: 0 <= i < |events| ==> Within(tr[i], events[i], p, d, c))
  }

  function Charge(m: Entries, e: Event, p: Principal, d: Dim): nat {
    if e.Check? && e.p == p && LimitOf(e.l, d).Some? && CheckAll(m, p, e.l, e.tokenCost, e.now).1.Admitted?
    then CostOf(e.tokenCost, d) else 0
  }

  /** Total cost admitted from the bucket over the first `n` events. */
  ghost function Spent(tr: seq<Entries>, events: seq<Event>, p: Principal, d: Dim, n: nat): nat
    requires Run(tr, events) && n <= |events|
  {
    if n == 0 then 0 else Spent(tr, events, p, d, n - 1) + Charge(tr[n - 1], events[n - 1], p, d)
  }

  function Allowed(c: real, seconds: real): real { c + c * seconds / 60.0 }

  /** The account at time `now`: what was spent plus what is left is covered by
      one bucket plus the refill since the window opened. */
  ghost predicate Covered(m: Entries, p: Principal, d: Dim, c: real, start: real, now: real, spent: nat) {
    && now >= start
    && (spent > 0 ==>
          if p in m then
            var b := BucketOf(m[p], d);
            b.lastRefill >= start && spent as real + b.available <= Allowed(c, b.lastRefill - start)
          else spent as real <= Allowed(c, now - start) - c)
  }

  // ----- one event at a time --------------------------------------------

  lemma AllowedCoversABucket(c: real, seconds: real)
    requires c >= 0.0 && seconds >= 0.0
    ensures Allowed(c, seconds) >= c
  {
    var refill := c * seconds;
    assert refill >= 0.0;
    assert refill / 60.0 >= 0.0;
  }

  /** A bucket no larger than `c` refills no faster than the window does. */
  lemma RefillWithin(capacity: real, c: real, before: real, since: real)
    requires 0.0 <= capacity <= c && since >= 0.0
    ensures Allowed(c, before) + since * (capacity / 60.0) <= Allowed(c, before + since)
  {
    Scale(capacity / 60.0, c / 60.0, since);
    assert since * (capacity / 60.0) == (capacity / 60.0) * since;
    assert (c / 60.0) * since == c * since / 60.0;
    assert c * (before + since) == c * before + c * since;
  }

  lemma CommitCovered(b: Bucket, cost: real, capacity: real, c: real, start: real, now: real, spent: real)
    requires 0.0 <= capacity <= c && start <= now && b.lastRefill <= now
    requires spent == 0.0 || (b.lastRefill >= start && spent + b.available <= Allowed(c, b.lastRefill - start))
    ensures spent + cost + Commit(b, cost, capacity, now).available <= Allowed(c, now - start)
  {
    hide Allowed;
    AllowedCoversABucket(c, now - start);
    RefillWithin(capacity, c, b.lastRefill - start, now - b.lastRefill);
    assert (b.lastRefill - start) + (now - b.lastRefill) == now - start;
  }

  lemma FreshCovered(available: real, c: real, start: real, now: real, spent: real)
    requires available <= c && 0.0 <= c && start <= now
    requires spent <= Allowed(c, now - start) - c || spent == 0.0
    ensures spent + available <= Allowed(c, now - start)
  {
    AllowedCoversABucket(c, now - start);
  }

  lemma AMinuteAddsABucket(c: real, seconds: real)
    ensures Allowed(c, seconds + 60.0) == Allowed(c, seconds) + c
  {
    assert c * (seconds + 60.0) == c * seconds + 60.0 * c;
  }

  lemma IdleCovered(b: Bucket, c: real, start: real, now: real, spent: real)
    requires c >= 0.0 && b.available >= 0.0 && b.lastRefill + 60.0 <= now
    requires spent + b.available <= Allowed(c, b.lastRefill - start)
    ensures spent <= Allowed(c, now - start) - c
  {
    hide Allowed;
    AMinuteAddsABucket(c, b.lastRefill - start);
    assert b.lastRefill - start + 60.0 == b.lastRefill + 60.0 - start;
    LaterCovered(c, start, b.lastRefill + 60.0, now);
  }

  lemma LaterCovered(c: real, start: real, now: real, later: real)
    requires c >= 0.0 && now <= later
    ensures Allowed(c, now - start) <= Allowed(c, later - start)
  {
    Scale(now - start, later - start, c);
    assert c * (now - start) == (now - start) * c && c * (later - start) == (later - start) * c;
  }

  lemma CommitKeepsValid(e: Entry, l: Limits, cost: nat, now: real, d: Dim)
    requires ValidEntry(e, now) && PeekDim(e, l, cost, now, d).None?
    ensures CommitDim(e, l, cost, now, d).available >= 0.0
    ensures CommitDim(e, l, cost, now, d).lastRefill <= now
  {
  }

  lemma CheckEntryKeepsValid(e: Entry, l: Limits, cost: nat, now: real)
    requires ValidEntry(e, now)
    ensures ValidEntry(CheckEntry(e, l, cost, now).0, now)
  {
    var seen := Seen(e, l, cost, now);
    if Wait(seen, l, cost, now).None? {
      CommitKeepsValid(seen, l, cost, now, Requests);
      CommitKeepsValid(seen, l, cost, now, Tokens);
    }
  }

  lemma {:induction false} AllowancesKeep(m: Entries, allowances: seq<Allowance>, p: Principal)
    ensures p in ApplyAllowances(m, allowances) <==> p in m
    ensures p in m ==>
              var e, e' := m[p], ApplyAllowances(m, allowances)[p];
              && e'.requests == e.requests && e'.tokens == e.tokens && e'.lastSeen == e.lastSeen
              && (e.requestsShare <= SHARE_SCALE ==> e'.requestsShare <= SHARE_SCALE)
              && (e.tokensShare <= SHARE_SCALE ==> e'.tokensShare <= SHARE_SCALE)
  {
    if allowances != [] {
      AllowancesKeep(m, allowances[..|allowances| - 1], p);
      var a := allowances[|allowances| - 1];
      ShareIsAFraction(a.requestsShare);
      ShareIsAFraction(a.tokensShare);
    }
  }

  lemma StepKeepsValid(m: Entries, e: Event, before: real)
    requires Valid(m, before) && before <= e.now
    ensures Valid(Step(m, e), e.now)
  {
    forall p | p in Step(m, e)
      ensures ValidEntry(Step(m, e)[p], e.now)
    {
      match e
      case Check(q, l, cost, now) =>
        if !Unlimited(l) && p == q {
          CheckEntryKeepsValid(EntryFor(m, p, l, now), l, cost, now);
        }
      case Evict(_, _) =>
      case Reconcile(allowances, _) => AllowancesKeep(m, allowances, p);
      case Drain(_) =>
    }
  }

  /** A new bucket holds no more than the capacity it is checked against. */
  lemma FreshHoldsItsCapacity(l: Limits, now: real, d: Dim, c: real)
    requires c >= 0.0 && (LimitOf(l, d).Some? ==> CapacityOf(NewEntry(l, now), l, d) <= c)
    ensures BucketOf(NewEntry(l, now), d).available <= c
  {
    CapacityWithinConfigured(OrZero(LimitOf(l, d)), SHARE_SCALE);
  }

  /** The bucket a request meets is covered, re-created or not. */
  lemma MetCovered(m: Entries, e: Event, p: Principal, d: Dim, c: real, start: real, before: real, spent: nat)
    requires before <= e.now && e.Check? && e.p == p && c >= 0.0 && Within(m, e, p, d, c)
    requires Covered(m, p, d, c, start, before, spent)
    ensures var b := BucketOf(EntryFor(m, p, e.l, e.now), d);
            spent == 0 || (b.lastRefill >= start && spent as real + b.available <= Allowed(c, b.lastRefill - start))
  {
    if p !in m && spent > 0 {
      hide Allowed, EffectiveCapacity;
      LaterCovered(c, start, before, e.now);
      FreshHoldsItsCapacity(e.l, e.now, d, c);
      FreshCovered(BucketOf(NewEntry(e.l, e.now), d).available, c, start, e.now, spent as real);
    }
  }

  lemma CheckCovered(m: Entries, e: Event, p: Principal, d: Dim, c: real, start: real, before: real, spent: nat)
    requires Valid(m, before) && before <= e.now && e.Check? && e.p == p && !Unlimited(e.l)
    requires c >= 0.0 && Within(m, e, p, d, c)
    requires Covered(m, p, d, c, start, before, spent)
    ensures Covered(Step(m, e), p, d, c, start, e.now, spent + Charge(m, e, p, d))
  {
    hide Allowed, EffectiveCapacity, Refilled;
    var entry := EntryFor(m, p, e.l, e.now);
    MetCovered(m, e, p, d, c, start, before, spent);
    if Charge(m, e, p, d) > 0 {
      CapacityWithinConfigured(LimitOf(e.l, d).value, ShareOf(entry, d));
      CommitCovered(BucketOf(entry, d), CostOf(e.tokenCost, d) as real, CapacityOf(entry, e.l, d), c, start, e.now, spent as real);
    }
  }

  lemma StepCovered(m: Entries, e: Event, p: Principal, d: Dim, c: real, start: real, before: real, spent: nat)
    requires Valid(m, before) && before <= e.now
    requires e.Evict? ==> e.idleAfter >= 60.0
    requires c >= 0.0 && Within(m, e, p, d, c)
    requires Covered(m, p, d, c, start, before, spent)
    ensures Covered(Step(m, e), p, d, c, start, e.now, spent + Charge(m, e, p, d))
  {
    LaterCovered(c, start, before, e.now);
    match e
    case Check(q, l, _, _) =>
      if q == p && !Unlimited(l) {
        CheckCovered(m, e, p, d, c, start, before, spent);
      }
    case Evict(now, idleAfter) =>
      if spent > 0 && p in m && p !in Step(m, e) {
        IdleCovered(BucketOf(m[p], d), c, start, now, spent as real);
      }
    case Reconcile(allowances, _) => AllowancesKeep(m, allowances, p);
    case Drain(_) =>
  }

  lemma {:induction false} CoveredThroughout(
      tr: seq<Entries>, events: seq<Event>, p: Principal, d: Dim, c: real, start: real, end: real, n: nat)
    requires Run(tr, events) && Valid(tr[0], start) && Window(tr, events, p, d, c, start, end) && n <= |events|
    ensures var now := if n == 0 then start else events[n - 1].now;
            Valid(tr[n], now) && Covered(tr[n], p, d, c, start, now, Spent(tr, events, p, d, n))
  {
    if n > 0 {
      CoveredThroughout(tr, events, p, d, c, start, end, n - 1);
      var before := if n == 1 then start else events[n - 2].now;
      var e := events[n - 1];
      StepKeepsValid(tr[n - 1], e, before);
      StepCovered(tr[n - 1], e, p, d, c, start, before, Spent(tr, events, p, d, n - 1));
    }
  }

  /** From any limiter state, over any window of length `end - start`, with
      shares and limits changing but the effective capacity never above `c`, across
      evictions: the cost admitted is at most one bucket plus the refill. No
      bucket is ever overdrawn on the way. */
  lemma {:induction false} WindowBound(
      tr: seq<Entries>, events: seq<Event>, p: Principal, d: Dim, c: real, start: real, end: real)
    requires Run(tr, events) && Valid(tr[0], start) && Window(tr, events, p, d, c, start, end) && start <= end
    ensures Spent(tr, events, p, d, |events|) as real <= c + c * (end - start) / 60.0
    ensures forall q, dim: Dim :: q in tr[|events|] ==> BucketOf(tr[|events|][q], dim).available >= 0.0
  {
    var n := |events|;
    CoveredThroughout(tr, events, p, d, c, start, end, n);
    var now := if n == 0 then start else events[n - 1].now;
    CoveredBounds(tr[n], p, d, c, start, now, end, Spent(tr, events, p, d, n));
  }

  lemma CoveredBounds(m: Entries, p: Principal, d: Dim, c: real, start: real, now: real, end: real, spent: nat)
    requires c >= 0.0 && Valid(m, now) && now <= end && Covered(m, p, d, c, start, now, spent)
    ensures spent as real <= Allowed(c, end - start)
  {
    Scale(0.0, end - start, c);
    if spent > 0 {
      LaterCovered(c, start, if p in m then BucketOf(m[p], d).lastRefill else now, end);
    }
  }

  lemma {:induction false} ValidThroughout(tr: seq<Entries>, events: seq<Event>, n: nat, now: real)
    requires Run(tr, events) && tr[0] == map[] && n <= |events|
    requires forall k, k' :: 0 <= k < k' < n ==> events[k].now <= events[k'].now
    requires forall k :: 0 <= k < n ==> events[k].now <= now
    ensures Valid(tr[n], now)
  {
    if n > 0 {
      var before := if n == 1 then events[0].now else events[n - 2].now;
      ValidThroughout(tr, events, n - 1, before);
      StepKeepsValid(tr[n - 1], events[n - 1], before);
    }
  }

  /** The bound for every window of every run of the limiter from its start:
      events `i` up to `j` are the ones that fall between `start` and `end`. */
  lemma {:induction false} EveryWindowOfEveryRun(
      tr: seq<Entries>, events: seq<Event>, i: nat, j: nat, p: Principal, d: Dim, c: real, start: real, end: real)
    requires Run(tr, events) && tr[0] == map[] && i <= j <= |events| && start <= end
    requires forall k, k' :: 0 <= k < k' < |events| ==> events[k].now <= events[k'].now
    requires forall k :: 0 <= k < i ==> events[k].now <= start
    requires Window(tr[i..j + 1], events[i..j], p, d, c, start, end)
    ensures Run(tr[i..j + 1], events[i..j])
    ensures Spent(tr[i..j + 1], events[i..j], p, d, j - i) as real <= c + c * (end - start) / 60.0
  {
    ValidThroughout(tr, events, i, start);
    var tr', events' := tr[i..j + 1], events[i..j];
    forall k | 0 <= k < |events'|
      ensures tr'[k + 1] == Step(tr'[k], events'[k])
    {
      assert events'[k] == events[i + k];
    }
    WindowBound(tr', events', p, d, c, start, end);
  }

  // ----- why a sweep must wait a minute ---------------------------------

  /** The whole bucket spent, swept `idle` seconds later, and spent again. */
  function SweptTooEarly(c: nat, idle: real): seq<Event> {
    [Check(0, Limits(None, Some(c)), c, 0.0), Evict(idle, idle), Check(0, Limits(None, Some(c)), c, idle)]
  }

  lemma NewBucketIsSpent(m: Entries, c: nat, now: real)
    requires 0 !in m && c >= 1
    ensures var (next, decision) := CheckAll(m, 0, Limits(None, Some(c)), c, now);
            decision.Admitted? && 0 in next && next.Keys == m.Keys + {0} && next[0].lastSeen == now
  {
    CapacityWithinConfigured(c, SHARE_SCALE);
    HoldingEnoughIsFull(Bucket(c as real, now), c as real, now);
    var l := Limits(None, Some(c));
    hide Refilled, EffectiveCapacity;
    var seen := Seen(NewEntry(l, now), l, c, now);
    assert PeekDim(seen, l, c, now, Requests) == None && PeekDim(seen, l, c, now, Tokens) == None;
  }

  /** The minute is exact: for every limit and every shorter idle cutoff, a
      window in which more is spent than the bucket and its refill. */
  lemma AnEarlySweepBreaksTheBound(c: nat, idle: real) returns (tr: seq<Entries>)
    requires c >= 1 && 0.0 <= idle < 60.0
    ensures Run(tr, SweptTooEarly(c, idle)) && tr[0] == map[]
    ensures Spent(tr, SweptTooEarly(c, idle), 0, Tokens, 3) as real > Allowed(c as real, idle)
  {
    hide CheckAll, Allowed;
    var l, events := Limits(None, Some(c)), SweptTooEarly(c, idle);
    var m0: Entries := map[];
    NewBucketIsSpent(m0, c, 0.0);
    var m1 := CheckAll(m0, 0, l, c, 0.0).0;
    var m2 := EvictIdle(m1, idle, idle);
    assert m1.Keys == {0} && 0 !in m2;
    NewBucketIsSpent(m2, c, idle);
    tr := [m0, m1, m2, CheckAll(m2, 0, l, c, idle).0];
    assert Charge(m0, events[0], 0, Tokens) == c && Charge(m1, events[1], 0, Tokens) == 0 && Charge(m2, events[2], 0, Tokens) == c;
    assert Spent(tr, events, 0, Tokens, 1) == c;
    assert Spent(tr, events, 0, Tokens, 2) == c;
    TwiceIsMore(c, idle);
  }

  lemma TwiceIsMore(c: nat, idle: real)
    requires c >= 1 && idle < 60.0
    ensures (2 * c) as real > Allowed(c as real, idle)
  {
    var cc, short := c as real, 60.0 - idle;
    assert cc * short > 0.0;
    assert cc * idle == 60.0 * cc - cc * short;
  }
}
