/**
 What the limiter's answers and figures mean (src/limiter.rs), each said
 without the arithmetic that computes it.
 */
module LimiterMeaning {
  import opened Common
  import opened Limiter
  import opened LimiterWindow

  // ----- the decision ---------------------------------------------------

  /** The bucket a request meets in dimension `d` reads at least its cost. */
  predicate Affords(m: Entries, p: Principal, l: Limits, tokenCost: nat, now: real, d: Dim) {
    LimitOf(l, d).Some? ==>
      var e := EntryFor(m, p, l, now);
      CostOf(tokenCost, d) as real <= Refilled(BucketOf(e, d), CapacityOf(e, l, d), now)
  }

  /** A request is admitted exactly when every limited dimension can pay for it,
      so always without limits; an admission without limits leaves no trace. */
  lemma AdmittedIff(m: Entries, p: Principal, l: Limits, tokenCost: nat, now: real)
    ensures var (next, decision) := CheckAll(m, p, l, tokenCost, now);
            && (decision.Admitted? <==> Affords(m, p, l, tokenCost, now, Requests) && Affords(m, p, l, tokenCost, now, Tokens))
            && (l.requestsPerMin.None? && l.tokensPerMin.None? ==> next == m && decision == Admitted(None))
            && (forall q | q != p :: (q in next <==> q in m) && (q in next ==> next[q] == m[q]))
  {
    hide Refilled, EffectiveCapacity;
  }

  /** What an admission takes: exactly the cost from each limited dimension, and
      nothing from the other; a refusal takes nothing. */
  lemma AdmissionTakesTheCost(e: Entry, l: Limits, tokenCost: nat, now: real, d: Dim)
    requires ValidEntry(e, now)
    ensures var (f, decision) := CheckEntry(e, l, tokenCost, now);
            && (decision.Exceeded? || LimitOf(l, d).None? ==> BucketOf(f, d) == BucketOf(e, d))
            && (decision.Admitted? && LimitOf(l, d).Some? ==>
                  var cap := CapacityOf(e, l, d);
                  && Refilled(BucketOf(f, d), cap, now) == Refilled(BucketOf(e, d), cap, now) - CostOf(tokenCost, d) as real
                  && BucketOf(f, d).lastRefill == now)
            && f.lastSeen == now && ShareOf(f, d) == ShareOf(e, d)
  {
    if LimitOf(l, d).Some? {
      var cap, before := CapacityOf(e, l, d), Refilled(BucketOf(e, d), CapacityOf(e, l, d), now);
      var left := before - CostOf(tokenCost, d) as real;
      assert before <= cap;
      NoTimeNoRefill(left, cap, now);
    }
  }

  lemma NoTimeNoRefill(available: real, cap: real, now: real)
    requires available <= cap
    ensures Refilled(Bucket(available, now), cap, now) == available
  {
    assert RMax(now - now, 0.0) == 0.0;
    assert 0.0 * (cap / 60.0) == 0.0;
  }

  /** A dimension with nothing to give, its limit or its share zero, always
      refuses, and quotes at least a minute; exactly one if it refuses alone. */
  lemma NoCapacityQuotesAMinute(e: Entry, l: Limits, tokenCost: nat, now: real, d: Dim)
    requires LimitOf(l, d).Some? && CapacityOf(e, l, d) <= 0.0
    ensures var decision := CheckEntry(e, l, tokenCost, now).1;
            var other := if d.Requests? then Tokens else Requests;
            && decision.Exceeded? && decision.retryAfter >= 60.0
            && (PeekDim(e, l, tokenCost, now, other).None? ==> decision.retryAfter == 60.0)
  {
    hide EffectiveCapacity;
    var seen := Seen(e, l, tokenCost, now);
    assert PeekDim(seen, l, tokenCost, now, Requests) == PeekDim(e, l, tokenCost, now, Requests);
    assert PeekDim(seen, l, tokenCost, now, Tokens) == PeekDim(e, l, tokenCost, now, Tokens);
    assert Refilled(BucketOf(e, d), CapacityOf(e, l, d), now) <= 0.0 < CostOf(tokenCost, d) as real;
    assert PeekDim(e, l, tokenCost, now, d) == Some(60.0);
  }

  // ----- the figures told to the client ---------------------------------

  function RemainingOf(s: Status, d: Dim): Option<nat> { if d.Requests? then s.requestsRemaining else s.tokensRemaining }

  function LimitToldOf(s: Status, d: Dim): Option<nat> { if d.Requests? then s.requestsLimit else s.tokensLimit }

  /** "Remaining" is the largest cost the same dimension would pay for at once. */
  lemma RemainingIsExact(e: Entry, l: Limits, tokenCost: nat, now: real, d: Dim, next: nat)
    requires ValidEntry(e, now) && !Unlimited(l) && CheckEntry(e, l, tokenCost, now).1.Admitted?
    ensures var (f, decision) := CheckEntry(e, l, tokenCost, now);
            && decision.status.Some?
            && LimitToldOf(decision.status.value, d) == LimitOf(l, d)
            && (RemainingOf(decision.status.value, d).Some? <==> LimitOf(l, d).Some?)
            && (LimitOf(l, d).Some? ==>
                  (PeekDim(f, l, next, now, d).None? <==> CostOf(next, d) <= RemainingOf(decision.status.value, d).value))
  {
    AdmissionTakesTheCost(e, l, tokenCost, now, d);
    if LimitOf(l, d).Some? {
      var f := CheckEntry(e, l, tokenCost, now).0;
      var b, cap := BucketOf(f, d), CapacityOf(e, l, d);
      assert b.available >= 0.0 && b.available <= cap;
      hide EffectiveCapacity;
      NoTimeNoRefill(b.available, cap, now);
      assert b == Bucket(b.available, now);
      assert RMax(b.available, 0.0) == b.available;
    }
  }

  ghost predicate FullAt(e: Entry, l: Limits, t: real) {
    forall d: Dim :: LimitOf(l, d).Some? ==> Refilled(BucketOf(e, d), CapacityOf(e, l, d), t) == CapacityOf(e, l, d)
  }

  lemma FullFrom(b: Bucket, cap: real, t: real)
    requires cap > 0.0 && 0.0 <= b.available <= cap && b.lastRefill <= t
    ensures Refilled(b, cap, t) == cap <==> t - b.lastRefill >= (cap - b.available) / (cap / 60.0)
    ensures 0.0 <= (cap - b.available) / (cap / 60.0) <= 60.0
  {
    var rate, since, missing := cap / 60.0, t - b.lastRefill, cap - b.available;
    var need := missing / rate;
    assert need * rate == missing;
    assert 60.0 * rate == cap;
    if since >= need {
      Scale(need, since, rate);
    } else {
      StrictlyLess(since, need, rate);
    }
    if need > 60.0 {
      StrictlyLess(60.0, need, rate);
    }
    if need < 0.0 {
      StrictlyLess(need, 0.0, rate);
    }
  }

  lemma StrictlyLess(a: real, b: real, rate: real)
    requires a < b && rate > 0.0
    ensures a * rate < b * rate
  {
    assert (b - a) * rate > 0.0;
  }

  /** After an admission, what is left of dimension `d` and how long it takes to
      fill. */
  lemma LeftAndFull(e: Entry, l: Limits, tokenCost: nat, now: real, d: Dim, t: real)
    requires ValidEntry(e, now) && CheckEntry(e, l, tokenCost, now).1.Admitted? && LimitOf(l, d).Some? && now <= t
    ensures var f := CheckEntry(e, l, tokenCost, now).0;
            var b, cap, secs := BucketOf(f, d), CapacityOf(f, l, d), RefillSeconds(BucketOf(f, d), LimitOf(l, d), ShareOf(f, d));
            Refilled(b, cap, t) == cap <==> t >= now + secs
  {
    AdmissionTakesTheCost(e, l, tokenCost, now, d);
    var f := CheckEntry(e, l, tokenCost, now).0;
    var b, cap := BucketOf(f, d), CapacityOf(f, l, d);
    assert 0.0 <= b.available && b.available + CostOf(tokenCost, d) as real <= cap;
    hide EffectiveCapacity, Refilled;
    FullFrom(b, cap, t);
  }

  /** "Reset" is the first whole second at which every limited bucket is full. */
  lemma ResetIsWhenFull(e: Entry, l: Limits, tokenCost: nat, now: real, seconds: nat)
    requires ValidEntry(e, now) && !Unlimited(l) && CheckEntry(e, l, tokenCost, now).1.Admitted?
    ensures var (f, decision) := CheckEntry(e, l, tokenCost, now);
            decision.status.Some? &&
            (FullAt(f, l, now + seconds as real) <==> seconds as real >= decision.status.value.resetAfter)
  {
    var (f, decision) := CheckEntry(e, l, tokenCost, now);
    var t := now + seconds as real;
    if l.requestsPerMin.Some? {
      LeftAndFull(e, l, tokenCost, now, Requests, t);
    }
    if l.tokensPerMin.Some? {
      LeftAndFull(e, l, tokenCost, now, Tokens, t);
    }
    hide Refilled, EffectiveCapacity, CheckEntry;
    FullIff(f, l, t);
    var r, k := RefillSeconds(f.requests, l.requestsPerMin, f.requestsShare), RefillSeconds(f.tokens, l.tokensPerMin, f.tokensShare);
    assert FullAt(f, l, t) <==> seconds as real >= RMax(r, k);
    CeilIsFirst(RMax(r, k), seconds);
  }

  lemma FullIff(e: Entry, l: Limits, t: real)
    ensures FullAt(e, l, t) <==>
            && (l.requestsPerMin.Some? ==> Refilled(e.requests, CapacityOf(e, l, Requests), t) == CapacityOf(e, l, Requests))
            && (l.tokensPerMin.Some? ==> Refilled(e.tokens, CapacityOf(e, l, Tokens), t) == CapacityOf(e, l, Tokens))
  {
    hide Refilled, EffectiveCapacity;
    assert BucketOf(e, Requests) == e.requests && BucketOf(e, Tokens) == e.tokens;
    assert LimitOf(l, Requests) == l.requestsPerMin && LimitOf(l, Tokens) == l.tokensPerMin;
  }

  lemma CeilBounds(x: real)
    ensures (Ceil(x) - 1) as real < x <= Ceil(x) as real
  {
    var f := (-x).Floor;
    assert f as real <= -x < f as real + 1.0;
    assert Ceil(x) as real == -(f as real);
  }

  lemma CeilIsFirst(x: real, seconds: nat)
    ensures seconds as real >= x <==> seconds as real >= Ceil(x) as real
  {
    CeilBounds(x);
    var c := Ceil(x);
    hide Ceil;
    if seconds < c {
      assert seconds <= c - 1;
      assert seconds as real <= (c - 1) as real;
    }
  }

  // ----- reconciled shares ----------------------------------------------

  function Clamped(share: real): real { if share < 0.0 then 0.0 else if share > 1.0 then 1.0 else share }

  /** The share the control plane granted in one dimension. */
  function GrantedShare(a: Allowance, d: Dim): real { if d.Requests? then a.requestsShare else a.tokensShare }

  /** A stored share is the granted one to the nearest millionth. */
  lemma ShareIsRounded(share: real)
    ensures -0.0000005 <= ShareToMillionths(share) as real / 1_000_000.0 - Clamped(share) <= 0.0000005
  {
    var x := Clamped(share) * 1_000_000.0;
    assert RMax(RMin(share, 1.0), 0.0) == Clamped(share);
    assert ShareToMillionths(share) == (x + 0.5).Floor;
    assert (x + 0.5).Floor as real <= x + 0.5 < (x + 0.5).Floor as real + 1.0;
  }

  function Times(a: real, b: real): real { a * b }

  lemma ProductsNear(cap: real, a: real, b: real, e: real)
    requires cap >= 0.0 && a <= b + e
    ensures Times(cap, a) <= Times(cap, b) + Times(cap, e)
  {
    Scale(a, b + e, cap);
    assert (b + e) * cap == cap * b + cap * e;
    assert a * cap == cap * a;
  }

  /** Within half a millionth of the limit. */
  predicate Near(capacity: real, limit: nat, share: real) {
    var off, half := capacity - Times(limit as real, Clamped(share)), Times(limit as real, 0.0000005);
    -half <= off <= half
  }

  lemma NearIf(capacity: real, limit: nat, share: real, stored: real)
    requires capacity == Times(limit as real, stored) && -0.0000005 <= stored - Clamped(share) <= 0.0000005
    ensures Near(capacity, limit, share)
  {
    hide Times, Clamped;
    var cap, granted := limit as real, Clamped(share);
    ProductsNear(cap, stored, granted, 0.0000005);
    ProductsNear(cap, granted, stored, 0.0000005);
  }

  /** So the capacity it yields is the limit times the granted share. */
  lemma GrantedCapacity(limit: nat, share: real)
    ensures Near(EffectiveCapacity(limit, ShareToMillionths(share)), limit, share)
  {
    ShareIsRounded(share);
    hide ShareToMillionths, Near;
    NearIf(EffectiveCapacity(limit, ShareToMillionths(share)), limit, share, ShareToMillionths(share) as real / 1_000_000.0);
  }

  ghost predicate LastNamed(allowances: seq<Allowance>, p: Principal, i: int) {
    && 0 <= i < |allowances| && allowances[i].principal == p
    && forall j :: i < j < |allowances| ==> allowances[j].principal != p
  }

  lemma {:induction false} LastAllowanceWins(m: Entries, allowances: seq<Allowance>, p: Principal, i: int)
    requires p in m && LastNamed(allowances, p, i)
    ensures p in ApplyAllowances(m, allowances)
    ensures forall d: Dim :: ShareOf(ApplyAllowances(m, allowances)[p], d) == ShareToMillionths(GrantedShare(allowances[i], d))
  {
    AllowancesKeep(m, allowances, p);
    hide ShareToMillionths;
    var n := |allowances| - 1;
    AllowancesKeep(m, allowances[..n], p);
    if i < n {
      LastAllowanceWins(m, allowances[..n], p, i);
    }
  }

  lemma {:induction false} UnnamedKeepsShares(m: Entries, allowances: seq<Allowance>, p: Principal)
    requires p in m && forall j :: 0 <= j < |allowances| ==> allowances[j].principal != p
    ensures p in ApplyAllowances(m, allowances) && ApplyAllowances(m, allowances)[p] == m[p]
  {
    hide ShareToMillionths;
    if allowances != [] {
      UnnamedKeepsShares(m, allowances[..|allowances| - 1], p);
    }
  }

  /** After a reconcile the last allowance that names a principal gives each
      dimension its limit times that dimension's own share, clamped to [0, 1],
      within half a millionth of the limit; a principal not named keeps both
      capacities. No bucket is touched. */
  lemma ReconciledCapacity(m: Entries, allowances: seq<Allowance>, p: Principal, l: Limits, d: Dim, i: int)
    requires p in m && LimitOf(l, d).Some?
    ensures p in ApplyAllowances(m, allowances) && BucketOf(ApplyAllowances(m, allowances)[p], d) == BucketOf(m[p], d)
    ensures LastNamed(allowances, p, i) ==>
              Near(CapacityOf(ApplyAllowances(m, allowances)[p], l, d), LimitOf(l, d).value, GrantedShare(allowances[i], d))
    ensures (forall j :: 0 <= j < |allowances| ==> allowances[j].principal != p) ==>
              CapacityOf(ApplyAllowances(m, allowances)[p], l, d) == CapacityOf(m[p], l, d)
  {
    hide EffectiveCapacity, ShareToMillionths, ApplyAllowances, Near;
    AllowancesKeep(m, allowances, p);
    if LastNamed(allowances, p, i) {
      LastAllowanceWins(m, allowances, p, i);
      GrantedCapacity(LimitOf(l, d).value, GrantedShare(allowances[i], d));
    } else if forall j :: 0 <= j < |allowances| ==> allowances[j].principal != p {
      UnnamedKeepsShares(m, allowances, p);
    }
  }

  // ----- demand ---------------------------------------------------------

  function UsedOf(e: Entry, d: Dim): nat { if d.Requests? then e.requestsUsed else e.tokensUsed }

  /** What `p` asked for in dimension `d`, admitted or not, since its entry was
      made or the counts were last drained. */
  ghost function Demand(tr: seq<Entries>, events: seq<Event>, p: Principal, d: Dim, n: nat): nat
    requires Run(tr, events) && n <= |events|
  {
    if n == 0 || p !in tr[n] || events[n - 1].Drain? then 0
    else
      Demand(tr, events, p, d, n - 1) +
      (if events[n - 1].Check? && events[n - 1].p == p && LimitOf(events[n - 1].l, d).Some?
       then CostOf(events[n - 1].tokenCost, d) else 0)
  }

  lemma {:induction false} AllowancesKeepDemand(m: Entries, allowances: seq<Allowance>, p: Principal, d: Dim)
    requires p in m
    ensures p in ApplyAllowances(m, allowances) && UsedOf(ApplyAllowances(m, allowances)[p], d) == UsedOf(m[p], d)
  {
    hide ShareToMillionths;
    if allowances != [] {
      AllowancesKeepDemand(m, allowances[..|allowances| - 1], p, d);
    }
  }

  lemma CheckCountsDemand(e: Entry, l: Limits, cost: nat, now: real, d: Dim)
    ensures UsedOf(CheckEntry(e, l, cost, now).0, d) == UsedOf(e, d) + (if LimitOf(l, d).Some? then CostOf(cost, d) else 0)
  {
    hide Wait, CommitDim, StatusOf;
  }

  /** The counts a drain hands over are exactly that demand. */
  lemma {:induction false} DemandIsCounted(tr: seq<Entries>, events: seq<Event>, p: Principal, d: Dim, n: nat)
    requires Run(tr, events) && tr[0] == map[] && n <= |events|
    ensures p in tr[n] ==> UsedOf(tr[n][p], d) == Demand(tr, events, p, d, n)
    ensures p !in tr[n] ==> Demand(tr, events, p, d, n) == 0
  {
    if n > 0 {
      hide CheckEntry, ApplyAllowances;
      DemandIsCounted(tr, events, p, d, n - 1);
      var m, e := tr[n - 1], events[n - 1];
      assert tr[n] == Step(m, e);
      match e
      case Check(q, l, cost, now) => CheckCountsDemand(EntryFor(m, p, l, now), l, cost, now, d);
      case Evict(_, _) =>
      case Reconcile(allowances, _) =>
        AllowancesKeep(m, allowances, p);
        if p in m {
          AllowancesKeepDemand(m, allowances, p, d);
        }
      case Drain(_) =>
    }
  }
}
