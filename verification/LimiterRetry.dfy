/** `retry_after` is exact: no sooner, no later, and honest only for a cost that can ever fit. */
module LimiterRetry {
  import opened Common
  import opened Limiter

  /** Every configured dimension's cost fits the capacity it is charged to. */
  ghost predicate CostsFit(e: Entry, l: Limits, tokenCost: nat) {
    forall d: Dim :: LimitOf(l, d).Some? ==> CostOf(tokenCost, d) as real <= CapacityOf(e, l, d)
  }

  ghost predicate SharesValid(e: Entry) {
    e.requestsShare <= SHARE_SCALE && e.tokensShare <= SHARE_SCALE
  }

  lemma {:induction false} BucketWait(b: Bucket, amount: real, capacity: real, now: real, t: real)
    requires capacity >= 0.0 && amount > 0.0
    requires b.lastRefill <= now
    requires Peek(b, amount, capacity, now).Some?
    ensures var wait := Peek(b, amount, capacity, now).value;
            && (amount <= capacity ==> (Peek(b, amount, capacity, t).None? <==> t >= now + wait))
            && (amount > capacity ==> Peek(b, amount, capacity, t).Some?)
  {
    if amount <= capacity {
      var rate := capacity / 60.0;
      var have := Refilled(b, capacity, now);
      assert have == b.available + (now - b.lastRefill) * rate;
      var wait := (amount - have) / rate;
      assert wait * rate == amount - have;
      assert wait > 0.0;
      var elapsed := RMax(t - b.lastRefill, 0.0);
      if t >= now + wait {
        Scale(now + wait - b.lastRefill, elapsed, rate);
        assert (now + wait - b.lastRefill) * rate == (now - b.lastRefill) * rate + wait * rate;
      } else {
        StrictScale(elapsed, now + wait - b.lastRefill, rate);
        assert (now + wait - b.lastRefill) * rate == (now - b.lastRefill) * rate + wait * rate;
      }
    }
  }

  lemma StrictScale(a: real, b: real, c: real)
    requires a < b && 0.0 < c
    ensures a * c < b * c
  {
  }

  lemma DimWait(e: Entry, e': Entry, l: Limits, tokenCost: nat, now: real, t: real, d: Dim)
    requires SharesValid(e) && BucketOf(e, d).lastRefill <= now
    requires BucketOf(e', d) == BucketOf(e, d) && ShareOf(e', d) == ShareOf(e, d)
    requires PeekDim(e, l, tokenCost, now, d).Some?
    ensures var wait := PeekDim(e, l, tokenCost, now, d).value;
            var fits := CostOf(tokenCost, d) as real <= CapacityOf(e, l, d);
            && (fits ==> (PeekDim(e', l, tokenCost, t, d).None? <==> t >= now + wait))
            && (!fits ==> PeekDim(e', l, tokenCost, t, d).Some?)
  {
    CapacityWithinConfigured(LimitOf(l, d).value, ShareOf(e, d));
    BucketWait(BucketOf(e, d), CostOf(tokenCost, d) as real, CapacityOf(e, l, d), now, t);
  }

  /** A dimension that did not refuse does not refuse later either. */
  lemma DimStaysOpen(e: Entry, e': Entry, l: Limits, tokenCost: nat, now: real, t: real, d: Dim)
    requires SharesValid(e) && now <= t
    requires BucketOf(e', d) == BucketOf(e, d) && ShareOf(e', d) == ShareOf(e, d)
    requires PeekDim(e, l, tokenCost, now, d).None?
    ensures PeekDim(e', l, tokenCost, t, d).None?
    ensures LimitOf(l, d).Some? ==> CostOf(tokenCost, d) as real <= CapacityOf(e, l, d)
  {
    if LimitOf(l, d).Some? {
      CapacityWithinConfigured(LimitOf(l, d).value, ShareOf(e, d));
      RefillsWithTime(BucketOf(e, d), CapacityOf(e, l, d), now, t);
    }
  }

  /** The refused request, replayed at any instant `t` with nothing in between:
      if every cost fits its capacity it is admitted at exactly the instants
      from `now + retry_after` on, and otherwise it is never admitted, although
      a finite wait was quoted. The refusal left both buckets as they were. */
  lemma {:induction false} RetryAfterIsExact(e: Entry, l: Limits, tokenCost: nat, now: real, t: real)
    requires SharesValid(e) && !Unlimited(l)
    requires e.requests.lastRefill <= now && e.tokens.lastRefill <= now
    requires CheckEntry(e, l, tokenCost, now).1.Exceeded?
    ensures var (refused, decision) := CheckEntry(e, l, tokenCost, now);
            && decision.retryAfter > 0.0
            && refused.requests == e.requests && refused.tokens == e.tokens
            && (CheckEntry(refused, l, tokenCost, t).1.Admitted? <==>
                CostsFit(e, l, tokenCost) && t >= now + decision.retryAfter)
  {
    var seen := Seen(e, l, tokenCost, now);
    var refused := CheckEntry(e, l, tokenCost, now).0;
    var again := Seen(refused, l, tokenCost, t);
    assert CostsFit(seen, l, tokenCost) == CostsFit(e, l, tokenCost) by {
      assert forall d: Dim :: LimitOf(l, d).Some? ==> CapacityOf(seen, l, d) == CapacityOf(e, l, d);
    }
    DimReplay(seen, again, l, tokenCost, now, t, Requests);
    DimReplay(seen, again, l, tokenCost, now, t, Tokens);
    assert CostsFit(seen, l, tokenCost) <==>
           (forall d: Dim :: d == Requests || d == Tokens ==> (LimitOf(l, d).Some? ==> CostOf(tokenCost, d) as real <= CapacityOf(seen, l, d)));
  }

  /** One dimension's answer at `t`, from its answer at `now`. */
  lemma DimReplay(e: Entry, e': Entry, l: Limits, tokenCost: nat, now: real, t: real, d: Dim)
    requires SharesValid(e) && BucketOf(e, d).lastRefill <= now
    requires BucketOf(e', d) == BucketOf(e, d) && ShareOf(e', d) == ShareOf(e, d)
    ensures var peek := PeekDim(e, l, tokenCost, now, d);
            var fits := LimitOf(l, d).Some? ==> CostOf(tokenCost, d) as real <= CapacityOf(e, l, d);
            && (peek.Some? ==> peek.value > 0.0)
            && (peek.Some? ==> (PeekDim(e', l, tokenCost, t, d).None? <==> fits && t >= now + peek.value))
            && (peek.None? ==> fits && (t >= now ==> PeekDim(e', l, tokenCost, t, d).None?))
  {
    if PeekDim(e, l, tokenCost, now, d).Some? {
      DimWait(e, e', l, tokenCost, now, t, d);
      CapacityWithinConfigured(LimitOf(l, d).value, ShareOf(e, d));
      PositiveWait(BucketOf(e, d), CostOf(tokenCost, d) as real, CapacityOf(e, l, d), now);
    } else if t >= now {
      DimStaysOpen(e, e', l, tokenCost, now, t, d);
    } else {
      DimStaysOpen(e, e', l, tokenCost, now, now, d);
    }
  }

  lemma PositiveWait(b: Bucket, amount: real, capacity: real, now: real)
    requires capacity >= 0.0
    ensures Peek(b, amount, capacity, now).Some? ==> Peek(b, amount, capacity, now).value > 0.0
  {
    if capacity > 0.0 && Refilled(b, capacity, now) < amount {
      var deficit, rate := amount - Refilled(b, capacity, now), capacity / 60.0;
      assert (deficit / rate) * rate == deficit;
    }
  }

  /** `Retry-After` in whole seconds, rounded up, at least one. */
  function HeaderSeconds(retryAfter: real): nat { Max(Ceil(retryAfter), 1) }

  /** A client that honours the rounded header and can ever be served is served. */
  lemma {:induction false} HeaderIsLongEnough(e: Entry, l: Limits, tokenCost: nat, now: real)
    requires SharesValid(e) && !Unlimited(l)
    requires e.requests.lastRefill <= now && e.tokens.lastRefill <= now
    requires CheckEntry(e, l, tokenCost, now).1.Exceeded? && CostsFit(e, l, tokenCost)
    ensures var (refused, decision) := CheckEntry(e, l, tokenCost, now);
            CheckEntry(refused, l, tokenCost, now + HeaderSeconds(decision.retryAfter) as real).1.Admitted?
  {
    var retryAfter := CheckEntry(e, l, tokenCost, now).1.retryAfter;
    RetryAfterIsExact(e, l, tokenCost, now, now + HeaderSeconds(retryAfter) as real);
  }

  /** A request of two tokens against one a minute: quoted a wait of a minute,
      and refused at every instant after it. */
  lemma AnOversizedRequestIsQuotedAWait() returns (e: Entry, l: Limits, cost: nat)
    ensures CheckEntry(e, l, cost, 0.0).1 == Exceeded(60.0) && !CostsFit(e, l, cost)
    ensures forall t :: CheckEntry(CheckEntry(e, l, cost, 0.0).0, l, cost, t).1.Exceeded?
  {
    l, cost := Limits(None, Some(1)), 2;
    e := NewEntry(l, 0.0);
    CapacityWithinConfigured(1, SHARE_SCALE);
    assert LimitOf(l, Tokens).Some? && CostOf(cost, Tokens) as real > CapacityOf(e, l, Tokens);
    forall t
      ensures CheckEntry(CheckEntry(e, l, cost, 0.0).0, l, cost, t).1.Exceeded?
    {
      RetryAfterIsExact(e, l, cost, 0.0, t);
    }
  }

  /** The header is the first whole number of seconds, from one up, that is not
      shorter than the wait. */
  lemma HeaderIsTheFirstSecond(retryAfter: real, seconds: nat)
    ensures seconds >= HeaderSeconds(retryAfter) <==> seconds >= 1 && seconds as real >= retryAfter
  {
    var f := (-retryAfter).Floor;
    assert f as real <= -retryAfter < f as real + 1.0;
    if seconds < -f {
      assert seconds <= -f - 1;
      assert seconds as real <= (-f - 1) as real;
    }
  }
}
