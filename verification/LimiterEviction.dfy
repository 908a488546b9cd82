/**
 When idle eviction can be seen from outside.

 One limiter evicts, the other never does; both answer the same requests.
 With full shares and an idle cutoff of at least a minute they read every
 bucket alike exactly on the traces with no short request: one that follows a
 re-created entry within the minute, nothing charged in between, under a limit
 the re-created bucket has not had the time to reach.
 */
module LimiterEviction {
  import opened Common
  import opened Limiter

  datatype Event =
    | Check(p: Principal, l: Limits, tokenCost: nat, now: real)
    | Evict(now: real, idleAfter: real)

  /** The entries after the first `n` events. */
  function After(events: seq<Event>, n: nat, evicting: bool): Entries
    requires n <= |events|
  {
    if n == 0 then map[] else
      var m := After(events, n - 1, evicting);
      match events[n - 1]
      case Check(p, l, cost, now) => CheckAll(m, p, l, cost, now).0
      case Evict(now, idleAfter) => if evicting then EvictIdle(m, now, idleAfter) else m
  }

  function Answer(events: seq<Event>, n: nat, evicting: bool): Decision
    requires n < |events| && events[n].Check?
  {
    var e := events[n];
    CheckAll(After(events, n, evicting), e.p, e.l, e.tokenCost, e.now).1
  }

  predicate Limited(e: Event) { e.Check? && !Unlimited(e.l) }

  ghost predicate Orderly(events: seq<Event>) {
    && (forall i, j :: 0 <= i < j < |events| ==> events[i].now <= events[j].now)
    && (forall i :: 0 <= i < |events| && events[i].Evict? ==> events[i].idleAfter >= 60.0)
  }

  // ----- what shows -----------------------------------------------------

  /** Event `i` re-creates an entry the sweeps had dropped. */
  predicate Recreates(events: seq<Event>, i: nat)
    requires i < |events|
  {
    Limited(events[i]) && events[i].p !in After(events, i, true) && events[i].p in After(events, i, false)
  }

  /** Event `k` is admitted and debits dimension `d` of `p`. */
  predicate Charged(events: seq<Event>, k: nat, p: Principal, d: Dim)
    requires k < |events|
  {
    events[k].Check? && events[k].p == p && LimitOf(events[k].l, d).Some? && Answer(events, k, true).Admitted?
  }

  predicate Uncharged(events: seq<Event>, i: nat, j: nat, p: Principal, d: Dim)
    requires i <= j <= |events|
  {
    forall k :: i <= k < j ==> !Charged(events, k, p, d)
  }

  function LimitAt(e: Event, d: Dim): real
    requires e.Check?
  {
    OrZero(LimitOf(e.l, d)) as real
  }

  /** The re-created bucket, untouched since `i`, cannot yet hold `j`'s limit. */
  predicate Short(events: seq<Event>, i: nat, j: nat, d: Dim)
    requires i <= j < |events|
  {
    && Recreates(events, i) && Limited(events[j]) && events[j].p == events[i].p && LimitOf(events[j].l, d).Some?
    && Uncharged(events, i, j, events[i].p, d)
    && LimitAt(events[j], d) * (60.0 - (events[j].now - events[i].now)) > 60.0 * LimitAt(events[i], d)
  }

  ghost predicate NeverShort(events: seq<Event>) {
    forall i, j, d: Dim :: 0 <= i <= j < |events| ==> !Short(events, i, j, d)
  }

  function Reads(b: Bucket, e: Event, d: Dim): real
    requires e.Check? && LimitOf(e.l, d).Some?
  {
    Refilled(b, LimitOf(e.l, d).value as real, e.now)
  }

  /** What request `n` finds in dimension `d`. */
  function Meets(events: seq<Event>, n: nat, d: Dim, evicting: bool): real
    requires n < |events| && events[n].Check? && LimitOf(events[n].l, d).Some?
  {
    var e := events[n];
    Reads(BucketOf(EntryFor(After(events, n, evicting), e.p, e.l, e.now), d), e, d)
  }

  ghost predicate AlikeAt(events: seq<Event>, n: nat, d: Dim)
    requires n < |events|
  {
    events[n].Check? && LimitOf(events[n].l, d).Some? ==> Meets(events, n, d, true) == Meets(events, n, d, false)
  }

  ghost predicate AlikeBefore(events: seq<Event>, n: nat)
    requires n <= |events|
  {
    forall j, d: Dim :: 0 <= j < n ==> AlikeAt(events, j, d)
  }

  // ----- the two limiters side by side ----------------------------------

  ghost predicate Settled(e: Entry, now: real) {
    && e.requestsShare == SHARE_SCALE && e.tokensShare == SHARE_SCALE
    && e.lastSeen <= now
    && forall d: Dim :: BucketOf(e, d).available >= 0.0 && BucketOf(e, d).lastRefill <= e.lastSeen
  }

  /** Since event `i` re-created it, the evicting limiter's bucket is untouched,
      and the other limiter's was already idle for a minute then. */
  ghost predicate Apart(events: seq<Event>, i: nat, n: nat, d: Dim, b: Bucket, b': Bucket)
    requires i <= n <= |events|
  {
    && i < n && Recreates(events, i) && Uncharged(events, i, n, events[i].p, d)
    && b == Bucket(LimitAt(events[i], d), events[i].now)
    && b'.available >= 0.0 && b'.lastRefill + 60.0 <= events[i].now
  }

  ghost predicate Together(events: seq<Event>, n: nat, p: Principal, d: Dim, b: Bucket, b': Bucket)
    requires n <= |events|
  {
    b == b' || exists i :: 0 <= i <= n && Apart(events, i, n, d, b, b') && events[i].p == p
  }

  ghost predicate Paired(events: seq<Event>, n: nat, now: real, p: Principal, m: Entries, m': Entries)
    requires n <= |events|
  {
    && (p in m ==> p in m')
    && (p in m ==> Settled(m[p], now) && m[p].lastSeen == m'[p].lastSeen)
    && (p in m' ==> Settled(m'[p], now))
    && (p in m ==> forall d: Dim :: Together(events, n, p, d, BucketOf(m[p], d), BucketOf(m'[p], d)))
    && (p in m' && p !in m ==> m'[p].lastSeen + 60.0 <= now)
  }

  lemma FullShare(configured: nat)
    ensures EffectiveCapacity(configured, SHARE_SCALE) == configured as real
  {
    CapacityWithinConfigured(configured, SHARE_SCALE);
  }

  /** Entries that read alike now answer alike: both are debited to the same
      bucket or both are left alone. */
  lemma SameAnswer(e: Entry, e': Entry, l: Limits, cost: nat, now: real)
    requires Settled(e, now) && Settled(e', now)
    requires forall d: Dim :: LimitOf(l, d).Some? ==>
               Refilled(BucketOf(e, d), LimitOf(l, d).value as real, now) == Refilled(BucketOf(e', d), LimitOf(l, d).value as real, now)
    ensures var (f, decision) := CheckEntry(e, l, cost, now);
            var (f', decision') := CheckEntry(e', l, cost, now);
            && decision == decision' && Settled(f, now) && Settled(f', now) && f.lastSeen == f'.lastSeen == now
            && forall d: Dim ::
                 if decision.Admitted? && LimitOf(l, d).Some? then BucketOf(f, d) == BucketOf(f', d)
                 else BucketOf(f, d) == BucketOf(e, d) && BucketOf(f', d) == BucketOf(e', d)
  {
    var s, s' := Seen(e, l, cost, now), Seen(e', l, cost, now);
    SameDim(e, e', s, s', l, cost, now, Requests);
    SameDim(e, e', s, s', l, cost, now, Tokens);
    assert Wait(s, l, cost, now) == Wait(s', l, cost, now);
  }

  lemma SameDim(e: Entry, e': Entry, s: Entry, s': Entry, l: Limits, cost: nat, now: real, d: Dim)
    requires BucketOf(s, d) == BucketOf(e, d) && BucketOf(s', d) == BucketOf(e', d)
    requires ShareOf(s, d) == ShareOf(s', d) == SHARE_SCALE
    requires LimitOf(l, d).Some? ==>
               Refilled(BucketOf(e, d), LimitOf(l, d).value as real, now) == Refilled(BucketOf(e', d), LimitOf(l, d).value as real, now)
    ensures PeekDim(s, l, cost, now, d) == PeekDim(s', l, cost, now, d)
    ensures LimitOf(l, d).Some? ==> CommitDim(s, l, cost, now, d) == CommitDim(s', l, cost, now, d)
    ensures PeekDim(s, l, cost, now, d).None? && LimitOf(l, d).Some? ==> CommitDim(s, l, cost, now, d).available >= 0.0
  {
    if LimitOf(l, d).Some? {
      FullShare(LimitOf(l, d).value);
    }
  }

  // ----- what a request finds -------------------------------------------

  /** A bucket re-created with `held` reads as full under `limit` exactly when
      `limit` is within its reach. */
  lemma ReachesIff(held: real, limit: real, since: real, b: Bucket, now: real)
    requires held >= 0.0 && limit >= 0.0 && since >= 0.0 && b == Bucket(held, now - since)
    ensures Refilled(b, limit, now) == limit <==> limit * (60.0 - since) <= 60.0 * held
  {
    assert now - b.lastRefill == since;
    assert since * (limit / 60.0) == limit * since / 60.0;
    assert limit * (60.0 - since) == 60.0 * limit - limit * since;
  }

  lemma ApartReads(events: seq<Event>, i: nat, n: nat, d: Dim, b: Bucket, b': Bucket)
    requires Orderly(events) && i < n < |events| && Apart(events, i, n, d, b, b')
    requires Limited(events[n]) && events[n].p == events[i].p && LimitOf(events[n].l, d).Some?
    ensures Reads(b, events[n], d) == Reads(b', events[n], d) <==> !Short(events, i, n, d)
  {
    hide Recreates, Uncharged;
    var limit := LimitAt(events[n], d);
    assert events[i].now <= events[n].now;
    AMinuteFills(b', limit, events[n].now);
    ReachesIff(b.available, limit, events[n].now - events[i].now, b, events[n].now);
  }

  lemma RecreatedReads(events: seq<Event>, n: nat, d: Dim, e': Entry)
    requires n < |events| && Limited(events[n]) && LimitOf(events[n].l, d).Some?
    requires Settled(e', events[n].now) && e'.lastSeen + 60.0 <= events[n].now
    ensures Reads(BucketOf(NewEntry(events[n].l, events[n].now), d), events[n], d) == Reads(BucketOf(e', d), events[n], d)
  {
    var limit := LimitAt(events[n], d);
    HoldingEnoughIsFull(BucketOf(NewEntry(events[n].l, events[n].now), d), limit, events[n].now);
    AMinuteFills(BucketOf(e', d), limit, events[n].now);
  }

  // ----- one event at a time --------------------------------------------

  lemma CheckKeepsTogether(events: seq<Event>, n: nat, d: Dim, b: Bucket, b': Bucket, c: Bucket, c': Bucket)
    requires n < |events| && Limited(events[n])
    requires Together(events, n, events[n].p, d, b, b')
    requires if Charged(events, n, events[n].p, d) then c == c' else c == b && c' == b'
    ensures Together(events, n + 1, events[n].p, d, c, c')
  {
    hide Charged;
    if c != c' {
      var i :| 0 <= i <= n && Apart(events, i, n, d, b, b') && events[i].p == events[n].p;
      assert Apart(events, i, n + 1, d, c, c');
    }
  }

  lemma RecreationKeepsTogether(events: seq<Event>, n: nat, d: Dim, e': Entry, c: Bucket, c': Bucket)
    requires n < |events| && Recreates(events, n) && Settled(e', events[n].now) && e'.lastSeen + 60.0 <= events[n].now
    requires if Charged(events, n, events[n].p, d) then c == c'
             else c == BucketOf(NewEntry(events[n].l, events[n].now), d) && c' == BucketOf(e', d)
    ensures Together(events, n + 1, events[n].p, d, c, c')
  {
    hide Recreates, Charged;
    if c != c' {
      assert Apart(events, n, n + 1, d, c, c');
    }
  }

  lemma CheckKeepsPaired(events: seq<Event>, n: nat)
    requires Orderly(events) && n < |events| && Limited(events[n]) && forall d: Dim :: AlikeAt(events, n, d)
    requires Paired(events, n, events[n].now, events[n].p, After(events, n, true), After(events, n, false))
    ensures Answer(events, n, true) == Answer(events, n, false)
    ensures Paired(events, n + 1, events[n].now, events[n].p, After(events, n + 1, true), After(events, n + 1, false))
  {
    var e, m, m' := events[n], After(events, n, true), After(events, n, false);
    var entry, entry' := EntryFor(m, e.p, e.l, e.now), EntryFor(m', e.p, e.l, e.now);
    forall d: Dim | LimitOf(e.l, d).Some?
      ensures Refilled(BucketOf(entry, d), LimitOf(e.l, d).value as real, e.now) ==
              Refilled(BucketOf(entry', d), LimitOf(e.l, d).value as real, e.now)
    {
      assert AlikeAt(events, n, d);
    }
    SameAnswer(entry, entry', e.l, e.tokenCost, e.now);
    var f, f' := CheckEntry(entry, e.l, e.tokenCost, e.now).0, CheckEntry(entry', e.l, e.tokenCost, e.now).0;
    forall d: Dim
      ensures Together(events, n + 1, e.p, d, BucketOf(f, d), BucketOf(f', d))
    {
      if e.p in m || e.p !in m' {
        CheckKeepsTogether(events, n, d, BucketOf(entry, d), BucketOf(entry', d), BucketOf(f, d), BucketOf(f', d));
      } else {
        RecreationKeepsTogether(events, n, d, entry', BucketOf(f, d), BucketOf(f', d));
      }
    }
  }

  lemma OthersKeepPaired(events: seq<Event>, n: nat, p: Principal)
    requires n < |events| && !(Limited(events[n]) && events[n].p == p) && (events[n].Evict? ==> events[n].idleAfter >= 60.0)
    requires Paired(events, n, events[n].now, p, After(events, n, true), After(events, n, false))
    ensures Paired(events, n + 1, events[n].now, p, After(events, n + 1, true), After(events, n + 1, false))
  {
    var m, m', next, next' := After(events, n, true), After(events, n, false), After(events, n + 1, true), After(events, n + 1, false);
    forall d: Dim | p in next
      ensures Together(events, n + 1, p, d, BucketOf(next[p], d), BucketOf(next'[p], d))
    {
      var b, b' := BucketOf(m[p], d), BucketOf(m'[p], d);
      assert Together(events, n, p, d, b, b');
      if b != b' {
        var i :| 0 <= i <= n && Apart(events, i, n, d, b, b') && events[i].p == p;
        assert Apart(events, i, n + 1, d, b, b');
      }
    }
  }

  lemma {:induction false} PairedThroughout(events: seq<Event>, n: nat, now: real, p: Principal)
    requires Orderly(events) && n <= |events| && AlikeBefore(events, n) && (n > 0 ==> events[n - 1].now <= now)
    ensures Paired(events, n, now, p, After(events, n, true), After(events, n, false))
  {
    hide Together, After;
    if n == 0 {
      assert After(events, 0, true) == After(events, 0, false) == map[] by { NothingYet(events); }
    } else {
      var k := n - 1;
      PairedThroughout(events, k, events[k].now, p);
      if Limited(events[k]) && events[k].p == p {
        assert forall d: Dim :: AlikeAt(events, k, d);
        CheckKeepsPaired(events, k);
      } else {
        OthersKeepPaired(events, k, p);
      }
    }
  }

  lemma NothingYet(events: seq<Event>)
    ensures After(events, 0, true) == After(events, 0, false) == map[]
  {
  }

  // ----- apart until charged or idle ------------------------------------

  lemma ApartFrom(events: seq<Event>, i: nat, d: Dim)
    requires Orderly(events) && i < |events| && AlikeBefore(events, i + 1) && Recreates(events, i)
    requires !Charged(events, i, events[i].p, d)
    ensures StaysApart(events, i, i + 1, d)
  {
    var e, m, m' := events[i], After(events, i, true), After(events, i, false);
    PairedThroughout(events, i, e.now, e.p);
    var entry, entry' := NewEntry(e.l, e.now), m'[e.p];
    forall d: Dim | LimitOf(e.l, d).Some?
      ensures Refilled(BucketOf(entry, d), LimitOf(e.l, d).value as real, e.now) ==
              Refilled(BucketOf(entry', d), LimitOf(e.l, d).value as real, e.now)
    {
      RecreatedReads(events, i, d, entry');
    }
    SameAnswer(entry, entry', e.l, e.tokenCost, e.now);
  }

  /** `Apart`, of the entries the two limiters hold before event `n`. */
  ghost predicate StaysApart(events: seq<Event>, i: nat, n: nat, d: Dim)
    requires i < n <= |events| && events[i].Check?
  {
    var p, m, m' := events[i].p, After(events, n, true), After(events, n, false);
    && p in m && p in m' && m[p].lastSeen >= events[i].now
    && Apart(events, i, n, d, BucketOf(m[p], d), BucketOf(m'[p], d))
  }

  lemma CheckKeepsApart(events: seq<Event>, i: nat, n: nat, d: Dim)
    requires Orderly(events) && i < n < |events| && AlikeBefore(events, n + 1)
    requires events[i].Check? && StaysApart(events, i, n, d) && Limited(events[n]) && events[n].p == events[i].p
    requires !Charged(events, n, events[n].p, d)
    ensures StaysApart(events, i, n + 1, d)
  {
    hide Recreates;
    var e, m, m' := events[n], After(events, n, true), After(events, n, false);
    PairedThroughout(events, n, e.now, e.p);
    forall d: Dim | LimitOf(e.l, d).Some?
      ensures Refilled(BucketOf(m[e.p], d), LimitOf(e.l, d).value as real, e.now) ==
              Refilled(BucketOf(m'[e.p], d), LimitOf(e.l, d).value as real, e.now)
    {
      assert AlikeAt(events, n, d);
    }
    assert events[i].now <= e.now;
    SameAnswer(m[e.p], m'[e.p], e.l, e.tokenCost, e.now);
  }

  lemma {:induction false} ApartWhileUncharged(events: seq<Event>, i: nat, n: nat, d: Dim)
    requires Orderly(events) && i < n <= |events| && AlikeBefore(events, n)
    requires Recreates(events, i) && Uncharged(events, i, n, events[i].p, d) && events[n - 1].now < events[i].now + 60.0
    ensures StaysApart(events, i, n, d)
  {
    if n == i + 1 {
      ApartFrom(events, i, d);
    } else {
      assert events[n - 2].now <= events[n - 1].now;
      ApartWhileUncharged(events, i, n - 1, d);
      if Limited(events[n - 1]) && events[n - 1].p == events[i].p {
        CheckKeepsApart(events, i, n - 1, d);
      }
    }
  }

  // ----- exactly when eviction is seen ----------------------------------

  lemma WithinTheMinute(limit: real, since: real, held: real)
    requires limit >= 0.0 && held >= 0.0 && limit * (60.0 - since) > 60.0 * held
    ensures since < 60.0
  {
    assert limit * (60.0 - since) == (60.0 - since) * limit;
    if since >= 60.0 {
      Scale(60.0 - since, 0.0, limit);
    }
  }

  lemma ShortShows(events: seq<Event>, i: nat, n: nat, d: Dim)
    requires Orderly(events) && i <= n < |events| && AlikeBefore(events, n) && Short(events, i, n, d)
    ensures !AlikeAt(events, n, d)
  {
    hide Uncharged;
    WithinTheMinute(LimitAt(events[n], d), events[n].now - events[i].now, LimitAt(events[i], d));
    if i < n {
      assert events[n - 1].now <= events[n].now;
      ApartWhileUncharged(events, i, n, d);
      var p := events[i].p;
      ApartReads(events, i, n, d, BucketOf(After(events, n, true)[p], d), BucketOf(After(events, n, false)[p], d));
    }
  }

  lemma OnlyShortShows(events: seq<Event>, n: nat, d: Dim)
    requires Orderly(events) && n < |events| && AlikeBefore(events, n) && !AlikeAt(events, n, d)
    ensures exists i :: 0 <= i <= n && Short(events, i, n, d)
  {
    hide Uncharged;
    var e, m, m' := events[n], After(events, n, true), After(events, n, false);
    PairedThroughout(events, n, e.now, e.p);
    if e.p in m {
      var b, b' := BucketOf(m[e.p], d), BucketOf(m'[e.p], d);
      assert Together(events, n, e.p, d, b, b');
      var i :| 0 <= i <= n && Apart(events, i, n, d, b, b') && events[i].p == e.p;
      ApartReads(events, i, n, d, b, b');
    } else if e.p in m' {
      RecreatedReads(events, n, d, m'[e.p]);
    }
  }

  lemma {:induction false} AlikeUntil(events: seq<Event>, n: nat)
    requires Orderly(events) && NeverShort(events) && n <= |events|
    ensures AlikeBefore(events, n)
  {
    hide Short, AlikeAt;
    if n > 0 {
      var k := n - 1;
      AlikeUntil(events, k);
      forall d: Dim
        ensures AlikeAt(events, k, d)
      {
        if !AlikeAt(events, k, d) {
          OnlyShortShows(events, k, d);
        }
      }
    }
  }

  /** On any trace, whatever the eviction schedule and however limits change:
      every request reads both limiters' buckets alike exactly when none is
      short. */
  lemma EvictionShowsIff(events: seq<Event>)
    requires Orderly(events)
    ensures AlikeBefore(events, |events|) <==> NeverShort(events)
  {
    hide Short, AlikeAt;
    if NeverShort(events) {
      AlikeUntil(events, |events|);
    }
    if AlikeBefore(events, |events|) {
      forall i, j, d: Dim | 0 <= i <= j < |events|
        ensures !Short(events, i, j, d)
      {
        if Short(events, i, j, d) {
          ShortShows(events, i, j, d);
        }
      }
    }
  }

  /** And then every answer is the same: the decision, and the remaining and
      reset figures. */
  lemma EvictionIsInvisible(events: seq<Event>, n: nat)
    requires Orderly(events) && NeverShort(events) && n < |events| && events[n].Check?
    ensures Answer(events, n, true) == Answer(events, n, false)
  {
    if Limited(events[n]) {
      AlikeUntil(events, |events|);
      forall d: Dim
        ensures AlikeAt(events, n, d)
      {
      }
      PairedThroughout(events, n, events[n].now, events[n].p);
      CheckKeepsPaired(events, n);
    }
  }

  lemma WaitAtLeast(cap: real, held: real, cost: real, patience: real)
    requires cap > 0.0 && held <= cap && patience >= 0.0 && cost > cap * (1.0 + patience / 60.0)
    ensures cost > held && (cost - held) / (cap / 60.0) >= patience
  {
    var over, rate := cost - held, cap / 60.0;
    assert cap * (1.0 + patience / 60.0) == cap + patience * rate;
    Scale(0.0, patience, rate);
    assert over / rate * rate == over;
    if over / rate < patience {
      Scale(over / rate, patience, rate);
    }
  }

  lemma TokenWait(e: Entry, l: Limits, cost: nat, now: real, patience: real)
    requires Settled(e, now) && l.tokensPerMin.Some? && l.tokensPerMin.value > 0 && patience >= 0.0
    requires cost as real > l.tokensPerMin.value as real * (1.0 + patience / 60.0)
    ensures var cap := l.tokensPerMin.value as real;
            var wait := PeekDim(e, l, cost, now, Tokens);
            wait == Some((cost as real - Refilled(e.tokens, cap, now)) / (cap / 60.0)) && wait.value >= patience
  {
    var cap := l.tokensPerMin.value as real;
    var held := Refilled(e.tokens, cap, now);
    assert held <= cap;
    hide Refilled, EffectiveCapacity;
    FullShare(l.tokensPerMin.value);
    WaitAtLeast(cap, held, cost as real, patience);
    assert cost >= 1;
  }

  function RequestWait(e: Entry, l: Limits, now: real): real {
    var w := PeekDim(e, l, 1, now, Requests);
    if w.Some? then w.value else 0.0
  }

  /** A token cost large enough decides the answer alone. */
  lemma OversizedAnswer(e: Entry, l: Limits, cost: nat, now: real, patience: real)
    requires Settled(e, now) && l.tokensPerMin.Some? && l.tokensPerMin.value > 0 && patience >= 0.0
    requires cost as real > l.tokensPerMin.value as real * (1.0 + patience / 60.0) && RequestWait(e, l, now) <= patience
    ensures var cap := l.tokensPerMin.value as real;
            CheckEntry(e, l, cost, now).1 == Exceeded((cost as real - Refilled(e.tokens, cap, now)) / (cap / 60.0))
  {
    hide Refilled, EffectiveCapacity;
    var s := Seen(e, l, cost, now);
    assert forall d: Dim :: BucketOf(s, d) == BucketOf(e, d);
    TokenWait(s, l, cost, now, patience);
    assert PeekDim(s, l, cost, now, Requests) == PeekDim(e, l, 1, now, Requests);
  }

  lemma SomeCost(cap: real, patience: real) returns (cost: nat)
    requires cap >= 0.0 && patience >= 0.0
    ensures cost as real > cap * (1.0 + patience / 60.0)
  {
    var factor := 1.0 + patience / 60.0;
    Scale(0.0, factor, cap);
    assert cap * factor == factor * cap >= 0.0;
    cost := (cap * factor).Floor + 1;
  }

  /** Token buckets that read differently can be told apart by a client: some
      cost gets two different answers. */
  lemma ADifferenceShows(e: Entry, e': Entry, l: Limits, now: real) returns (cost: nat)
    requires Settled(e, now) && Settled(e', now) && l.tokensPerMin.Some?
    requires Refilled(e.tokens, l.tokensPerMin.value as real, now) != Refilled(e'.tokens, l.tokensPerMin.value as real, now)
    ensures CheckEntry(e, l, cost, now).1 != CheckEntry(e', l, cost, now).1
  {
    var cap := l.tokensPerMin.value as real;
    assert BucketOf(e, Tokens).available >= 0.0 && BucketOf(e', Tokens).available >= 0.0;
    assert l.tokensPerMin.value > 0;
    hide Refilled, PeekDim, CheckEntry;
    var patience := RMax(RMax(RequestWait(e, l, now), RequestWait(e', l, now)), 0.0);
    cost := SomeCost(cap, patience);
    OversizedAnswer(e, l, cost, now, patience);
    OversizedAnswer(e', l, cost, now, patience);
    Quotients(cost as real - Refilled(e.tokens, cap, now), cost as real - Refilled(e'.tokens, cap, now), cap / 60.0);
  }

  lemma Quotients(a: real, b: real, rate: real)
    requires a != b && rate > 0.0
    ensures a / rate != b / rate
  {
    assert a / rate * rate == a && b / rate * rate == b;
  }

  lemma InReach(limit: real, since: real, held: real)
    requires limit >= 0.0 && since >= 0.0 && held >= 0.0 && (since < 60.0 ==> limit <= held)
    ensures limit * (60.0 - since) <= 60.0 * held
  {
    assert limit * (60.0 - since) == (60.0 - since) * limit;
    Scale(60.0 - since, if since < 60.0 then 60.0 else 0.0, limit);
  }

  /** In particular where no limit is raised within a minute of an earlier
      request; an unset limit counts as zero. */
  lemma NoRaiseIsNeverShort(events: seq<Event>)
    requires Orderly(events)
    requires forall i, j, d: Dim ::
               0 <= i < j < |events| && Limited(events[i]) && Limited(events[j]) && events[i].p == events[j].p
               && events[j].now < events[i].now + 60.0 ==>
                 LimitAt(events[j], d) <= LimitAt(events[i], d)
    ensures NeverShort(events)
  {
    forall i, j, d: Dim | 0 <= i <= j < |events|
      ensures !Short(events, i, j, d)
    {
      if Short(events, i, j, d) {
        assert i < j ==> events[i].now <= events[j].now;
        InReach(LimitAt(events[j], d), events[j].now - events[i].now, LimitAt(events[i], d));
      }
    }
  }

  // ----- and for every raise, a trace that shows it ---------------------

  /** The second request comes after an eviction and is refused, so the
      re-created bucket keeps the old limit's worth; the third meets the new
      limit. */
  function RaisedTrace(low: Limits, high: Limits, cost: nat, last: nat): seq<Event> {
    [Check(0, low, cost, 0.0), Evict(60.0, 60.0), Check(0, low, cost, 60.0), Check(0, high, last, 60.0)]
  }

  /** A refused check leaves an entry's buckets and shares alone. */
  lemma RefusedOnce(e: Entry, l: Limits, cost: nat, now: real)
    requires e.tokensShare == SHARE_SCALE && l.tokensPerMin.Some? && l.tokensPerMin.value < cost
    ensures var (f, decision) := CheckEntry(e, l, cost, now);
            f == Seen(e, l, cost, now)
  {
    FullShare(l.tokensPerMin.value);
    assert PeekDim(Seen(e, l, cost, now), l, cost, now, Tokens).Some?;
  }

  lemma BeforeTheRaise(low: Limits, high: Limits, cost: nat, last: nat)
    requires low.tokensPerMin.Some? && low.tokensPerMin.value < cost
    ensures var events := RaisedTrace(low, high, cost, last);
            var m, m' := After(events, 3, true), After(events, 3, false);
            && 0 in m && 0 in m'
            && m[0].requests == Bucket(OrZero(low.requestsPerMin) as real, 60.0)
            && m[0].tokens == Bucket(OrZero(low.tokensPerMin) as real, 60.0)
            && m'[0].requests == Bucket(OrZero(low.requestsPerMin) as real, 0.0)
            && m'[0].tokens == Bucket(OrZero(low.tokensPerMin) as real, 0.0)
            && m[0].requestsShare == m[0].tokensShare == m'[0].requestsShare == m'[0].tokensShare == SHARE_SCALE
  {
    var events := RaisedTrace(low, high, cost, last);
    var first := NewEntry(low, 0.0);
    RefusedOnce(first, low, cost, 0.0);
    var seen := Seen(first, low, cost, 0.0);
    assert After(events, 0, true) == After(events, 0, false) == map[];
    assert After(events, 1, true) == After(events, 1, false) == map[0 := seen];
    assert After(events, 2, true) == map[];
    assert After(events, 2, false) == map[0 := seen];
    RefusedOnce(NewEntry(low, 60.0), low, cost, 60.0);
    RefusedOnce(seen, low, cost, 60.0);
    assert After(events, 3, true) == map[0 := Seen(NewEntry(low, 60.0), low, cost, 60.0)];
    assert After(events, 3, false) == map[0 := Seen(seen, low, cost, 60.0)];
  }

  /** Raising the token limit from `low` to `high`: the evicting limiter
      refuses a request the other one admits. */
  lemma RaisingTokensShows(low: nat, high: nat)
    requires low < high
    ensures var events := RaisedTrace(Limits(None, Some(low)), Limits(None, Some(high)), high, high);
            && Orderly(events)
            && Answer(events, 3, true).Exceeded? && Answer(events, 3, false).Admitted?
  {
    var l, h := Limits(None, Some(low)), Limits(None, Some(high));
    BeforeTheRaise(l, h, high, high);
    FullShare(high);
    AMinuteFills(Bucket(low as real, 0.0), high as real, 60.0);
    assert Refilled(Bucket(low as real, 60.0), high as real, 60.0) == low as real;
  }

  /** The answer to a request whose request bucket reads `have`. */
  ghost predicate Told(decision: Decision, have: nat) {
    if have == 0 then decision.Exceeded?
    else decision.Admitted? && decision.status.Some? && decision.status.value.requestsRemaining == Some(have - 1)
  }

  lemma RequestsLeft(e: Entry, high: nat, have: nat, now: real)
    requires e.requestsShare == e.tokensShare == SHARE_SCALE
    requires Refilled(e.requests, high as real, now) == have as real && Refilled(e.tokens, 1.0, now) == 1.0
    ensures Told(CheckEntry(e, Limits(Some(high), Some(1)), 1, now).1, have)
  {
    FullShare(high);
    FullShare(1);
    var l := Limits(Some(high), Some(1));
    var s := Seen(e, l, 1, now);
    assert PeekDim(s, l, 1, now, Tokens).None?;
    if have > 0 {
      assert PeekDim(s, l, 1, now, Requests).None?;
      assert CommitDim(s, l, 1, now, Requests).available == (have - 1) as real;
    }
  }

  lemma ReadsAtOnce(held: real, limit: real, now: real)
    requires 0.0 <= held <= limit
    ensures Refilled(Bucket(held, now), limit, now) == held
  {
    assert RMax(now - now, 0.0) == 0.0;
    assert 0.0 * (limit / 60.0) == 0.0;
  }

  lemma AnswerOfTheKnown(m: Entries, e: Event)
    requires Limited(e) && e.p in m
    ensures CheckAll(m, e.p, e.l, e.tokenCost, e.now).1 == CheckEntry(m[e.p], e.l, e.tokenCost, e.now).1
  {
    hide CheckEntry;
  }

  lemma RaisedAnswer(low: nat, high: nat, evicting: bool)
    requires low < high
    ensures var events := RaisedTrace(Limits(Some(low), Some(1)), Limits(Some(high), Some(1)), 2, 1);
            Told(Answer(events, 3, evicting), if evicting then low else high)
  {
    hide After, CheckEntry, CheckAll, Told, Refilled;
    var l, h := Limits(Some(low), Some(1)), Limits(Some(high), Some(1));
    var events, had := RaisedTrace(l, h, 2, 1), low as real;
    BeforeTheRaise(l, h, 2, 1);
    var m := After(events, 3, evicting);
    if evicting {
      ReadsAtOnce(had, high as real, 60.0);
      ReadsAtOnce(1.0, 1.0, 60.0);
    } else {
      AMinuteFills(Bucket(had, 0.0), high as real, 60.0);
      AMinuteFills(Bucket(1.0, 0.0), 1.0, 60.0);
    }
    AnswerOfTheKnown(m, events[3]);
    RequestsLeft(m[0], high, if evicting then low else high, 60.0);
  }

  /** Raising the request limit: the two limiters answer the same request
      differently, in the decision or in the remaining figure. */
  lemma RaisingRequestsShows(low: nat, high: nat)
    requires low < high
    ensures var events := RaisedTrace(Limits(Some(low), Some(1)), Limits(Some(high), Some(1)), 2, 1);
            && Orderly(events)
            && Answer(events, 3, true) != Answer(events, 3, false)
  {
    RaisedAnswer(low, high, true);
    RaisedAnswer(low, high, false);
  }
}
