/**
 Why a backend leaves rotation and why it comes back (src/registry.rs), read
 off the history of the run: which timeouts, missed probes and frozen samples
 count, what clears them, and what each exit and each return leaves behind.
 */
module HealthCauses {
  import opened Common
  import opened Health

  // ----- turning points of a run ----------------------------------------

  /** Step `n` brings the backend back by the fleet's word. */
  ghost predicate Withdrawn(tr: seq<Health>, ops: seq<Op>, n: nat)
    requires Run(tr, ops) && n < |ops|
  {
    ops[n].Withdraw? && !tr[n].healthy && tr[n + 1].healthy
  }

  /** Step `n` is a passing probe at or after the deadline of a traffic ejection. */
  ghost predicate Absolved(tr: seq<Health>, ops: seq<Op>, n: nat)
    requires Run(tr, ops) && n < |ops|
  {
    ops[n].ProbePassed? && tr[n].byTraffic && ops[n].now >= tr[n].until
  }

  /** The engine was seen to make progress before event `n`. */
  ghost predicate Moved(ops: seq<Op>, n: nat)
    requires n <= |ops|
  {
    exists i :: 0 <= i < n && MovingSample(ops, i)
  }

  // ----- the evidence ---------------------------------------------------

  /** Timeouts in a row: cleared by a response, by a withdrawal and by reaching
      the threshold, and one short of any threshold after a traffic ejection is
      absolved. */
  ghost function Late(tr: seq<Health>, ops: seq<Op>, n: nat): nat
    requires Run(tr, ops) && n <= |ops|
  {
    if n == 0 then 0 else
      var so := Late(tr, ops, n - 1);
      if ops[n - 1].Timeout? then (if so + 1 >= ops[n - 1].threshold then 0 else so + 1)
      else if ops[n - 1].Responded? || Withdrawn(tr, ops, n - 1) then 0
      else if Absolved(tr, ops, n - 1) then 0x7FFF_FFFF
      else so
  }

  /** Probes missed in a row: cleared by a passing one and by a withdrawal. */
  ghost function Missed(tr: seq<Health>, ops: seq<Op>, n: nat): nat
    requires Run(tr, ops) && n <= |ops|
  {
    if n == 0 || ops[n - 1].ProbePassed? || Withdrawn(tr, ops, n - 1) then 0
    else Missed(tr, ops, n - 1) + (if ops[n - 1].ProbeMissed? then 1 else 0)
  }

  /** Frozen samples in a row after some movement: cleared by a sample that moved
      or found nothing running, by a withdrawal and by absolution. */
  ghost function Silence(tr: seq<Health>, ops: seq<Op>, n: nat): nat
    requires Run(tr, ops) && n <= |ops|
  {
    if n == 0 || Withdrawn(tr, ops, n - 1) || Absolved(tr, ops, n - 1) then 0
    else if !ops[n - 1].Scraped? then Silence(tr, ops, n - 1)
    else if FrozenSample(ops, n - 1) then Silence(tr, ops, n - 1) + (if Moved(ops, n - 1) then 1 else 0)
    else 0
  }

  lemma TimeoutsStep(h: Health, op: Op)
    ensures Step(h, op).timeouts ==
            if op.Timeout? then (if h.timeouts + 1 >= op.threshold then 0 else h.timeouts + 1)
            else if op.Responded? || (op.Withdraw? && !h.healthy && Step(h, op).healthy) then 0
            else if op.ProbePassed? && h.byTraffic && op.now >= h.until then 0x7FFF_FFFF
            else h.timeouts
  {
  }

  lemma FailuresStep(h: Health, op: Op)
    ensures Step(h, op).failures ==
            if op.ProbePassed? || (op.Withdraw? && !h.healthy && Step(h, op).healthy) then 0
            else h.failures + (if op.ProbeMissed? then 1 else 0)
  {
  }

  lemma StallsStep(h: Health, op: Op)
    ensures Step(h, op).stalls ==
            if op.Withdraw? && !h.healthy && Step(h, op).healthy then 0
            else if op.ProbePassed? && h.byTraffic && op.now >= h.until then 0
            else if !op.Scraped? || h.last.ts == 0 then h.stalls
            else if op.load.running > 0 && Frozen(h.last, op.load) then h.stalls + (if h.everMoved then 1 else 0)
            else 0
  {
  }

  lemma MovedMeans(ops: seq<Op>, n: nat)
    requires n <= |ops|
    ensures Moved(ops, n) <==> exists i :: 0 <= i < n && MovingSample(ops, i)
  {
  }

  /** The three counters a backend keeps are exactly this evidence. */
  lemma {:induction false} CountersAreEvidence(tr: seq<Health>, ops: seq<Op>, n: nat)
    requires Run(tr, ops) && n <= |ops|
    ensures tr[n].timeouts == Late(tr, ops, n) && tr[n].failures == Missed(tr, ops, n) && tr[n].stalls == Silence(tr, ops, n)
  {
    if n > 0 {
      hide Step, Moved, Frozen;
      CountersAreEvidence(tr, ops, n - 1);
      StallEvidence(tr, ops, n - 1);
      assert Moved(ops, n - 1) <==> tr[n - 1].everMoved by { MovedMeans(ops, n - 1); }
      assert tr[n] == Step(tr[n - 1], ops[n - 1]);
      TimeoutsStep(tr[n - 1], ops[n - 1]);
      FailuresStep(tr[n - 1], ops[n - 1]);
      StallsStep(tr[n - 1], ops[n - 1]);
    }
  }

  // ----- leaving --------------------------------------------------------

  /** Scrape `n` completes `threshold` frozen samples. */
  ghost predicate Stalls(tr: seq<Health>, ops: seq<Op>, n: nat)
    requires Run(tr, ops) && n < |ops|
  {
    && ops[n].Scraped? && FrozenSample(ops, n) && Moved(ops, n)
    && Silence(tr, ops, n) + 1 >= ops[n].threshold
  }

  ghost predicate TimesOut(tr: seq<Health>, ops: seq<Op>, n: nat)
    requires Run(tr, ops) && n < |ops|
  {
    ops[n].Timeout? && Late(tr, ops, n) + 1 >= ops[n].threshold
  }

  ghost predicate MissesOut(tr: seq<Health>, ops: seq<Op>, n: nat)
    requires Run(tr, ops) && n < |ops|
  {
    ops[n].ProbeMissed? && Missed(tr, ops, n) + 1 >= ops[n].threshold
  }

  /** A backend in rotation leaves it exactly when a timeout, a missed probe or a
      frozen sample completes its threshold. Traffic sets a deadline 30 to 300
      seconds out; a missed probe sets none. */
  lemma {:induction false} LeavesExactly(tr: seq<Health>, ops: seq<Op>, n: nat)
    requires Run(tr, ops) && n < |ops| && tr[n].healthy
    ensures !tr[n + 1].healthy <==> Stalls(tr, ops, n) || TimesOut(tr, ops, n) || MissesOut(tr, ops, n)
    ensures Stalls(tr, ops, n) || TimesOut(tr, ops, n) ==>
              && tr[n + 1].byTraffic && tr[n + 1].lastEjected == ops[n].now
              && ops[n].now + 30_000 <= tr[n + 1].until <= ops[n].now + 300_000
    ensures MissesOut(tr, ops, n) ==> tr[n + 1].byTraffic == tr[n].byTraffic && tr[n + 1].until == tr[n].until
    ensures tr[n + 1].ejections == tr[n].ejections + (if tr[n + 1].healthy then 0 else 1)
  {
    CountersAreEvidence(tr, ops, n);
    StallEvidence(tr, ops, n);
    BackoffSteps(StreakAt(tr[n], ops[n].now));
    assert tr[n + 1] == Step(tr[n], ops[n]);
    hide Moved, Silence, Late, Missed, Backoff;
  }

  /** `check_stall` answers exactly whether the scrape completes a stall, in
      rotation or out of it. */
  lemma {:induction false} StallIsReportedExactly(tr: seq<Health>, ops: seq<Op>, n: nat)
    requires Run(tr, ops) && n < |ops| && ops[n].Scraped?
    ensures CheckStall(tr[n], ops[n].load, ops[n].threshold, ops[n].now).1 <==> Stalls(tr, ops, n)
  {
    CountersAreEvidence(tr, ops, n);
    StallEvidence(tr, ops, n);
  }

  // ----- coming back ----------------------------------------------------

  /** A backend out of rotation comes back exactly by a passing probe that no
      traffic deadline forbids, or by a withdrawal that a traffic ejection allows
      only with a peer serving. */
  lemma {:induction false} ReturnsExactly(tr: seq<Health>, ops: seq<Op>, n: nat)
    requires Run(tr, ops) && n < |ops| && !tr[n].healthy
    ensures tr[n + 1].healthy <==>
            || (ops[n].ProbePassed? && (tr[n].byTraffic ==> ops[n].now >= tr[n].until))
            || (ops[n].Withdraw? && (tr[n].byTraffic ==> ops[n].peersServing))
    ensures tr[n + 1].ejections == tr[n].ejections && tr[n + 1].until == tr[n].until
  {
    assert tr[n + 1] == Step(tr[n], ops[n]);
  }

  // ----- what the two flags mean ----------------------------------------

  ghost predicate TrafficExit(tr: seq<Health>, ops: seq<Op>, n: nat)
    requires Run(tr, ops) && n < |ops|
  {
    tr[n].healthy && !tr[n + 1].healthy && !ops[n].ProbeMissed?
  }

  ghost predicate Unabsolved(tr: seq<Health>, ops: seq<Op>, i: nat, n: nat)
    requires Run(tr, ops) && i < n <= |ops|
  {
    TrafficExit(tr, ops, i) && forall k :: i < k < n ==> !Absolved(tr, ops, k)
  }

  lemma FlagStep(h: Health, op: Op)
    ensures Step(h, op).byTraffic <==>
            || (h.healthy && !Step(h, op).healthy && !op.ProbeMissed?)
            || (h.byTraffic && !(op.ProbePassed? && op.now >= h.until))
    ensures Step(h, op).unconfirmed <==>
            || (op.Withdraw? && !h.healthy && Step(h, op).healthy)
            || (h.unconfirmed && !op.ProbePassed?)
  {
  }

  /** A backend is marked as ejected by traffic exactly while some such exit has
      not been absolved. */
  lemma {:induction false} ByTrafficMeans(tr: seq<Health>, ops: seq<Op>, n: nat)
    requires Run(tr, ops) && n <= |ops|
    ensures tr[n].byTraffic <==> exists i :: 0 <= i < n && Unabsolved(tr, ops, i, n)
  {
    if n > 0 {
      var k := n - 1;
      ByTrafficMeans(tr, ops, k);
      assert tr[n] == Step(tr[k], ops[k]);
      FlagStep(tr[k], ops[k]);
      hide Step;
      if tr[n].byTraffic {
        if TrafficExit(tr, ops, k) {
          assert Unabsolved(tr, ops, k, n);
        } else {
          var i :| 0 <= i < k && Unabsolved(tr, ops, i, k);
          assert Unabsolved(tr, ops, i, n);
        }
      }
      if i :| 0 <= i < n && Unabsolved(tr, ops, i, n) {
        if i < k {
          assert Unabsolved(tr, ops, i, k) && !Absolved(tr, ops, k);
        }
      }
    }
  }

  ghost predicate Unproven(tr: seq<Health>, ops: seq<Op>, i: nat, n: nat)
    requires Run(tr, ops) && i < n <= |ops|
  {
    Withdrawn(tr, ops, i) && forall k :: i < k < n ==> !ops[k].ProbePassed?
  }

  /** Its vote is withheld exactly while a withdrawal has had no passing probe
      since. */
  lemma {:induction false} UnconfirmedMeans(tr: seq<Health>, ops: seq<Op>, n: nat)
    requires Run(tr, ops) && n <= |ops|
    ensures tr[n].unconfirmed <==> exists i :: 0 <= i < n && Unproven(tr, ops, i, n)
    ensures ReportsHealthy(tr[n]) <==> tr[n].healthy && !exists i :: 0 <= i < n && Unproven(tr, ops, i, n)
  {
    if n > 0 {
      var k := n - 1;
      UnconfirmedMeans(tr, ops, k);
      assert tr[n] == Step(tr[k], ops[k]);
      FlagStep(tr[k], ops[k]);
      hide Step;
      if tr[n].unconfirmed {
        if Withdrawn(tr, ops, k) {
          assert Unproven(tr, ops, k, n);
        } else {
          var i :| 0 <= i < k && Unproven(tr, ops, i, k);
          assert Unproven(tr, ops, i, n);
        }
      }
      if i :| 0 <= i < n && Unproven(tr, ops, i, n) {
        if i < k {
          assert Unproven(tr, ops, i, k) && !ops[k].ProbePassed?;
        }
      }
    }
  }

  // ----- what a frozen sample is ----------------------------------------

  /** Two scrapes in a row read as frozen exactly when both token counters stand
      still and so do the cache figure and the step count, where reported; a
      value equal to the one that marks absence reads as absent. */
  lemma FrozenMeansUnmoved(before: Load, load: Load, at: nat)
    ensures Frozen(Stored(before, at), load) <==>
            && before.prompt == load.prompt && before.generation == load.generation
            && (load.kvBits.None? || before.kvBits == load.kvBits || (before.kvBits.None? && load.kvBits == Some(0xFFFF_FFFF)))
            && (load.steps.None? || before.steps == load.steps || before.steps.None? || before.steps == Some(0xFFFF_FFFF_FFFF_FFFF))
    ensures Stored(before, at).ts >= 1
  {
  }
}
