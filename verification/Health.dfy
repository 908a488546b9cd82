/**
 One backend's health on one replica (src/registry.rs): probes, timeouts and
 stalls put it out of rotation, probes and the fleet bring it back.

 Instants are milliseconds. `byTraffic` says that traffic rather than a probe
 put the backend out; such an ejection runs to a deadline.
 */
module Health {
  import opened Common

  const BASE_MS: nat := 30_000
  const CEILING_MS: nat := 300_000
  const FORGIVE_MS: nat := 600_000
  const PROBATION: nat := 0x7FFF_FFFF
  const KV_ABSENT: nat := 0xFFFF_FFFF
  const STEPS_ABSENT: nat := 0xFFFF_FFFF_FFFF_FFFF

  /** One scrape of the engine's progress counters. */
  datatype Load = Load(running: nat, prompt: nat, generation: nat, kvBits: Option<nat>, steps: Option<nat>)

  datatype Reading = Reading(ts: nat, prompt: nat, generation: nat, kvBits: nat, steps: nat)

  datatype Health = Health(
    healthy: bool,
    failures: nat,
    timeouts: nat,
    stalls: nat,
    everMoved: bool,
    byTraffic: bool,
    unconfirmed: bool,
    streak: nat,
    until: nat,
    lastEjected: nat,
    ejections: nat,
    last: Reading)

  function New(): Health {
    Health(true, 0, 0, 0, false, false, false, 0, 0, 0, 0, Reading(0, 0, 0, KV_ABSENT, STEPS_ABSENT))
  }

  predicate ReportsHealthy(h: Health) { h.healthy && !h.unconfirmed }

  function Backoff(streak: nat): nat { Min(BASE_MS * Pow2(Min(streak, 4)), CEILING_MS) }

  function StreakAt(h: Health, now: nat): nat {
    if SatSub(now, h.lastEjected) > FORGIVE_MS then 0 else h.streak
  }

  function EjectForTraffic(h: Health, now: nat): Health {
    if !h.healthy then h else
      var streak := StreakAt(h, now);
      h.(streak := streak + 1, lastEjected := now, until := now + Backoff(streak),
         byTraffic := true, healthy := false, ejections := h.ejections + 1)
  }

  function NoteTimeout(h: Health, threshold: nat, now: nat): Health {
    if h.timeouts + 1 >= threshold
    then EjectForTraffic(h.(timeouts := h.timeouts + 1), now).(timeouts := 0)
    else h.(timeouts := h.timeouts + 1)
  }

  function Reconsider(h: Health, peersServing: bool): (Health, bool) {
    if h.healthy || (h.byTraffic && !peersServing) then (h, false)
    else (h.(failures := 0, timeouts := 0, stalls := 0, unconfirmed := true, healthy := true), true)
  }

  function ProbeOk(h: Health, now: nat): Health {
    var seen := h.(failures := 0, unconfirmed := false);
    if h.byTraffic && now < h.until then seen
    else if h.byTraffic then seen.(byTraffic := false, timeouts := PROBATION, stalls := 0, healthy := true)
    else seen.(healthy := true)
  }

  function ProbeFailed(h: Health, threshold: nat): Health {
    var counted := h.(failures := h.failures + 1);
    if h.failures + 1 >= threshold
    then counted.(healthy := false, ejections := h.ejections + (if h.healthy then 1 else 0))
    else counted
  }

  // ----- stall detection ------------------------------------------------

  predicate Frozen(last: Reading, load: Load) {
    && last.prompt == load.prompt && last.generation == load.generation
    && (load.kvBits.Some? ==> last.kvBits == load.kvBits.value)
    && (load.steps.Some? ==> last.steps == STEPS_ABSENT || last.steps == load.steps.value)
  }

  function CheckStall(h: Health, load: Load, threshold: nat, now: nat): (Health, bool) {
    if h.last.ts == 0 then (h, false)
    else if load.running == 0 then (h.(stalls := 0), false)
    else if !Frozen(h.last, load) then (h.(everMoved := true, stalls := 0), false)
    else if !h.everMoved then (h, false)
    else
      var counted := h.(stalls := h.stalls + 1);
      if h.stalls + 1 >= threshold then (EjectForTraffic(counted, now), true) else (counted, false)
  }

  function Stored(load: Load, now: nat): Reading {
    Reading(Max(now, 1), load.prompt, load.generation,
            if load.kvBits.Some? then load.kvBits.value else KV_ABSENT,
            if load.steps.Some? then load.steps.value else STEPS_ABSENT)
  }

  /** A scrape checks first and records second. */
  function Scrape(h: Health, load: Load, threshold: nat, now: nat): Health {
    CheckStall(h, load, threshold, now).0.(last := Stored(load, now))
  }

  // ----- runs -----------------------------------------------------------

  datatype Op =
    | Timeout(threshold: nat, now: nat)
    | Responded(now: nat)
    | ProbePassed(now: nat)
    | ProbeMissed(threshold: nat, now: nat)
    | Withdraw(peersServing: bool, now: nat)
    | Scraped(load: Load, threshold: nat, now: nat)

  function Step(h: Health, op: Op): Health {
    match op
    case Timeout(threshold, now) => NoteTimeout(h, threshold, now)
    case Responded(_) => h.(timeouts := 0)
    case ProbePassed(now) => ProbeOk(h, now)
    case ProbeMissed(threshold, _) => ProbeFailed(h, threshold)
    case Withdraw(serving, _) => Reconsider(h, serving).0
    case Scraped(load, threshold, now) => Scrape(h, load, threshold, now)
  }

  ghost predicate Run(tr: seq<Health>, ops: seq<Op>) {
    && |tr| == |ops| + 1 && tr[0] == New()
    && forall i {:trigger ops[i]} :: 0 <= i < |ops| ==> tr[i + 1] == Step(tr[i], ops[i])
  }

  /** Step `i` is a traffic ejection. */
  ghost predicate Ejects(h: Health, op: Op) {
    (op.Timeout? || op.Scraped?) && h.healthy && !Step(h, op).healthy
  }

  /** How a traffic ejection changes the books, and what leaves them alone. */
  lemma EjectionBooks(h: Health, op: Op)
    ensures var h' := Step(h, op);
            if Ejects(h, op)
            then h'.byTraffic && h'.lastEjected == op.now && h'.streak == StreakAt(h, op.now) + 1
                 && h'.until == op.now + Backoff(StreakAt(h, op.now))
            else h'.lastEjected == h.lastEjected && h'.streak == h.streak && h'.until == h.until
  {
  }

  // ----- a traffic ejection runs to its deadline ------------------------

  lemma OutStaysTimed(h: Health, op: Op)
    requires !h.healthy && h.byTraffic
    ensures Step(h, op).healthy ==> (op.ProbePassed? && op.now >= h.until) || (op.Withdraw? && op.peersServing)
    ensures !Step(h, op).healthy ==> Step(h, op).byTraffic && Step(h, op).until == h.until
  {
  }

  lemma {:induction false} DeadlineStands(tr: seq<Health>, ops: seq<Op>, i: nat, j: nat)
    requires Run(tr, ops) && i < j < |tr| && Ejects(tr[i], ops[i])
    requires forall k :: i < k <= j ==> !tr[k].healthy
    ensures tr[j].byTraffic && tr[j].until == tr[i + 1].until
  {
    EjectionBooks(tr[i], ops[i]);
    if j > i + 1 {
      DeadlineStands(tr, ops, i, j - 1);
      OutStaysTimed(tr[j - 1], ops[j - 1]);
    }
  }

  /** Over every run, a backend that traffic ejected at step `i` comes back
      before its deadline only through a withdrawal with a peer serving it;
      past the deadline only through that or a passing probe. */
  lemma {:induction false} EarlyReturnNeedsAServingPeer(tr: seq<Health>, ops: seq<Op>, i: nat, j: nat)
    requires Run(tr, ops) && i < j < |ops| && Ejects(tr[i], ops[i])
    requires forall k :: i < k <= j ==> !tr[k].healthy
    requires tr[j + 1].healthy
    ensures ops[j].now < tr[i + 1].until ==> ops[j].Withdraw? && ops[j].peersServing
    ensures ops[j].now >= tr[i + 1].until ==> ops[j].ProbePassed? || (ops[j].Withdraw? && ops[j].peersServing)
  {
    DeadlineStands(tr, ops, i, j);
    OutStaysTimed(tr[j], ops[j]);
  }

  // ----- the backoff ----------------------------------------------------

  lemma BackoffSteps(streak: nat)
    ensures BASE_MS <= Backoff(streak) <= CEILING_MS
    ensures Backoff(0) == BASE_MS && Backoff(streak + 1) == Min(2 * Backoff(streak), CEILING_MS)
  {
    assert Pow2(1) == 2 && Pow2(2) == 4 && Pow2(3) == 8 && Pow2(4) == 16;
  }

  lemma {:induction false} BooksBetweenEjections(tr: seq<Health>, ops: seq<Op>, i: nat, j: nat)
    requires Run(tr, ops) && i < j < |tr|
    requires forall k :: i < k < j ==> !Ejects(tr[k], ops[k])
    ensures tr[j].streak == tr[i + 1].streak && tr[j].lastEjected == tr[i + 1].lastEjected && tr[j].until == tr[i + 1].until
  {
    if j > i + 1 {
      BooksBetweenEjections(tr, ops, i, j - 1);
      EjectionBooks(tr[j - 1], ops[j - 1]);
    }
  }

  /** Each deadline is 30 to 300 seconds out. From one traffic ejection to the
      next the backoff doubles up to the ceiling when they start within ten
      minutes of each other, so unless the clock itself went back the deadlines
      do not; after a longer calm it starts over at 30 seconds. */
  lemma {:induction false} BackoffDoubles(tr: seq<Health>, ops: seq<Op>, i: nat, j: nat)
    requires Run(tr, ops) && i < j < |ops| && Ejects(tr[i], ops[i]) && Ejects(tr[j], ops[j])
    requires forall k :: i < k < j ==> !Ejects(tr[k], ops[k])
    ensures var first, second := tr[i + 1].until - ops[i].now, tr[j + 1].until - ops[j].now;
            && 30_000 <= first <= 300_000
            && second == (if ops[j].now - ops[i].now <= 600_000 then Min(2 * first, 300_000) else 30_000)
            && (0 <= ops[j].now - ops[i].now <= 600_000 ==> tr[i + 1].until <= tr[j + 1].until)
  {
    EjectionBooks(tr[i], ops[i]);
    EjectionBooks(tr[j], ops[j]);
    BooksBetweenEjections(tr, ops, i, j);
    BackoffSteps(StreakAt(tr[i], ops[i].now));
  }

  lemma {:induction false} DeadlineNearEjection(tr: seq<Health>, ops: seq<Op>, n: nat)
    requires Run(tr, ops) && n < |tr|
    ensures tr[n].until <= tr[n].lastEjected + CEILING_MS
  {
    if n > 0 {
      DeadlineNearEjection(tr, ops, n - 1);
      EjectionBooks(tr[n - 1], ops[n - 1]);
      BackoffSteps(StreakAt(tr[n - 1], ops[n - 1].now));
    }
  }

  /** A passing probe leaves the backend out exactly when a traffic deadline
      still stands, so one that comes 300 seconds or more after the last
      traffic ejection always leaves it in rotation. */
  lemma {:induction false} ProbeReadmits(tr: seq<Health>, ops: seq<Op>, n: nat)
    requires Run(tr, ops) && n < |ops| && ops[n].ProbePassed?
    ensures tr[n + 1].healthy <==> tr[n].healthy || !(tr[n].byTraffic && ops[n].now < tr[n].until)
    ensures ops[n].now >= tr[n].lastEjected + CEILING_MS ==> tr[n + 1].healthy
  {
    DeadlineNearEjection(tr, ops, n);
  }

  lemma Readmitted(h: Health, now: nat)
    requires !h.healthy && h.byTraffic && now >= h.until
    ensures ProbeOk(h, now).healthy && ProbeOk(h, now).timeouts == PROBATION
  {
  }

  /** A backend let back in by a probe after a traffic ejection is on
      probation: with nothing but scrapes and further probes, passed or missed,
      in between, its very next timeout puts it out again. */
  lemma {:induction false} ProbationIsOneStrike(tr: seq<Health>, ops: seq<Op>, i: nat, j: nat)
    requires Run(tr, ops) && i < j < |ops|
    requires !tr[i].healthy && tr[i].byTraffic && ops[i].ProbePassed? && ops[i].now >= tr[i].until
    requires forall k :: i < k < j ==> ops[k].ProbePassed? || ops[k].ProbeMissed? || ops[k].Scraped?
    requires ops[j].Timeout? && ops[j].threshold <= PROBATION + 1
    ensures !tr[j + 1].healthy
  {
    Readmitted(tr[i], ops[i].now);
    StillOnProbation(tr, ops, i, j);
  }

  lemma {:induction false} StillOnProbation(tr: seq<Health>, ops: seq<Op>, i: nat, j: nat)
    requires Run(tr, ops) && i < j < |tr| && tr[i + 1].timeouts == PROBATION
    requires forall k :: i < k < j ==> ops[k].ProbePassed? || ops[k].ProbeMissed? || ops[k].Scraped?
    ensures tr[j].timeouts == PROBATION
  {
    if j > i + 1 {
      StillOnProbation(tr, ops, i, j - 1);
      QuietKeepsTimeouts(tr[j - 1], ops[j - 1]);
    }
  }

  lemma QuietKeepsTimeouts(h: Health, op: Op)
    requires op.ProbePassed? || op.ProbeMissed? || op.Scraped?
    requires h.timeouts == PROBATION
    ensures Step(h, op).timeouts == PROBATION
  {
  }

  // ----- stalls ---------------------------------------------------------

  /** The reading before event `n`: what the latest scrape stored. */
  ghost function PreviousReading(ops: seq<Op>, n: nat): Option<Reading>
    requires n <= |ops|
  {
    if n == 0 then None
    else if ops[n - 1].Scraped? then Some(Stored(ops[n - 1].load, ops[n - 1].now))
    else PreviousReading(ops, n - 1)
  }

  /** Scrape `n` found work running and no counter moved since the scrape before. */
  ghost predicate FrozenSample(ops: seq<Op>, n: nat)
    requires n < |ops|
  {
    && ops[n].Scraped? && ops[n].load.running > 0
    && PreviousReading(ops, n).Some? && Frozen(PreviousReading(ops, n).value, ops[n].load)
  }

  /** Scrape `n` found work running and some counter moved. */
  ghost predicate MovingSample(ops: seq<Op>, n: nat)
    requires n < |ops|
  {
    && ops[n].Scraped? && ops[n].load.running > 0
    && PreviousReading(ops, n).Some? && !Frozen(PreviousReading(ops, n).value, ops[n].load)
  }

  /** Length of the unbroken run of frozen samples that ends the first `n` events. */
  ghost function FrozenRun(ops: seq<Op>, n: nat): nat
    requires n <= |ops|
  {
    if n == 0 then 0
    else if !ops[n - 1].Scraped? then FrozenRun(ops, n - 1)
    else if FrozenSample(ops, n - 1) then FrozenRun(ops, n - 1) + 1
    else 0
  }

  lemma StallStep(h: Health, op: Op)
    ensures Step(h, op).stalls <=
            if op.Scraped? then (if h.last.ts != 0 && op.load.running > 0 && Frozen(h.last, op.load) then h.stalls + 1
                                 else if h.last.ts == 0 then h.stalls else 0)
            else h.stalls
    ensures Step(h, op).everMoved ==
            (h.everMoved || (op.Scraped? && h.last.ts != 0 && op.load.running > 0 && !Frozen(h.last, op.load)))
    ensures Step(h, op).last == if op.Scraped? then Stored(op.load, op.now) else h.last
  {
  }

  /** The counter never outruns the evidence, and "ever moved" means exactly
      that some scrape showed movement. */
  lemma {:induction false} StallEvidence(tr: seq<Health>, ops: seq<Op>, n: nat)
    requires Run(tr, ops) && n <= |ops|
    ensures tr[n].stalls <= FrozenRun(ops, n) && (tr[n].last.ts == 0 ==> tr[n].stalls == 0)
    ensures tr[n].everMoved <==> exists i :: 0 <= i < n && MovingSample(ops, i)
    ensures PreviousReading(ops, n) == (if tr[n].last.ts == 0 then None else Some(tr[n].last))
  {
    if n > 0 {
      StallEvidence(tr, ops, n - 1);
      StallStep(tr[n - 1], ops[n - 1]);
      if tr[n].everMoved && !tr[n - 1].everMoved {
        assert MovingSample(ops, n - 1);
      }
    }
  }

  /** Stall detection fires only when the last `threshold` scrapes all found
      work running and nothing moving, and some scrape before them showed
      movement, whatever probes and withdrawals happened in between. */
  lemma {:induction false} StallNeedsSustainedSilence(tr: seq<Health>, ops: seq<Op>, n: nat)
    requires Run(tr, ops) && n < |ops| && ops[n].Scraped?
    requires CheckStall(tr[n], ops[n].load, ops[n].threshold, ops[n].now).1
    ensures FrozenSample(ops, n) && FrozenRun(ops, n + 1) >= ops[n].threshold
    ensures exists i :: 0 <= i < n && MovingSample(ops, i)
  {
    StallEvidence(tr, ops, n);
  }

  /** An engine whose counters never move is never ejected for stalling. */
  lemma {:induction false} StaticEngineIsNeverEjected(tr: seq<Health>, ops: seq<Op>, n: nat)
    requires Run(tr, ops) && n < |ops| && ops[n].Scraped?
    requires forall i :: 0 <= i < n ==> !MovingSample(ops, i)
    ensures !CheckStall(tr[n], ops[n].load, ops[n].threshold, ops[n].now).1
    ensures tr[n + 1].healthy == tr[n].healthy
  {
    StallEvidence(tr, ops, n);
  }

  // ----- the object -----------------------------------------------------

  class BackendHealth {
    var healthy: bool
    var failures: nat
    var timeouts: nat
    var stalls: nat
    var everMoved: bool
    var byTraffic: bool
    var unconfirmed: bool
    var streak: nat
    var until: nat
    var lastEjected: nat
    var ejections: nat
    var last: Reading

    ghost function State(): Health
      reads this
    {
      Health(healthy, failures, timeouts, stalls, everMoved, byTraffic, unconfirmed, streak, until, lastEjected, ejections, last)
    }

    constructor ()
      ensures State() == New()
    {
      healthy, failures, timeouts, stalls, everMoved := true, 0, 0, 0, false;
      byTraffic, unconfirmed, streak, until, lastEjected, ejections := false, false, 0, 0, 0, 0;
      last := Reading(0, 0, 0, KV_ABSENT, STEPS_ABSENT);
    }

    method Eject()
      modifies this`healthy, this`ejections
      ensures !healthy && ejections == old(ejections) + (if old(healthy) then 1 else 0)
    {
      if !healthy {
        return;
      }
      healthy := false;
      ejections := ejections + 1;
    }

    method EjectOnTraffic(now: nat)
      modifies this
      ensures State() == EjectForTraffic(old(State()), now)
    {
      if !healthy {
        return;
      }
      if SatSub(now, lastEjected) > FORGIVE_MS {
        streak := 0;
      }
      var before := streak;
      streak := streak + 1;
      lastEjected := now;
      until := now + Backoff(before);
      byTraffic := true;
      Eject();
    }

    method OnTimeout(threshold: nat, now: nat)
      modifies this
      ensures State() == NoteTimeout(old(State()), threshold, now)
    {
      timeouts := timeouts + 1;
      if timeouts >= threshold {
        EjectOnTraffic(now);
        timeouts := 0;
      }
    }

    method OnFleetVerdict(peersServing: bool) returns (cleared: bool)
      modifies this
      ensures (State(), cleared) == Reconsider(old(State()), peersServing)
    {
      if healthy {
        return false;
      }
      if byTraffic && !peersServing {
        return false;
      }
      failures := 0;
      timeouts := 0;
      stalls := 0;
      unconfirmed := true;
      healthy := true;
      return true;
    }

    method OnProbeOk(now: nat) returns (back: bool)
      modifies this
      ensures State() == ProbeOk(old(State()), now)
      ensures back <==> healthy && !old(healthy)
    {
      failures := 0;
      unconfirmed := false;
      if byTraffic {
        if now < until {
          return false;
        }
        byTraffic := false;
        timeouts := PROBATION;
        stalls := 0;
      }
      back := !healthy;
      healthy := true;
    }

    method OnProbeFailed(threshold: nat) returns (out: bool)
      modifies this
      ensures State() == ProbeFailed(old(State()), threshold)
      ensures out <==> old(healthy) && !healthy
    {
      failures := failures + 1;
      if failures >= threshold {
        out := healthy;
        Eject();
        return;
      }
      return false;
    }

    method OnScrape(load: Load, threshold: nat, now: nat) returns (stalled: bool)
      modifies this
      ensures State() == Scrape(old(State()), load, threshold, now)
      ensures stalled == CheckStall(old(State()), load, threshold, now).1
    {
      stalled := DetectStall(load, threshold, now);
      last := Stored(load, now);
    }

    method DetectStall(load: Load, threshold: nat, now: nat) returns (stalled: bool)
      modifies this
      ensures (State(), stalled) == CheckStall(old(State()), load, threshold, now)
    {
      if last.ts == 0 {
        return false;
      }
      if load.running == 0 {
        stalls := 0;
        return false;
      }
      var kvFrozen := load.kvBits.None? || last.kvBits == load.kvBits.value;
      var stepsFrozen := load.steps.None? || last.steps == STEPS_ABSENT || last.steps == load.steps.value;
      var frozen := last.prompt == load.prompt && last.generation == load.generation && kvFrozen && stepsFrozen;
      if !frozen {
        everMoved := true;
        stalls := 0;
        return false;
      }
      if !everMoved {
        return false;
      }
      stalls := stalls + 1;
      stalled := stalls >= threshold;
      if stalled {
        EjectOnTraffic(now);
      }
    }
  }
}
