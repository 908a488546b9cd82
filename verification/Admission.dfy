/**
 The admission gate of src/admission.rs, with whole operations as steps.

 A `GateState` is everything the gate knows plus the number of live permits
 (`held`). One `Op` is one call from outside: a caller asking for a slot, a
 waiter giving up, a request ending, a scrape arriving. The semaphore is fair:
 a slot that comes back goes to a waiting caller first.
 */
module Admission {
  import opened Common

  datatype Settings = Settings(maxConcurrent: nat, highWater: nat, maxQueued: nat, maxWaitSeconds: nat)

  datatype Rejected = Full | TimedOut

  const MIN_CONCURRENT: nat := 1

  /** Milliseconds one halving must stand before the next. */
  const SHRINK_COOLDOWN: nat := 10_000

  /** The configured ceiling, never below one. */
  function Ceiling(s: Settings): nat { Max(s.maxConcurrent, MIN_CONCURRENT) }

  datatype GateState = GateState(
    settings: Settings,
    free: nat,            // permits in the semaphore
    held: nat,            // permits handed out and not yet dropped
    seeded: nat,          // pre-gate requests still owing a slot
    capacity: nat,        // the moving ceiling
    debt: nat,            // slots cut while in use
    queued: nat,          // callers waiting in `admit`
    admitted: nat,
    refusedFull: nat,
    refusedTimedOut: nat,
    lastHalved: Option<int>)

  function New(settings: Settings): GateState {
    NewWithInFlight(settings, 0)
  }

  function NewWithInFlight(settings: Settings, inFlight: nat): GateState {
    var ceiling := Ceiling(settings);
    var seeded := Min(inFlight, ceiling);
    GateState(settings, ceiling - seeded, 0, seeded, ceiling, 0, 0, 0, 0, 0, None)
  }

  // ----- the operations -------------------------------------------------

  /** A slot goes back to the semaphore: to the longest-waiting caller, who
      thereby leaves the queue admitted, or to the free count. */
  function GiveSlot(s: GateState): GateState {
    if s.queued > 0
    then s.(queued := s.queued - 1, held := s.held + 1, admitted := s.admitted + 1)
    else s.(free := s.free + 1)
  }

  /** A slot that was in use comes back: it repays debt before it is reused. */
  function ReturnSlot(s: GateState): GateState {
    if s.debt > 0 then s.(debt := s.debt - 1) else GiveSlot(s)
  }

  function TryAdmit(s: GateState): GateState {
    if s.free > 0 then s.(free := s.free - 1, held := s.held + 1, admitted := s.admitted + 1) else s
  }

  function NoteRefused(s: GateState, why: Rejected): GateState {
    match why
    case Full => s.(refusedFull := s.refusedFull + 1)
    case TimedOut => s.(refusedTimedOut := s.refusedTimedOut + 1)
  }

  /** `admit` up to its await: fast path, refusal, or joining the queue. */
  function Admit(s: GateState): GateState {
    if s.free > 0 then TryAdmit(s)
    else if s.queued >= s.settings.maxQueued then NoteRefused(s, Full)
    else s.(queued := s.queued + 1)
  }

  function DropPermit(s: GateState): GateState
    requires s.held > 0
  {
    ReturnSlot(s.(held := s.held - 1))
  }

  function ReleaseSeed(s: GateState): GateState {
    if s.seeded > 0 then ReturnSlot(s.(seeded := s.seeded - 1)) else s
  }

  function HalvedCeiling(capacity: nat): nat { Max(capacity / 2, MIN_CONCURRENT) }

  function Shrink(s: GateState): GateState {
    var target := HalvedCeiling(s.capacity);
    if target >= s.capacity then s else
      var cut := s.capacity - target;
      var forgotten := Min(cut, s.free);
      s.(free := s.free - forgotten, debt := s.debt + (cut - forgotten), capacity := target)
  }

  predicate Due(last: Option<int>, now: int) {
    last.Some? ==> Max(now - last.value, 0) >= SHRINK_COOLDOWN
  }

  function ConsiderShrink(s: GateState, now: int): GateState {
    if Due(s.lastHalved, now) then Shrink(s.(lastHalved := Some(now))) else s
  }

  function Grow(s: GateState): GateState {
    if s.capacity >= Ceiling(s.settings) then s else
      ReturnSlot(s).(capacity := s.capacity + 1)
  }

  function Observe(s: GateState, waiting: nat, now: int): GateState {
    if waiting >= s.settings.highWater then ConsiderShrink(s, now)
    else if waiting == 0 then Grow(s)
    else s
  }

  /** Where `restore_full` ends: the missing slots first cancel debt, then
      serve waiting callers, then become free. */
  function RestoreFull(s: GateState): GateState {
    var missing := Max(Ceiling(s.settings) - s.capacity, 0);
    var forgiven := Min(s.debt, missing);
    var served := Min(s.queued, missing - forgiven);
    s.(debt := s.debt - forgiven, queued := s.queued - served,
       held := s.held + served, admitted := s.admitted + served,
       free := s.free + (missing - forgiven - served),
       capacity := s.capacity + missing, lastHalved := None)
  }

  /** `status().in_use`. */
  function InUse(s: GateState): nat { SatSub(s.capacity + s.debt, s.free) }

  // ----- runs -----------------------------------------------------------

  datatype Op =
    | OpTryAdmit
    | OpNoteRefused(why: Rejected)
    | OpAdmit
    | OpTimeOut               // a waiter's `max_wait` ran out
    | OpCancel                // a waiter's client hung up
    | OpDropPermit
    | OpReleaseSeed
    | OpObserve(waiting: nat, now: int)
    | OpRestoreFull

  predicate Enabled(s: GateState, op: Op) {
    match op
    case OpTimeOut => s.queued > 0
    case OpCancel => s.queued > 0
    case OpDropPermit => s.held > 0
    case _ => true
  }

  function Apply(s: GateState, op: Op): GateState
    requires Enabled(s, op)
  {
    match op
    case OpTryAdmit => TryAdmit(s)
    case OpNoteRefused(why) => NoteRefused(s, why)
    case OpAdmit => Admit(s)
    case OpTimeOut => NoteRefused(s.(queued := s.queued - 1), TimedOut)
    case OpCancel => s.(queued := s.queued - 1)
    case OpDropPermit => DropPermit(s)
    case OpReleaseSeed => ReleaseSeed(s)
    case OpObserve(waiting, now) => Observe(s, waiting, now)
    case OpRestoreFull => RestoreFull(s)
  }

  /** `tr` is the sequence of states the gate passes through under `ops`. */
  ghost predicate Trace(tr: seq<GateState>, ops: seq<Op>) {
    && |tr| == |ops| + 1
    && forall i {:trigger ops[i]} :: 0 <= i < |ops| ==> Enabled(tr[i], ops[i]) && tr[i + 1] == Apply(tr[i], ops[i])
  }

  ghost predicate Fresh(s: GateState) {
    exists n: nat :: s == NewWithInFlight(s.settings, n)
  }

  // ----- what every reachable state satisfies ---------------------------

  ghost predicate Inv(s: GateState) {
    && s.free + s.held + s.seeded == s.capacity + s.debt
    && MIN_CONCURRENT <= s.capacity
    && s.capacity + s.debt <= Ceiling(s.settings)
    && (s.debt > 0 ==> s.free == 0)
    && (s.queued > 0 ==> s.free == 0)
    && s.queued <= s.settings.maxQueued
  }

  lemma FreshIsBalanced(s: GateState)
    requires Fresh(s)
    ensures Inv(s)
  {
    var n: nat :| s == NewWithInFlight(s.settings, n);
  }

  lemma ReturnKeepsBalance(s: GateState)
    requires s.held > 0 || s.seeded > 0
    requires Inv(s)
    ensures s.held > 0 ==> Inv(DropPermit(s))
    ensures Inv(ReleaseSeed(s))
  {
  }

  lemma ScrapeKeepsBalance(s: GateState, waiting: nat, now: int)
    requires Inv(s)
    ensures Inv(Observe(s, waiting, now))
  {
  }

  lemma StepKeepsBalance(s: GateState, op: Op)
    requires Inv(s) && Enabled(s, op)
    ensures Inv(Apply(s, op))
  {
    match op
    case OpDropPermit => ReturnKeepsBalance(s);
    case OpReleaseSeed => if s.seeded > 0 { ReturnKeepsBalance(s); }
    case OpObserve(waiting, now) => ScrapeKeepsBalance(s, waiting, now);
    case OpRestoreFull => RestoreReachesTheCeiling(s);
    case _ =>
  }

  lemma StepKeepsSettings(s: GateState, op: Op)
    requires Enabled(s, op)
    ensures Apply(s, op).settings == s.settings
  {
  }

  /** Conservation over whole runs, for any interleaving of requests, seeds,
      readings and restores. */
  lemma {:induction false} EveryStateBalances(tr: seq<GateState>, ops: seq<Op>, n: nat)
    requires Trace(tr, ops) && Fresh(tr[0]) && n < |tr|
    ensures Inv(tr[n]) && tr[n].settings == tr[0].settings
  {
    if n == 0 {
      FreshIsBalanced(tr[0]);
    } else {
      EveryStateBalances(tr, ops, n - 1);
      StepKeepsBalance(tr[n - 1], ops[n - 1]);
      StepKeepsSettings(tr[n - 1], ops[n - 1]);
    }
  }

  /** What the gate reports as in use is exactly the live permits plus the
      seeded requests still running, and never more than the ceiling allows. */
  lemma {:induction false} StatusCountsLiveWork(tr: seq<GateState>, ops: seq<Op>, n: nat)
    requires Trace(tr, ops) && Fresh(tr[0]) && n < |tr|
    ensures InUse(tr[n]) == tr[n].held + tr[n].seeded <= Ceiling(tr[0].settings)
  {
    EveryStateBalances(tr, ops, n);
  }

  /** The free permits and the debt are what the ceiling and the work in flight
      make them: never both, and nothing hidden. */
  lemma {:induction false} BooksAreDetermined(tr: seq<GateState>, ops: seq<Op>, n: nat)
    requires Trace(tr, ops) && Fresh(tr[0]) && n < |tr|
    ensures var working := tr[n].held + tr[n].seeded;
            tr[n].free == SatSub(tr[n].capacity, working) && tr[n].debt == SatSub(working, tr[n].capacity)
  {
    EveryStateBalances(tr, ops, n);
  }

  /** What becomes of an arrival that may wait: in at once below the ceiling, else
      queued while there is room, else refused; and only that. */
  lemma {:induction false} ArrivalsAreSettled(tr: seq<GateState>, ops: seq<Op>, n: nat)
    requires Trace(tr, ops) && Fresh(tr[0]) && n < |ops| && ops[n].OpAdmit?
    ensures var s, t := tr[n], tr[n + 1];
            var below, room := s.held + s.seeded < s.capacity, s.queued < s.settings.maxQueued;
            && t.held == s.held + (if below then 1 else 0)
            && t.queued == s.queued + (if !below && room then 1 else 0)
            && t.refusedFull == s.refusedFull + (if !below && !room then 1 else 0)
            && t.refusedTimedOut == s.refusedTimedOut && t.seeded == s.seeded
  {
    BooksAreDetermined(tr, ops, n);
  }

  /** A slot that comes back serves a waiter exactly when the work in flight does
      not exceed the ceiling without it; a seed comes back once per release. */
  lemma {:induction false} ReturnsAreSettled(tr: seq<GateState>, ops: seq<Op>, n: nat)
    requires Trace(tr, ops) && Fresh(tr[0]) && n < |ops|
    requires ops[n].OpDropPermit? || ops[n].OpReleaseSeed?
    ensures var s, t := tr[n], tr[n + 1];
            var returned := ops[n].OpDropPermit? || s.seeded > 0;
            var served := returned && s.queued > 0 && s.held + s.seeded <= s.capacity;
            && t.queued == s.queued - (if served then 1 else 0)
            && t.held == s.held - (if ops[n].OpDropPermit? then 1 else 0) + (if served then 1 else 0)
            && t.seeded == s.seeded - (if ops[n].OpReleaseSeed? && returned then 1 else 0)
            && t.refusedFull == s.refusedFull && t.refusedTimedOut == s.refusedTimedOut
  {
    BooksAreDetermined(tr, ops, n);
  }

  /** Callers that asked for a slot with step `op`, a failed `try_admit` aside. */
  function Asks(s: GateState, op: Op): nat {
    if op.OpAdmit? || (op.OpTryAdmit? && s.free > 0) then 1 else 0
  }

  function Count(ops: seq<Op>, op: Op): nat {
    if ops == [] then 0 else Count(ops[..|ops| - 1], op) + (if ops[|ops| - 1] == op then 1 else 0)
  }

  ghost function Asked(tr: seq<GateState>, ops: seq<Op>, n: nat): nat
    requires Trace(tr, ops) && n <= |ops|
  {
    if n == 0 then 0 else Asked(tr, ops, n - 1) + Asks(tr[n - 1], ops[n - 1])
  }

  lemma StepAccountsForCallers(s: GateState, op: Op)
    requires Enabled(s, op)
    ensures var t := Apply(s, op);
            && t.admitted + t.queued + t.refusedFull - (s.admitted + s.queued + s.refusedFull) ==
               Asks(s, op) + (if op == OpNoteRefused(Full) then 1 else 0)
               - (if op == OpTimeOut then 1 else 0) - (if op == OpCancel then 1 else 0)
            && t.refusedTimedOut - s.refusedTimedOut ==
               (if op == OpTimeOut then 1 else 0) + (if op == OpNoteRefused(TimedOut) then 1 else 0)
  {
  }

  /** Every caller that asked was admitted, is waiting, was refused, timed out or
      hung up: a place in the queue is never leaked. */
  lemma {:induction false} EveryCallerIsAccountedFor(tr: seq<GateState>, ops: seq<Op>, n: nat)
    requires Trace(tr, ops) && Fresh(tr[0]) && n <= |ops|
    ensures var past := ops[..n];
            && Asked(tr, ops, n) + Count(past, OpNoteRefused(Full)) ==
               tr[n].admitted + tr[n].queued + tr[n].refusedFull + Count(past, OpTimeOut) + Count(past, OpCancel)
            && tr[n].refusedTimedOut == Count(past, OpTimeOut) + Count(past, OpNoteRefused(TimedOut))
  {
    if n > 0 {
      hide Apply, Enabled;
      EveryCallerIsAccountedFor(tr, ops, n - 1);
      assert ops[..n][..n - 1] == ops[..n - 1];
      StepAccountsForCallers(tr[n - 1], ops[n - 1]);
    }
  }

  lemma AdmittingStep(s: GateState, op: Op)
    requires Inv(s) && Enabled(s, op)
    ensures var t := Apply(s, op);
            t.admitted > s.admitted ==> t.debt == 0 || InUse(t) <= t.capacity
  {
  }

  /** A step that admits anyone leaves the in-use count within the current
      ceiling, and a caller who did not wait was let in strictly below it.
      Conversely a caller is turned away only when nothing is free. */
  lemma {:induction false} AdmitsOnlyUnderTheCeiling(tr: seq<GateState>, ops: seq<Op>, n: nat)
    requires Trace(tr, ops) && Fresh(tr[0]) && n < |ops|
    ensures tr[n + 1].admitted > tr[n].admitted ==> InUse(tr[n + 1]) <= tr[n + 1].capacity
    ensures (ops[n].OpTryAdmit? || ops[n].OpAdmit?) ==>
              (tr[n + 1].admitted == tr[n].admitted + 1 <==> InUse(tr[n]) < tr[n].capacity)
    ensures (ops[n].OpTryAdmit? || ops[n].OpAdmit?) && InUse(tr[n]) >= tr[n].capacity ==>
              tr[n + 1].admitted == tr[n].admitted && tr[n + 1].held == tr[n].held
  {
    EveryStateBalances(tr, ops, n);
    EveryStateBalances(tr, ops, n + 1);
    AdmittingStep(tr[n], ops[n]);
  }

  /** Once every request has ended the gate is whole again: nothing owed,
      nobody waiting, and exactly `capacity` permits free. */
  lemma {:induction false} DrainedGateIsWhole(tr: seq<GateState>, ops: seq<Op>, n: nat)
    requires Trace(tr, ops) && Fresh(tr[0]) && n < |tr|
    requires tr[n].held == 0 && tr[n].seeded == 0
    ensures tr[n].free == tr[n].capacity && tr[n].debt == 0 && tr[n].queued == 0
  {
    EveryStateBalances(tr, ops, n);
  }

  function Drops(ops: seq<Op>): nat {
    if ops == [] then 0 else Drops(ops[..|ops| - 1]) + (if ops[|ops| - 1].OpDropPermit? then 1 else 0)
  }

  lemma StepAccountsForPermits(s: GateState, op: Op)
    requires Enabled(s, op)
    ensures var t := Apply(s, op);
            t.admitted - s.admitted == t.held - s.held + (if op.OpDropPermit? then 1 else 0)
  {
  }

  /** Every admission is a permit that is either still live or was dropped
      exactly once, whatever the ceiling did meanwhile. */
  lemma {:induction false} PermitsAreAccountedFor(tr: seq<GateState>, ops: seq<Op>, n: nat)
    requires Trace(tr, ops) && Fresh(tr[0]) && n < |tr|
    ensures tr[n].admitted == tr[n].held + Drops(ops[..n])
  {
    if n > 0 {
      PermitsAreAccountedFor(tr, ops, n - 1);
      assert ops[..n][..n - 1] == ops[..n - 1];
      StepAccountsForPermits(tr[n - 1], ops[n - 1]);
    }
  }

  /** Growing by one slot never changes where restoring ends. */
  lemma GrowTowardsRestore(s: GateState)
    requires s.capacity < Ceiling(s.settings)
    ensures RestoreFull(Grow(s)) == RestoreFull(s) && Grow(s).settings == s.settings
    ensures Grow(s).capacity == s.capacity + 1
  {
  }

  /** Restoring ends at exactly the configured ceiling with nothing owed, and
      takes no running request's slot. */
  lemma RestoreReachesTheCeiling(s: GateState)
    requires Inv(s)
    ensures var r := RestoreFull(s);
            Inv(r) && r.capacity == Ceiling(s.settings) && r.debt == 0 && r.lastHalved == None &&
            r.held >= s.held && r.seeded == s.seeded &&
            r.free + r.held + r.seeded == Ceiling(s.settings)
  {
  }
}
