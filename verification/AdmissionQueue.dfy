/**
 The bound on the waiting queue (src/admission.rs), at the grain of atomic
 actions. The bound is looked at first and the caller counted afterwards, so
 callers that race between the two can overfill the queue, by as many as race.
 */
module AdmissionQueue {
  import opened Common
  import opened Admission
  import opened AdmissionMicro

  // ----- how far it can be overfilled -----------------------------------

  ghost predicate Racing(tr: seq<Micro>, n: nat, most: nat)
    requires n < |tr|
  {
    forall i :: 0 <= i <= n ==> tr[i].door.passed <= most
  }

  /** Counted or about to be: only a caller that saw room adds to it. */
  function Coming(m: Micro): nat { Queued(m) + m.door.passed }

  lemma StepComing(m: Micro, step: Step, m': Micro)
    requires Next(m, step, m')
    ensures Coming(m') <= if step.Pass? then m.settings.maxQueued + m.door.passed else Coming(m)
    ensures step.Pass? ==> m'.door.passed == m.door.passed + 1
    ensures m'.settings == m.settings
  {
  }

  /** In every run with never more than `most` callers between the look and the
      count, the queue exceeds its bound by less than that; with one at a time
      it never does. */
  lemma {:induction false} QueueBound(tr: seq<Micro>, steps: seq<Step>, u: nat, most: nat, n: nat)
    requires MicroRun(tr, steps) && tr[0] == Start(tr[0].settings, u) && n < |tr| && Racing(tr, n, most)
    ensures Coming(tr[n]) <= tr[0].settings.maxQueued + SatSub(most, 1) && tr[n].settings == tr[0].settings
    ensures most <= 1 ==> Queued(tr[n]) <= tr[0].settings.maxQueued
  {
    if n > 0 {
      hide Act, Can;
      QueueBound(tr, steps, u, most, n - 1);
      assert Next(tr[n - 1], steps[n - 1], tr[n]);
      StepComing(tr[n - 1], steps[n - 1], tr[n]);
      assert tr[n].door.passed <= most;
    }
  }

  /** Across one action the bound survives exactly when it is not a late count
      into a queue that is already full. */
  lemma QueueStaysWithinIff(m: Micro, step: Step, m': Micro)
    requires Next(m, step, m') && Queued(m) <= m.settings.maxQueued
    ensures Queued(m') <= m'.settings.maxQueued <==> !(step.Enter? && Queued(m) == m.settings.maxQueued)
  {
  }

  // ----- and that it is -------------------------------------------------

  /** One slot, taken by a request older than the gate, and one place to wait. */
  const ONE_PLACE := Settings(1, 1, 1, 0)

  function Clamp(k: int, most: nat): nat { if k < 0 then 0 else Min(k, most) }

  function RaceState(most: nat, k: nat): Micro {
    var missed, passed, entered := Clamp(k, most), Clamp(k - most, most), Clamp(k - 2 * most, most);
    Start(ONE_PLACE, 1).(door := Door(missed - passed, passed - entered, entered))
  }

  function RaceStep(most: nat, k: nat): Step { if k < most then Miss else if k < 2 * most then Pass else Enter }

  lemma RaceRuns(most: nat, k: nat)
    requires k < 3 * most
    ensures Next(RaceState(most, k), RaceStep(most, k), RaceState(most, k + 1))
  {
  }

  /** The bound is reached: for every number of racing callers, a run that lets
      them all into a queue of one. */
  lemma RacingCallersOverfill(most: nat) returns (tr: seq<Micro>, steps: seq<Step>)
    requires most >= 1
    ensures MicroRun(tr, steps) && tr[0] == Start(ONE_PLACE, 1) && Racing(tr, |steps|, most)
    ensures Queued(tr[|steps|]) == most == ONE_PLACE.maxQueued + SatSub(most, 1)
  {
    tr := seq(3 * most + 1, k requires 0 <= k => RaceState(most, k));
    steps := seq(3 * most, k requires 0 <= k => RaceStep(most, k));
    forall i | 0 <= i < |steps|
      ensures Next(tr[i], steps[i], tr[i + 1])
    {
      RaceRuns(most, i);
    }
  }

  // ----- nobody is lost -------------------------------------------------

  function Times(steps: seq<Step>, step: Step): nat {
    if steps == [] then 0 else Times(steps[..|steps| - 1], step) + (if steps[|steps| - 1] == step then 1 else 0)
  }

  /** Callers at the door, in the queue, or let in. */
  function Present(m: Micro): nat { m.door.missed + m.door.passed + Queued(m) + m.admitted }

  function Arrives(step: Step): nat { if step.Acquire? || step.Miss? then 1 else 0 }

  function Departs(step: Step): nat { if step.Refuse? || step.Leave? || step.CancelGranted? then 1 else 0 }

  lemma StepPresent(m: Micro, step: Step, m': Micro)
    requires Next(m, step, m')
    ensures Present(m') == Present(m) + Arrives(step) - Departs(step)
  {
  }

  /** In every interleaving, everyone who came was let in, is at the door or in the
      queue, was refused, or gave up: no place in the queue outlives its caller. */
  lemma {:induction false} EveryoneIsSomewhere(tr: seq<Micro>, steps: seq<Step>, u: nat, n: nat)
    requires MicroRun(tr, steps) && tr[0] == Start(tr[0].settings, u) && n <= |steps|
    ensures var past := steps[..n];
            Times(past, Acquire) + Times(past, Miss) ==
            Present(tr[n]) + Times(past, Refuse) + Times(past, Leave) + Times(past, CancelGranted)
  {
    if n > 0 {
      hide Act, Can;
      EveryoneIsSomewhere(tr, steps, u, n - 1);
      assert steps[..n][..n - 1] == steps[..n - 1];
      assert Next(tr[n - 1], steps[n - 1], tr[n]);
      StepPresent(tr[n - 1], steps[n - 1], tr[n]);
    }
  }

  /** A caller always has exactly one next action: an arrival takes a slot or
      misses, one who missed passes or is refused, one who passed is counted, one
      who is counted waits or takes a slot. */
  lemma NobodyIsStuck(m: Micro)
    ensures Can(m, Acquire) != Can(m, Miss)
    ensures m.door.missed > 0 ==> Can(m, Pass) != Can(m, Refuse)
    ensures m.door.passed > 0 ==> Can(m, Enter)
    ensures m.door.entered > 0 ==> Can(m, Join) != Can(m, TakeLate)
    ensures (m.granted > 0 ==> Can(m, Wake)) && (m.waiting > 0 ==> Can(m, Leave)) && (m.held > 0 ==> Can(m, DropTry))
  {
  }
}
