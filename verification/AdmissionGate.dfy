/**
 The gate as the object of src/admission.rs: fields updated in place, one
 method per operation, each proved to move the gate's state exactly as the
 step of the same name in `Admission` does.
 */
module AdmissionGate {
  import opened Common
  import opened Admission

  /** What `admit` has decided by the time it either returns or starts waiting. */
  datatype AdmitOutcome = Admitted | Refused(why: Rejected) | Waiting

  class Gate {
    const settings: Settings
    var permits: nat
    var capacity: nat
    var queued: nat
    var debt: nat
    var admitted: nat
    var refusedFull: nat
    var refusedTimedOut: nat
    var seeded: nat
    var lastHalved: Option<int>
    ghost var live: nat   // permits handed out and not yet dropped

    ghost function State(): GateState
      reads this
    {
      GateState(settings, permits, live, seeded, capacity, debt, queued,
                admitted, refusedFull, refusedTimedOut, lastHalved)
    }

    constructor (settings: Settings)
      ensures State() == New(settings)
    {
      var ceiling := Ceiling(settings);
      this.settings := settings;
      permits, capacity := ceiling, ceiling;
      queued, debt, admitted, refusedFull, refusedTimedOut, seeded := 0, 0, 0, 0, 0, 0;
      lastHalved := None;
      live := 0;
    }

    constructor WithInFlight(settings: Settings, inFlight: nat)
      ensures State() == NewWithInFlight(settings, inFlight)
    {
      var ceiling := Ceiling(settings);
      var seeded := Min(inFlight, ceiling);
      this.settings := settings;
      permits, capacity := ceiling - seeded, ceiling;
      queued, debt, admitted, refusedFull, refusedTimedOut := 0, 0, 0, 0, 0;
      this.seeded := seeded;
      lastHalved := None;
      live := 0;
    }

    /** Hand one slot to the semaphore. A waiting caller takes it at once. */
    method AddPermit()
      modifies this
      ensures State() == GiveSlot(old(State()))
    {
      if queued > 0 {
        queued := queued - 1;
        admitted := admitted + 1;
        live := live + 1;
      } else {
        permits := permits + 1;
      }
    }

    /** `debt.try_update(checked_sub(1)).is_ok()` */
    method Repay() returns (repaid: bool)
      modifies this`debt
      ensures repaid == (old(debt) > 0)
      ensures debt == if repaid then old(debt) - 1 else old(debt)
    {
      repaid := debt > 0;
      if repaid {
        debt := debt - 1;
      }
    }

    method TryAdmit() returns (permit: bool)
      modifies this
      ensures State() == Admission.TryAdmit(old(State()))
      ensures permit == (old(permits) > 0)
    {
      permit := permits > 0;
      if permit {
        permits := permits - 1;
        admitted := admitted + 1;
        live := live + 1;
      }
    }

    method NoteRefused(why: Rejected)
      modifies this
      ensures State() == Admission.NoteRefused(old(State()), why)
    {
      match why
      case Full => refusedFull := refusedFull + 1;
      case TimedOut => refusedTimedOut := refusedTimedOut + 1;
    }

    method Admit() returns (outcome: AdmitOutcome)
      modifies this
      ensures State() == Admission.Admit(old(State()))
      ensures outcome.Admitted? <==> old(permits) > 0
      ensures outcome == Refused(Full) <==> old(permits) == 0 && old(queued) >= settings.maxQueued
      ensures outcome.Waiting? <==> old(permits) == 0 && old(queued) < settings.maxQueued
    {
      var permit := TryAdmit();
      if permit {
        return Admitted;
      }
      if queued >= settings.maxQueued {
        NoteRefused(Full);
        return Refused(Full);
      }
      queued := queued + 1;
      return Waiting;
    }

    /** The wait ended without a permit, by timeout or by a dropped future. */
    method LeaveQueue(timedOut: bool)
      requires queued > 0
      modifies this
      ensures State() == Apply(old(State()), if timedOut then OpTimeOut else OpCancel)
    {
      if timedOut {
        NoteRefused(TimedOut);
      }
      queued := queued - 1;
    }

    method DropPermit()
      requires live > 0
      modifies this
      ensures State() == Admission.DropPermit(old(State()))
    {
      live := live - 1;
      var repaid := Repay();
      if !repaid {
        AddPermit();
      }
    }

    method ReleaseSeed()
      modifies this
      ensures State() == Admission.ReleaseSeed(old(State()))
    {
      if seeded > 0 {
        seeded := seeded - 1;
        var repaid := Repay();
        if !repaid {
          AddPermit();
        }
      }
    }

    method Shrink()
      modifies this
      ensures State() == Admission.Shrink(old(State()))
    {
      var now := capacity;
      var target := Max(now / 2, MIN_CONCURRENT);
      if target >= now {
        return;
      }
      var cut := now - target;
      var forgotten := Min(cut, permits);
      permits := permits - forgotten;
      debt := debt + (cut - forgotten);
      capacity := target;
    }

    method ConsiderShrink(now: int)
      modifies this
      ensures State() == Admission.ConsiderShrink(old(State()), now)
    {
      var due := match lastHalved
        case Some(at) => Max(now - at, 0) >= SHRINK_COOLDOWN
        case None => true;
      if !due {
        return;
      }
      lastHalved := Some(now);
      Shrink();
    }

    method Grow()
      modifies this
      ensures State() == Admission.Grow(old(State()))
    {
      var now := capacity;
      if now >= Ceiling(settings) {
        return;
      }
      var forgave := Repay();
      if !forgave {
        AddPermit();
      }
      capacity := now + 1;
    }

    method ObserveAt(engineWaiting: nat, now: int)
      modifies this
      ensures State() == Observe(old(State()), engineWaiting, now)
    {
      if engineWaiting >= settings.highWater {
        ConsiderShrink(now);
      } else if engineWaiting == 0 {
        Grow();
      }
    }

    /** The loop of `restore_full` ends at the closed form, one `Grow` at a time. */
    method RestoreFull()
      modifies this
      ensures State() == Admission.RestoreFull(old(State()))
    {
      ghost var start := State();
      while capacity < Ceiling(settings)
        invariant Admission.RestoreFull(State()) == Admission.RestoreFull(start)
        decreases Ceiling(settings) - capacity
      {
        GrowTowardsRestore(State());
        Grow();
      }
      lastHalved := None;
    }
  }
}
