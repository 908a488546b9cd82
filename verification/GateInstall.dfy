/**
 Installing an automatic gate on a backend that already has requests running
 (src/registry.rs, the `InflightGuard` and `enable_auto_admission` code).

 A guard captures, under the transition lock, either the gate or the fact that
 there was none. `ungated` counts live guards of the second kind: the requests
 an install must seed. `atInstall` remembers how many those were.
 */
module GateInstall {
  import opened Common
  import opened Admission
  import opened AdmissionGate

  // ----- the automatic numbers ------------------------------------------

  const BOX_SESSIONS: nat := 16
  const U32_MAX: nat := 0xFFFF_FFFF

  function PerReplicaCeiling(boxCapacity: nat, replicas: nat): nat {
    var replicas := Max(replicas, 1);
    Min(boxCapacity + (replicas - 1), U32_MAX) / replicas
  }

  function AutoSettings(engineCapacity: Option<nat>, replicas: nat): Settings {
    var measured := PerReplicaCeiling(BOX_SESSIONS, replicas);
    Settings(
      if engineCapacity.Some? && engineCapacity.value > 0
      then Min(measured, PerReplicaCeiling(engineCapacity.value, replicas)) else measured,
      2, 32, 5)
  }

  /** The sessions the box is to serve: the measured limit, or the engine's own
      batch when it reports a smaller one. */
  function BoxTarget(engineCapacity: Option<nat>): nat {
    if engineCapacity.Some? && engineCapacity.value > 0 then Min(16, engineCapacity.value) else 16
  }

  /** Replica counts for which the rounding-up sum does not saturate. */
  lemma PlainShare(engineCapacity: Option<nat>, replicas: nat)
    requires 1 <= replicas <= U32_MAX - BOX_SESSIONS
    ensures AutoSettings(engineCapacity, replicas).maxConcurrent == (BoxTarget(engineCapacity) + replicas - 1) / replicas
  {
    if engineCapacity.Some? && engineCapacity.value > 0 {
      var c := engineCapacity.value;
      if c <= BOX_SESSIONS {
        DivMono(c + replicas - 1, BOX_SESSIONS + replicas - 1, replicas);
      } else {
        DivMono(BOX_SESSIONS + replicas - 1, Min(c + replicas - 1, U32_MAX), replicas);
      }
    }
  }

  /** Beyond them everyone gets one slot. */
  lemma SaturatedShare(engineCapacity: Option<nat>, replicas: nat)
    requires U32_MAX - BOX_SESSIONS < replicas <= U32_MAX
    ensures AutoSettings(engineCapacity, replicas).maxConcurrent == 1
  {
    var measured := Min(BOX_SESSIONS + replicas - 1, U32_MAX);
    QuotientUnique(measured, replicas, 1, measured - replicas);
    if engineCapacity.Some? && engineCapacity.value > 0 {
      var own := Min(engineCapacity.value + replicas - 1, U32_MAX);
      QuotientUnique(own, replicas, 1, own - replicas);
    }
  }

  /** Together the replicas cover the box and overshoot it by less than one
      slot each, for every reported capacity and every replica count, with
      saturation included and no replicas read as one. */
  lemma ReplicasCoverTheBox(engineCapacity: Option<nat>, replicas: nat)
    requires replicas <= U32_MAX && (engineCapacity.Some? ==> engineCapacity.value <= U32_MAX)
    ensures var each, n := AutoSettings(engineCapacity, replicas).maxConcurrent, Max(replicas, 1);
            var target := BoxTarget(engineCapacity);
            each >= 1 && each * n >= target && (each - 1) * n < target
    ensures AutoSettings(engineCapacity, replicas).(maxConcurrent := 0) == Settings(0, 2, 32, 5)
  {
    var n, target := Max(replicas, 1), BoxTarget(engineCapacity);
    assert AutoSettings(engineCapacity, replicas) == AutoSettings(engineCapacity, n);
    if n <= U32_MAX - BOX_SESSIONS {
      PlainShare(engineCapacity, n);
      DivCeil(target, n);
      DivMono(n, target + n - 1, n);
    } else {
      SaturatedShare(engineCapacity, n);
    }
  }

  // ----- one backend, before and after the install ----------------------

  datatype Config = Auto | Explicit(settings: Settings) | Off

  datatype BackendState = BackendState(
    config: Config,
    gate: Option<GateState>,
    inflight: nat,
    ungated: nat,     // live guards that captured no gate
    gated: nat,       // live guards that captured the gate
    atInstall: nat)   // `ungated` when an automatic gate went in

  function Built(config: Config): BackendState {
    BackendState(config, if config.Explicit? then Some(New(config.settings)) else None, 0, 0, 0, 0)
  }

  datatype Event =
    | Begin
    | EndUngated
    | EndGated
    | Install(settings: Settings)
    | AtGate(op: Op)            // anything a request or the scraper does at the gate

  predicate CanHappen(b: BackendState, e: Event) {
    match e
    case EndUngated => b.ungated > 0 && b.inflight > 0
    case EndGated => b.gated > 0 && b.inflight > 0
    case AtGate(op) => b.gate.Some? && !op.OpReleaseSeed? && Enabled(b.gate.value, op)
    case _ => true
  }

  function Happen(b: BackendState, e: Event): BackendState
    requires CanHappen(b, e)
  {
    match e
    case Begin =>
      if b.gate.Some? then b.(inflight := b.inflight + 1, gated := b.gated + 1)
      else b.(inflight := b.inflight + 1, ungated := b.ungated + 1)
    case EndUngated =>
      b.(inflight := b.inflight - 1, ungated := b.ungated - 1,
         gate := if b.gate.Some? then Some(ReleaseSeed(b.gate.value)) else None)
    case EndGated => b.(inflight := b.inflight - 1, gated := b.gated - 1)
    case Install(settings) =>
      if b.config.Auto? && b.gate.None?
      then b.(gate := Some(NewWithInFlight(settings, b.inflight)), atInstall := b.ungated)
      else b
    case AtGate(op) => b.(gate := Some(Apply(b.gate.value, op)))
  }

  ghost predicate Life(tr: seq<BackendState>, events: seq<Event>) {
    && |tr| == |events| + 1
    && forall i {:trigger events[i]} :: 0 <= i < |events| ==>
         CanHappen(tr[i], events[i]) && tr[i + 1] == Happen(tr[i], events[i])
  }

  /** Pre-gate requests beyond the ceiling are never seeded; the seeds that
      remain are the surviving pre-gate requests minus that excess. */
  ghost predicate SeedsMatch(b: BackendState)
    requires b.gate.Some?
  {
    var g := b.gate.value;
    var excess := SatSub(b.atInstall, Ceiling(g.settings));
    && b.ungated <= b.atInstall
    && g.seeded == SatSub(b.ungated, excess)
  }

  ghost predicate BackendInv(b: BackendState) {
    && b.inflight == b.ungated + b.gated
    && (b.gate.None? ==> b.gated == 0)
    && (b.gate.Some? ==> Inv(b.gate.value) && SeedsMatch(b))
  }

  lemma OnlySeedReleaseTouchesSeeds(s: GateState, op: Op)
    requires Enabled(s, op) && !op.OpReleaseSeed?
    ensures Apply(s, op).seeded == s.seeded
  {
  }

  lemma InstallSeeds(settings: Settings, n: nat)
    ensures Inv(NewWithInFlight(settings, n))
    ensures NewWithInFlight(settings, n).seeded == SatSub(n, SatSub(n, Ceiling(settings)))
  {
  }

  lemma SeedReleased(s: GateState)
    requires Inv(s)
    ensures Inv(ReleaseSeed(s)) && ReleaseSeed(s).settings == s.settings
    ensures ReleaseSeed(s).seeded == SatSub(s.seeded, 1)
  {
    StepKeepsBalance(s, OpReleaseSeed);
  }

  lemma EventKeepsInv(b: BackendState, e: Event)
    requires BackendInv(b) && CanHappen(b, e)
    ensures BackendInv(Happen(b, e))
  {
    match e
    case Begin =>
    case EndGated =>
    case EndUngated => if b.gate.Some? { SeedReleased(b.gate.value); }
    case Install(settings) => InstallSeeds(settings, b.inflight);
    case AtGate(op) =>
      StepKeepsBalance(b.gate.value, op);
      StepKeepsSettings(b.gate.value, op);
      OnlySeedReleaseTouchesSeeds(b.gate.value, op);
  }

  lemma {:induction false} InvOverALife(tr: seq<BackendState>, events: seq<Event>, n: nat)
    requires Life(tr, events) && tr[0] == Built(tr[0].config) && n < |tr|
    ensures BackendInv(tr[n])
  {
    if n == 0 {
      if tr[0].config.Explicit? { InstallSeeds(tr[0].config.settings, 0); }
    } else {
      InvOverALife(tr, events, n - 1);
      EventKeepsInv(tr[n - 1], events[n - 1]);
    }
  }

  /** Requests the engine is working on for this backend. */
  function Load(b: BackendState): nat {
    b.ungated + (if b.gate.Some? then b.gate.value.held else 0)
  }

  /** Putting a gate in never lets load rise above what was already running or
      the ceiling, whichever is larger, for the rest of the backend's life. The
      outstanding seeds never exceed the surviving pre-gate requests, and when
      the last of those ends every seeded slot is back. */
  lemma {:induction false} InstallNeverRaisesLoad(tr: seq<BackendState>, events: seq<Event>, n: nat)
    requires Life(tr, events) && tr[0] == Built(tr[0].config) && n < |tr|
    requires tr[n].gate.Some?
    ensures Load(tr[n]) <= Max(Ceiling(tr[n].gate.value.settings), tr[n].atInstall)
    ensures tr[n].gate.value.seeded <= tr[n].ungated
    ensures tr[n].ungated == 0 ==> tr[n].gate.value.seeded == 0
    ensures tr[n].ungated == 0 && tr[n].gate.value.held == 0 ==>
              tr[n].gate.value.free == tr[n].gate.value.capacity
  {
    InvOverALife(tr, events, n);
  }

  lemma NoGateFromHere(b: BackendState, e: Event)
    requires CanHappen(b, e) && !b.config.Auto?
    ensures Happen(b, e).config == b.config
    ensures Happen(b, e).gate.Some? == b.gate.Some?
  {
  }

  /** Detection never overrides an operator: a backend built `Off` never has a
      gate, however often an install is attempted. */
  lemma {:induction false} OffStaysUngated(tr: seq<BackendState>, events: seq<Event>, n: nat)
    requires Life(tr, events) && tr[0] == Built(Off) && n < |tr|
    ensures tr[n].gate.None? && tr[n].config == Off
  {
    if n > 0 {
      OffStaysUngated(tr, events, n - 1);
      NoGateFromHere(tr[n - 1], events[n - 1]);
    }
  }

  // ----- the objects ----------------------------------------------------

  class Backend {
    const config: Config
    var admission: Gate?
    var inflight: nat
    ghost var ungated: nat
    ghost var gated: nat
    ghost var atInstall: nat

    ghost function State(): BackendState
      reads this, if admission != null then {admission} else {}
    {
      BackendState(config, if admission == null then None else Some(admission.State()),
                   inflight, ungated, gated, atInstall)
    }

    constructor (config: Config)
      ensures State() == Built(config)
      ensures admission != null ==> fresh(admission)
    {
      this.config := config;
      inflight, ungated, gated, atInstall := 0, 0, 0, 0;
      match config {
        case Explicit(settings) =>
          var gate := new Gate(settings);
          admission := gate;
        case _ =>
          admission := null;
      }
    }

    method BeginRequest() returns (gate: Gate?)
      modifies this
      ensures State() == Happen(old(State()), Begin)
      ensures gate == admission == old(admission)
    {
      gate := admission;
      inflight := inflight + 1;
      if gate == null {
        ungated := ungated + 1;
      } else {
        gated := gated + 1;
      }
    }

    method EnableAutoAdmission(settings: Settings) returns (installed: bool)
      modifies this
      ensures State() == Happen(old(State()), Install(settings))
      ensures installed <==> config.Auto? && old(admission) == null
      ensures if installed then fresh(admission) else admission == old(admission)
    {
      if !config.Auto? || admission != null {
        return false;
      }
      var gate := new Gate.WithInFlight(settings, inflight);
      admission := gate;
      atInstall := ungated;
      return true;
    }

    /** Dropping an `InflightGuard` that captured `gate`. */
    method EndRequest(gate: Gate?)
      requires inflight > 0
      requires if gate == null then ungated > 0 else gated > 0
      modifies this, if admission != null then {admission} else {}
      ensures State() == Happen(old(State()), if gate == null then EndUngated else EndGated)
      ensures admission == old(admission)
    {
      if gate == null {
        if admission != null {
          admission.ReleaseSeed();
        }
        ungated := ungated - 1;
      } else {
        gated := gated - 1;
      }
      inflight := inflight - 1;
    }

    /** `stale` is whether the last reading of the engine has aged out. */
    method RestoreAutoAdmission(onlyIfSilent: bool, stale: bool) returns (restored: bool)
      modifies if admission != null then {admission} else {}
      ensures restored <==> config.Auto? && admission != null && (onlyIfSilent ==> stale)
      ensures State() == if restored then Happen(old(State()), AtGate(OpRestoreFull)) else old(State())
    {
      if !config.Auto? || (onlyIfSilent && !stale) || admission == null {
        return false;
      }
      admission.RestoreFull();
      return true;
    }
  }
}
