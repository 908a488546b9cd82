/**
 One engine across registry generations (src/registry.rs): its backend object
 is rebuilt by reloads that keep the engine and the gate mode.

 A gated backend hands its gate over, so requests of every generation return
 their slots to it. A backend rebuilt before it had a gate leaves its running
 requests behind on the old object, which no later gate knows of.
 */
module GateHandover {
  import opened Common
  import opened Admission
  import opened GateInstall

  /** The objects sharing the current gate, or the current object while there is
      none, and the requests left on gateless predecessors. */
  datatype EngineState = EngineState(current: BackendState, stray: nat)

  datatype Step =
    | On(event: Event)     // anything at the current generation
    | Rebuild              // a reload that mints a new object for the same engine and mode
    | StrayEnds

  predicate CanStep(e: EngineState, step: Step) {
    match step
    case On(event) => CanHappen(e.current, event)
    case Rebuild => true
    case StrayEnds => e.stray > 0
  }

  function Took(e: EngineState, step: Step): EngineState
    requires CanStep(e, step)
  {
    match step
    case On(event) => e.(current := Happen(e.current, event))
    case Rebuild => if e.current.gate.Some? then e else EngineState(Built(e.current.config), e.stray + e.current.ungated)
    case StrayEnds => e.(stray := e.stray - 1)
  }

  ghost predicate History(tr: seq<EngineState>, steps: seq<Step>) {
    && |tr| == |steps| + 1
    && forall i {:trigger steps[i]} :: 0 <= i < |steps| ==> CanStep(tr[i], steps[i]) && tr[i + 1] == Took(tr[i], steps[i])
  }

  function EngineLoad(e: EngineState): nat { Load(e.current) + e.stray }

  // ----- every generation -----------------------------------------------

  lemma BuiltIsBalanced(config: Config)
    ensures BackendInv(Built(config))
  {
    if config.Explicit? { InstallSeeds(config.settings, 0); }
  }

  lemma EventKeepsConfig(b: BackendState, e: Event)
    requires CanHappen(b, e)
    ensures Happen(b, e).config == b.config
  {
  }

  lemma StepBalances(e: EngineState, step: Step)
    requires CanStep(e, step) && BackendInv(e.current)
    ensures BackendInv(Took(e, step).current) && Took(e, step).current.config == e.current.config
  {
    hide BackendInv, Happen;
    match step
    case On(event) =>
      EventKeepsInv(e.current, event);
      EventKeepsConfig(e.current, event);
    case Rebuild => BuiltIsBalanced(e.current.config);
    case StrayEnds =>
  }

  lemma {:induction false} EveryGenerationBalances(tr: seq<EngineState>, steps: seq<Step>, n: nat)
    requires History(tr, steps) && tr[0] == EngineState(Built(tr[0].current.config), 0) && n < |tr|
    ensures BackendInv(tr[n].current) && tr[n].current.config == tr[0].current.config
  {
    hide BackendInv, Took, CanStep, Built;
    if n == 0 {
      BuiltIsBalanced(tr[0].current.config);
    } else {
      EveryGenerationBalances(tr, steps, n - 1);
      StepBalances(tr[n - 1], steps[n - 1]);
    }
  }

  /** A rebuild that leaves running requests behind. */
  predicate Strands(e: EngineState, step: Step) {
    step.Rebuild? && e.current.gate.None? && e.current.ungated > 0
  }

  lemma {:induction false} NothingStranded(tr: seq<EngineState>, steps: seq<Step>, n: nat)
    requires History(tr, steps) && tr[0].stray == 0 && n < |tr|
    requires forall i :: 0 <= i < n ==> !Strands(tr[i], steps[i])
    ensures tr[n].stray == 0
  {
    if n > 0 {
      NothingStranded(tr, steps, n - 1);
      assert !Strands(tr[n - 1], steps[n - 1]);
    }
  }

  /** Over any number of generations the engine's load stays within the ceiling
      or what its gate found running, plus the strays; with no rebuild that
      stranded requests there are none. Slots balance throughout. */
  lemma {:induction false} LoadIsBoundedAcrossGenerations(tr: seq<EngineState>, steps: seq<Step>, n: nat)
    requires History(tr, steps) && tr[0] == EngineState(Built(tr[0].current.config), 0) && n < |tr|
    requires tr[n].current.gate.Some?
    ensures var b := tr[n].current;
            && Inv(b.gate.value) && b.gate.value.seeded <= b.ungated
            && EngineLoad(tr[n]) <= Max(Ceiling(b.gate.value.settings), b.atInstall) + tr[n].stray
            && ((forall i :: 0 <= i < n ==> !Strands(tr[i], steps[i])) ==>
                  EngineLoad(tr[n]) <= Max(Ceiling(b.gate.value.settings), b.atInstall))
  {
    EveryGenerationBalances(tr, steps, n);
    if forall i :: 0 <= i < n ==> !Strands(tr[i], steps[i]) {
      NothingStranded(tr, steps, n);
    }
  }

  // ----- what a gate installed late knows -------------------------------

  /** A gate leaves exactly the room the engine's running requests leave iff none
      of them is stray, or those on the current object fill it by themselves. */
  lemma SeedsCoverTheEngineIff(e: EngineState, settings: Settings)
    requires BackendInv(e.current) && e.current.config.Auto? && e.current.gate.None?
    ensures var after := Took(e, On(Install(settings)));
            && after.current.gate.Some?
            && (after.current.gate.value.free == SatSub(Ceiling(settings), EngineLoad(e)) <==>
                e.stray == 0 || e.current.ungated >= Ceiling(settings))
  {
  }

  /** One request running, its backend rebuilt, then a gate of one slot: the
      engine ends up working on two requests. */
  lemma AStrayIsNotSeeded() returns (tr: seq<EngineState>, steps: seq<Step>)
    ensures History(tr, steps) && tr[0] == EngineState(Built(Auto), 0)
    ensures var last := tr[|steps|];
            && last.current.gate.Some? && Ceiling(last.current.gate.value.settings) == 1
            && EngineLoad(last) == 2 && last.current.atInstall == 0 && last.stray == 1
  {
    var settings := Settings(1, 0, 0, 0);
    steps := [On(Begin), Rebuild, On(Install(settings)), On(Begin), On(AtGate(OpTryAdmit))];
    var a := EngineState(Built(Auto), 0);
    var b := Took(a, steps[0]);
    var c := Took(b, steps[1]);
    var d := Took(c, steps[2]);
    var e := Took(d, steps[3]);
    var f := Took(e, steps[4]);
    assert c == EngineState(Built(Auto), 1) && d.current.gate == Some(NewWithInFlight(settings, 0));
    tr := [a, b, c, d, e, f];
  }
}
