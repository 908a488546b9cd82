/**
 What holds over any sequence of reloads and gate installs: uids are never
 reused, an unchanged backend stays the same object, and an engine keeps its
 gate across rebuilds.
 */
module ReloadRuns {
  import opened Common
  import opened Registry
  import opened Reload

  datatype Step =
    | Configure(entries: seq<Entry>)   // a new configuration, applied or refused
    | Detect(o: ObjectId)              // a scrape found an engine: `enable_auto_admission`

  /** Installing is a no-op unless the mode is Auto and no gate is there. */
  function Detected(w: World, o: ObjectId): World {
    if o < |w.heap| && w.heap[o].key.mode.Auto? && w.heap[o].gate.None?
    then World(w.names, w.heap[o := w.heap[o].(gate := Some(w.gates))], w.gates + 1)
    else w
  }

  /** A pool names no uid twice and nothing outside its generation. */
  ghost predicate PoolsAreSound(heap: seq<Object>, r: Routes) {
    forall m | m in r.pools :: PoolInv(heap, r.pools[m]) && forall o | o in r.pools[m] :: o in r.all
  }

  ghost predicate StateInv(s: State) {
    WorldInv(s.world) && ByUid(s.world.heap, s.current.all) && PoolsAreSound(s.world.heap, s.current)
  }

  /** A refused configuration leaves the running generation in place. */
  ghost predicate Configures(s: State, entries: seq<Entry>, t: State) {
    && ByUid(s.world.heap, s.current.all)
    && WorldInv(t.world) && WorldGrows(s.world, t.world)
    && if Refused(s.world, s.current.all, entries, t.world.names) then t.current == s.current
       else Generation(s.world, s.current.all, entries, t.world, t.current)
  }

  ghost predicate Next(s: State, step: Step, t: State) {
    match step
    case Configure(entries) => Configures(s, entries, t)
    case Detect(o) => t == State(Detected(s.world, o), s.current)
  }

  ghost predicate Run(states: seq<State>, steps: seq<Step>) {
    && |states| == |steps| + 1 && StateInv(states[0])
    && forall i {:trigger steps[i]} :: 0 <= i < |steps| ==> Next(states[i], steps[i], states[i + 1])
  }

  // ----- the method takes such a step -----------------------------------

  /** A reload through the build loop is a step of this system. */
  method Apply(s: State, entries: seq<Entry>, interner: Interner) returns (t: State)
    requires StateInv(s) && interner.names == s.world.names
    modifies interner
    ensures Next(s, Configure(entries), t) && interner.names == t.world.names
  {
    var world, routes := Build(entries, interner, s.world.heap, s.world.gates, s.current.all);
    t := State(world, if routes.Some? then routes.value else s.current);
  }

  // ----- invariants -----------------------------------------------------

  ghost predicate Distinct(keys: seq<Key>) {
    forall i, j :: 0 <= i < j < |keys| ==> keys[i] != keys[j]
  }

  lemma {:induction false} MentionedOnce(entries: seq<Entry>, model: string)
    ensures Distinct(Mentioned(entries, model))
  {
    if entries != [] {
      MentionedOnce(entries[..|entries| - 1], model);
    }
  }

  lemma PoolListsOnce(w: World, pool: seq<ObjectId>, entries: seq<Entry>, model: string)
    requires WorldInv(w) && InHeap(w.heap, pool) && KeysOf(w.heap, pool) == Mentioned(entries, model)
    ensures PoolInv(w.heap, pool)
  {
    MentionedOnce(entries, model);
    assert Distinct(KeysOf(w.heap, pool));
    forall i, j | 0 <= i < j < |pool|
      ensures w.heap[pool[i]].uid != w.heap[pool[j]].uid
    {
      UidIsKey(w, pool[i], pool[j]);
    }
  }

  /** What no step ever undoes for an object: its name, its settings, its gate. */
  ghost predicate HeapKeeps(h: seq<Object>, k: seq<Object>) {
    && |h| <= |k|
    && forall o :: 0 <= o < |h| ==>
         && k[o].uid == h[o].uid && k[o].key == h[o].key && k[o].headers == h[o].headers
         && (h[o].gate.Some? ==> k[o].gate == h[o].gate)
  }

  lemma GenerationIsSound(s: State, entries: seq<Entry>, t: State)
    requires StateInv(s) && WorldInv(t.world) && Generation(s.world, s.current.all, entries, t.world, t.current)
    ensures StateInv(t)
  {
    hide Provenance, Mentioned, KeysOf;
    forall m | m in t.current.pools
      ensures PoolInv(t.world.heap, t.current.pools[m])
    {
      PoolListsOnce(t.world, t.current.pools[m], entries, m);
    }
  }

  lemma KeptIsSound(s: State, w: World)
    requires StateInv(s) && WorldInv(w) && HeapKeeps(s.world.heap, w.heap)
    ensures StateInv(State(w, s.current))
  {
    hide WorldInv;
    forall m | m in s.current.pools
      ensures PoolInv(w.heap, s.current.pools[m])
    {
      assert PoolInv(s.world.heap, s.current.pools[m]);
    }
  }

  lemma StepKeeps(s: State, step: Step, t: State)
    requires StateInv(s) && Next(s, step, t)
    ensures StateInv(t) && NamesGrow(s.world.names, t.world.names) && HeapKeeps(s.world.heap, t.world.heap)
  {
    hide Generation, Refused, PoolsAreSound;
    match step
    case Configure(entries) =>
      if Refused(s.world, s.current.all, entries, t.world.names) {
        KeptIsSound(s, t.world);
      } else {
        GenerationIsSound(s, entries, t);
      }
    case Detect(o) =>
      KeptIsSound(s, t.world);
  }

  lemma {:induction false} RunKeeps(states: seq<State>, steps: seq<Step>, i: nat, j: nat)
    requires Run(states, steps) && i <= j <= |steps|
    decreases i + j
    ensures StateInv(states[i]) && StateInv(states[j])
    ensures NamesGrow(states[i].world.names, states[j].world.names) && HeapKeeps(states[i].world.heap, states[j].world.heap)
  {
    hide Next, StateInv;
    if i < j {
      RunKeeps(states, steps, i, j - 1);
      assert Next(states[j - 1], steps[j - 1], states[j]);
      StepKeeps(states[j - 1], steps[j - 1], states[j]);
    } else if i > 0 {
      RunKeeps(states, steps, i - 1, i - 1);
      assert Next(states[i - 1], steps[i - 1], states[i]);
      StepKeeps(states[i - 1], steps[i - 1], states[i]);
    }
  }

  // ----- uids -----------------------------------------------------------

  /** However many reloads lie between, a uid belongs to one key. */
  lemma UidsAreNeverReused(states: seq<State>, steps: seq<Step>, i: nat, j: nat, a: Key, b: Key)
    requires Run(states, steps) && i <= j <= |steps|
    requires a in states[i].world.names.keys && b in states[j].world.names.keys
    ensures states[i].world.names.keys[a] == states[j].world.names.keys[b] <==> a == b
  {
    hide Next;
    RunKeeps(states, steps, i, j);
  }

  // ----- objects --------------------------------------------------------

  ghost predicate Live(s: State, o: ObjectId, key: Key) {
    o in s.current.all && o < |s.world.heap| && s.world.heap[o].key == key
  }

  ghost predicate ServesKey(s: State, key: Key) {
    exists o: ObjectId :: Live(s, o, key)
  }

  /** A generation has one object per key. */
  lemma OneObjectPerKey(s: State, a: ObjectId, b: ObjectId, key: Key)
    requires StateInv(s) && Live(s, a, key) && Live(s, b, key)
    ensures a == b
  {
    var i :| 0 <= i < |s.current.all| && s.current.all[i] == a;
    var j :| 0 <= j < |s.current.all| && s.current.all[j] == b;
    UidIsKey(s.world, a, b);
  }

  lemma StepKeepsObject(s: State, step: Step, t: State, o: ObjectId, key: Key)
    requires StateInv(s) && Next(s, step, t) && StateInv(t) && Live(s, o, key) && ServesKey(t, key)
    ensures Live(t, o, key)
  {
    hide PoolsAreSound, AdoptedGate, Mentioned, KeysOf;
    StepKeeps(s, step, t);
    var x: ObjectId :| Live(t, x, key);
    if step.Configure? && !Refused(s.world, s.current.all, step.entries, t.world.names) {
      assert Provenance(s.world, s.current.all, t.world, x);
      UidIsKey(t.world, o, x);
      if x < |s.world.heap| {
        OneObjectPerKey(s, o, x, key);
      }
    }
  }

  /** A key configured through every reload in between is served by the same
      live object, with its counters, health and gate. */
  lemma {:induction false} UnchangedKeyKeepsItsObject(states: seq<State>, steps: seq<Step>, i: nat, j: nat, o: ObjectId, key: Key)
    requires Run(states, steps) && i <= j <= |steps|
    requires Live(states[i], o, key) && forall n | i <= n <= j :: ServesKey(states[n], key)
    ensures Live(states[j], o, key)
  {
    hide Next, StateInv, Live, ServesKey;
    if i < j {
      UnchangedKeyKeepsItsObject(states, steps, i, j - 1, o, key);
      RunKeeps(states, steps, j - 1, j);
      assert Next(states[j - 1], steps[j - 1], states[j]) && ServesKey(states[j], key);
      StepKeepsObject(states[j - 1], steps[j - 1], states[j], o, key);
    }
  }

  // ----- gates ----------------------------------------------------------

  /** `o` is the generation's one backend for the engine, in this gate mode. */
  ghost predicate OnlyFor(s: State, o: ObjectId, engine: Engine, mode: Mode) {
    && o in s.current.all && o < |s.world.heap| && s.world.heap[o].key.engine == engine && s.world.heap[o].key.mode == mode
    && forall x | x in s.current.all && x < |s.world.heap| && s.world.heap[x].key.engine == engine :: x == o
  }

  function GateOf(s: State, o: ObjectId): Option<GateId> {
    if o < |s.world.heap| then s.world.heap[o].gate else None
  }

  lemma StepKeepsGate(s: State, step: Step, t: State, o: ObjectId, x: ObjectId, engine: Engine, mode: Mode)
    requires StateInv(s) && Next(s, step, t) && StateInv(t)
    requires OnlyFor(s, o, engine, mode) && OnlyFor(t, x, engine, mode) && GateOf(s, o).Some?
    ensures GateOf(t, x) == GateOf(s, o)
  {
    hide PoolsAreSound, Mentioned, KeysOf;
    StepKeeps(s, step, t);
    if step.Configure? && !Refused(s.world, s.current.all, step.entries, t.world.names) {
      assert Provenance(s.world, s.current.all, t.world, x);
      var p := Predecessor(s.world.heap, s.current.all, engine);
      assert p == Some(o);
    }
  }

  /** While an engine has one backend at a time in one gate mode, whatever else
      is edited, every generation admits through the same gate: its slots are
      the one set of slots the admission theorems conserve. */
  lemma {:induction false} GateSurvivesReloads(
    states: seq<State>, steps: seq<Step>, i: nat, j: nat, who: nat -> ObjectId, engine: Engine, mode: Mode)
    requires Run(states, steps) && i <= j <= |steps|
    requires forall n | i <= n <= j :: OnlyFor(states[n], who(n), engine, mode)
    requires GateOf(states[i], who(i)).Some?
    ensures GateOf(states[j], who(j)) == GateOf(states[i], who(i))
  {
    hide Next, StateInv;
    if i < j {
      GateSurvivesReloads(states, steps, i, j - 1, who, engine, mode);
      RunKeeps(states, steps, j - 1, j);
      assert Next(states[j - 1], steps[j - 1], states[j]);
      assert OnlyFor(states[j - 1], who(j - 1), engine, mode) && OnlyFor(states[j], who(j), engine, mode);
      StepKeepsGate(states[j - 1], steps[j - 1], states[j], who(j - 1), who(j), engine, mode);
    }
  }

  /** With several same-engine backends before, a rebuilt one shares a given
      gate exactly when the first of them in uid order holds it in this mode. */
  lemma RebuiltSharesTheFirstGate(s: State, entries: seq<Entry>, t: State, o: ObjectId, g: GateId)
    requires StateInv(s) && Configures(s, entries, t) && !Refused(s.world, s.current.all, entries, t.world.names)
    requires o in t.current.all && |s.world.heap| <= o < |t.world.heap| && g < s.world.gates
    ensures var key := t.world.heap[o].key; var p := Predecessor(s.world.heap, s.current.all, key.engine);
            t.world.heap[o].gate == Some(g) <==>
            p.Some? && s.world.heap[p.value].key.mode == key.mode && s.world.heap[p.value].gate == Some(g)
  {
    hide PoolsAreSound, Mentioned, KeysOf, Predecessor;
    assert Provenance(s.world, s.current.all, t.world, o);
  }

  /** The mode decides who has a gate: Off never, Explicit always. */
  ghost predicate ModesHold(s: State) {
    forall o | o in s.current.all && o < |s.world.heap| ::
      && (s.world.heap[o].key.mode.Off? ==> s.world.heap[o].gate.None?)
      && (s.world.heap[o].key.mode.Explicit? ==> s.world.heap[o].gate.Some?)
  }

  lemma StepKeepsModes(s: State, step: Step, t: State)
    requires StateInv(s) && Next(s, step, t) && ModesHold(s)
    ensures ModesHold(t)
  {
    hide PoolsAreSound, Mentioned, KeysOf, Serves, Configured;
    StepKeeps(s, step, t);
    if step.Configure? && !Refused(s.world, s.current.all, step.entries, t.world.names) {
      forall o | o in t.current.all && o < |t.world.heap|
        ensures t.world.heap[o].key.mode.Off? ==> t.world.heap[o].gate.None?
        ensures t.world.heap[o].key.mode.Explicit? ==> t.world.heap[o].gate.Some?
      {
        assert Provenance(s.world, s.current.all, t.world, o);
      }
    }
  }

  lemma {:induction false} ModesDecideGates(states: seq<State>, steps: seq<Step>, n: nat)
    requires Run(states, steps) && n <= |steps| && ModesHold(states[0])
    ensures ModesHold(states[n])
  {
    hide Next, StateInv, ModesHold;
    if n > 0 {
      ModesDecideGates(states, steps, n - 1);
      RunKeeps(states, steps, n - 1, n);
      assert Next(states[n - 1], steps[n - 1], states[n]);
      StepKeepsModes(states[n - 1], steps[n - 1], states[n]);
    }
  }

  /** Detection gates an Auto backend that has none, once, with a gate no object
      has held before, and changes nothing else. */
  lemma DetectionInstallsOnce(s: State, o: ObjectId, t: State, x: ObjectId)
    requires StateInv(s) && Next(s, Detect(o), t) && x < |s.world.heap|
    ensures |t.world.heap| == |s.world.heap|
    ensures GateOf(t, x) != GateOf(s, x) <==> x == o && s.world.heap[o].key.mode.Auto? && GateOf(s, o).None?
    ensures GateOf(t, x) != GateOf(s, x) ==>
              GateOf(t, x).Some? && forall y | 0 <= y < |s.world.heap| :: s.world.heap[y].gate != GateOf(t, x)
  {
  }

  // ----- settings the key leaves out ------------------------------------

  /** A configured backend runs with its entry's extra headers exactly when it
      was not serving before, or already had them: the key does not hold them,
      so a carried object keeps the old ones. */
  lemma HeadersArriveIff(s: State, entries: seq<Entry>, t: State, e: Entry, o: ObjectId)
    requires StateInv(s) && Configures(s, entries, t) && !Refused(s.world, s.current.all, entries, t.world.names)
    requires StateInv(t) && e in entries && FirstHeaders(entries, e.key) == e.headers && Live(t, o, e.key)
    ensures t.world.heap[o].headers == e.headers <==>
            forall x: ObjectId | Live(s, x, e.key) :: s.world.heap[x].headers == e.headers
  {
    hide PoolsAreSound, Mentioned, KeysOf, AdoptedGate, FirstHeaders;
    assert Provenance(s.world, s.current.all, t.world, o);
    forall x: ObjectId | Live(s, x, e.key)
      ensures x == o
    {
      UidIsKey(t.world, x, o);
      if o < |s.world.heap| {
        OneObjectPerKey(s, x, o, e.key);
      }
    }
    if o < |s.world.heap| {
      assert Live(s, o, e.key);
    }
  }

  // ----- what fails -----------------------------------------------------

  /** Only the extra headers edited: the running backend keeps the old ones. */
  lemma AHeaderEditIsLost() returns (s: State, entries: seq<Entry>, t: State)
    ensures StateInv(s) && Configures(s, entries, t) && !Refused(s.world, s.current.all, entries, t.world.names)
    ensures |entries| == 1 && |t.world.heap| == 1 && Live(t, 0, entries[0].key)
    ensures t.world.heap[0].headers != entries[0].headers
  {
    var key := Key(Engine("http://gpu", "llama", None), Off, "");
    var w := World(Names(map[key := 0], 1), [Object(0, key, "old", None)], 0);
    s := State(w, Routes(map["m" := [0]], [0]));
    entries := [Entry("m", key, "new", true)];
    t := s;
    SingleEntry(s, entries[0], t, 0);
  }

  lemma SinglePool(w: World, e: Entry, o: ObjectId)
    requires o < |w.heap| && w.heap[o].key == e.key
    ensures KeysOf(w.heap, [o]) == Mentioned([e], e.model)
  {
    assert [e][..0] == [];
    assert Mentioned([], e.model) == [];
  }

  lemma SingleKey(w: World, e: Entry, o: ObjectId, key: Key)
    requires o < |w.heap| && w.heap[o].key == e.key
    ensures Serves(w.heap, [o], key) <==> Configured([e], key)
  {
    assert e in [e] && o in [o];
  }

  /** A configuration of one backend yields a generation of one object. */
  lemma SingleEntry(s: State, e: Entry, t: State, o: ObjectId)
    requires StateInv(s) && WorldInv(t.world) && WorldGrows(s.world, t.world) && e.builds
    requires o < |t.world.heap| && t.world.heap[o].key == e.key && t.current == Routes(map[e.model := [o]], [o])
    requires Provenance(s.world, s.current.all, t.world, o)
    requires o >= |s.world.heap| ==> t.world.heap[o].headers == e.headers
    ensures Configures(s, [e], t) && !Refused(s.world, s.current.all, [e], t.world.names)
  {
    hide Provenance, PoolsAreSound, Serves, Configured, KeysOf, Mentioned;
    SinglePool(t.world, e, o);
    forall key
      ensures Serves(t.world.heap, [o], key) <==> Configured([e], key)
    {
      SingleKey(t.world, e, o, key);
    }
  }

  // ----- a gate lost, from the empty registry on ------------------------

  const GPU := Engine("http://gpu", "llama", None)
  const UNGATED := Key(GPU, Off, "a")
  const GATED := Key(GPU, Auto, "b")
  const EDITED := Key(GPU, Auto, "c")

  function Plain(key: Key): Entry { Entry("m", key, "", true) }

  function Empty(): State { State(World(Names(map[], 0), [], 0), Routes(map[], [])) }

  /** Both backends configured, and then the second one's engine detected. */
  function Pair(gate: Option<GateId>, gates: nat): State {
    State(World(Names(map[UNGATED := 0, GATED := 1], 2), [Object(0, UNGATED, "", None), Object(1, GATED, "", gate)], gates),
          Routes(map["m" := [0, 1]], [0, 1]))
  }

  function Rebuilt(): State {
    var w := Pair(Some(0), 1).world;
    State(World(Names(w.names.keys[EDITED := 2], 3), w.heap + [Object(2, EDITED, "", None)], 1), Routes(map["m" := [2]], [2]))
  }

  lemma PairPool()
    ensures var entries := [Plain(UNGATED), Plain(GATED)];
            KeysOf(Pair(None, 0).world.heap, [0, 1]) == Mentioned(entries, "m")
  {
    var x, y := Plain(UNGATED), Plain(GATED);
    MentionedAppended([], x, "m");
    MentionedAppended([x], y, "m");
    assert [] + [x] == [x] && [x] + [y] == [x, y];
    assert Mentioned([], "m") == [];
  }

  lemma PairServes(key: Key)
    ensures Serves(Pair(None, 0).world.heap, [0, 1], key) <==> Configured([Plain(UNGATED), Plain(GATED)], key)
  {
    var heap, entries := Pair(None, 0).world.heap, [Plain(UNGATED), Plain(GATED)];
    assert 0 in [0, 1] && 1 in [0, 1] && Plain(UNGATED) in entries && Plain(GATED) in entries;
  }

  lemma PairIsSound(gate: Option<GateId>, gates: nat)
    requires gate.Some? ==> gate.value < gates
    ensures StateInv(Pair(gate, gates))
  {
  }

  lemma PairIsNew(o: ObjectId)
    requires o < 2
    ensures Provenance(Empty().world, [], Pair(None, 0).world, o)
  {
  }

  lemma PairIsAGeneration()
    ensures Generation(Empty().world, [], [Plain(UNGATED), Plain(GATED)], Pair(None, 0).world, Pair(None, 0).current)
  {
    var t, entries := Pair(None, 0), [Plain(UNGATED), Plain(GATED)];
    assert ByUid(t.world.heap, [0, 1]);
    assert FirstHeaders(entries, UNGATED) == FirstHeaders(entries, GATED) == "" by {
      assert entries[1..] == [Plain(GATED)];
    }
    hide Serves, Configured, KeysOf, Mentioned, Provenance, FirstHeaders;
    PairPool();
    PairIsNew(0);
    PairIsNew(1);
    forall key
      ensures Serves(t.world.heap, [0, 1], key) <==> Configured(entries, key)
    {
      PairServes(key);
    }
  }

  lemma BuildableIsNotRefused(start: World, previous: seq<ObjectId>, entries: seq<Entry>, names: Names)
    requires InHeap(start.heap, previous) && names.next <= U32_MAX && forall e | e in entries :: e.builds
    ensures !Refused(start, previous, entries, names)
  {
    hide Serves, Configured;
  }

  lemma GenerationIsConfigured(s: State, entries: seq<Entry>, t: State)
    requires ByUid(s.world.heap, s.current.all) && WorldInv(t.world) && WorldGrows(s.world, t.world)
    requires Generation(s.world, s.current.all, entries, t.world, t.current)
    requires !Refused(s.world, s.current.all, entries, t.world.names)
    ensures Next(s, Configure(entries), t)
  {
    hide Generation, Refused, WorldInv, WorldGrows;
  }

  lemma EmptyIsSound()
    ensures StateInv(Empty()) && WorldGrows(Empty().world, Pair(None, 0).world)
  {
  }

  lemma PairIsConfigured()
    ensures StateInv(Empty()) && Next(Empty(), Configure([Plain(UNGATED), Plain(GATED)]), Pair(None, 0))
    ensures !Refused(Empty().world, [], [Plain(UNGATED), Plain(GATED)], Pair(None, 0).world.names)
  {
    var entries := [Plain(UNGATED), Plain(GATED)];
    assert Empty().current.all == [] && Pair(None, 0).world.names.next == 2;
    assert forall e | e in entries :: e.builds;
    hide Generation, Refused, WorldGrows, WorldInv, PoolsAreSound, Next, Pair;
    EmptyIsSound();
    PairIsSound(None, 0);
    BuildableIsNotRefused(Empty().world, [], entries, Pair(None, 0).world.names);
    PairIsAGeneration();
    GenerationIsConfigured(Empty(), entries, Pair(None, 0));
  }

  lemma RebuiltIsNew()
    ensures Provenance(Pair(Some(0), 1).world, [0, 1], Rebuilt().world, 2)
  {
    assert Predecessor(Pair(Some(0), 1).world.heap, [0, 1], GPU) == Some(0);
  }

  function WithNew(w: World, key: Key): World {
    World(Names(w.names.keys[key := w.names.next], w.names.next + 1), w.heap + [Object(w.names.next, key, "", None)], w.gates)
  }

  lemma NewIsSound(w: World, key: Key)
    requires WorldInv(w) && key !in w.names.keys && w.names.next <= U32_MAX
    ensures WorldInv(WithNew(w, key)) && WorldGrows(w, WithNew(w, key))
  {
    InternKeeps(w, key);
  }

  lemma RebuiltIsSound()
    ensures WorldInv(Rebuilt().world) && WorldGrows(Pair(Some(0), 1).world, Rebuilt().world)
  {
    var w := Pair(Some(0), 1).world;
    assert EDITED !in w.names.keys && w.names.next == 2;
    assert Rebuilt().world == WithNew(w, EDITED);
    hide WorldInv, WorldGrows, Rebuilt, PoolsAreSound, ByUid;
    PairIsSound(Some(0), 1);
    NewIsSound(w, EDITED);
  }

  lemma RebuiltIsConfigured()
    ensures Next(Pair(Some(0), 1), Configure([Plain(EDITED)]), Rebuilt())
    ensures !Refused(Pair(Some(0), 1).world, [0, 1], [Plain(EDITED)], Rebuilt().world.names)
  {
    assert Rebuilt().world.heap[2] == Object(2, EDITED, "", None) && |Rebuilt().world.heap| == 3;
    hide Provenance, PoolsAreSound, Refused, WorldInv, WorldGrows;
    PairIsSound(Some(0), 1);
    RebuiltIsSound();
    RebuiltIsNew();
    SingleEntry(Pair(Some(0), 1), Plain(EDITED), Rebuilt(), 2);
  }

  lemma PairIsDetected()
    ensures Next(Pair(None, 0), Detect(1), Pair(Some(0), 1))
  {
    var heap := Pair(None, 0).world.heap;
    assert heap[1 := heap[1].(gate := Some(0))] == Pair(Some(0), 1).world.heap;
  }

  lemma ThreeSteps(a: State, b: State, c: State, d: State, x: Step, y: Step, z: Step)
    requires StateInv(a) && Next(a, x, b) && Next(b, y, c) && Next(c, z, d)
    ensures Run([a, b, c, d], [x, y, z])
  {
    hide Next, StateInv;
  }

  lemma TheGateIsLost()
    ensures Live(Pair(Some(0), 1), 1, GATED) && GateOf(Pair(Some(0), 1), 1) == Some(0)
    ensures Live(Rebuilt(), 2, EDITED) && GateOf(Rebuilt(), 2) == None
  {
    assert 1 in [0, 1] && 2 in [2];
  }

  /** From the empty registry: two backends of one engine are configured, the
      second in Auto mode gets a gate, and an edit rebuilds it alone. Its engine
      and mode are kept and its gate is lost, because the other backend of the
      engine came first and had none. */
  lemma ASecondBackendsGateIsLost() returns (states: seq<State>, steps: seq<Step>)
    ensures Run(states, steps)
    ensures states == [Empty(), Pair(None, 0), Pair(Some(0), 1), Rebuilt()]
    ensures steps == [Configure([Plain(UNGATED), Plain(GATED)]), Detect(1), Configure([Plain(EDITED)])]
    ensures !Refused(Pair(Some(0), 1).world, [0, 1], [Plain(EDITED)], Rebuilt().world.names)
    ensures Live(Pair(Some(0), 1), 1, GATED) && GateOf(Pair(Some(0), 1), 1) == Some(0)
    ensures Live(Rebuilt(), 2, EDITED) && EDITED.engine == GATED.engine && EDITED.mode == GATED.mode
    ensures GateOf(Rebuilt(), 2) == None
  {
    hide Next, StateInv, Refused, Run, Live, GateOf;
    PairIsConfigured();
    PairIsDetected();
    RebuiltIsConfigured();
    TheGateIsLost();
    ThreeSteps(Empty(), Pair(None, 0), Pair(Some(0), 1), Rebuilt(),
               Configure([Plain(UNGATED), Plain(GATED)]), Detect(1), Configure([Plain(EDITED)]));
    states := [Empty(), Pair(None, 0), Pair(Some(0), 1), Rebuilt()];
    steps := [Configure([Plain(UNGATED), Plain(GATED)]), Detect(1), Configure([Plain(EDITED)])];
  }
}
