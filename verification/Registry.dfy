/**
 The backend registry of src/registry.rs across configuration reloads: the
 interner that names configurations, the build loop that carries live objects
 forward, and the admission gates a rebuilt backend adopts.

 An `Arc` is an identity, so objects and gates are numbers: `heap[o]` is the
 backend object `o`, and a gate is the number it was created under.
 */
module Registry {
  import opened Common
  import A = Admission

  type Uid = nat
  type ObjectId = nat
  type GateId = nat

  const U32_MAX: nat := 0xFFFF_FFFF

  datatype Engine = Engine(base: string, model: string, row: Option<nat>)
  datatype Mode = Off | Auto | Explicit(settings: A.Settings)

  /** The identity key: the engine, the gate mode, and every other field the
      key text spells out. Extra headers are not among them, nor is an unset
      `default_max_tokens` told from zero. */
  datatype Key = Key(engine: Engine, mode: Mode, rest: string)

  /** One configured backend. `headers` stands for what the key leaves out and
      `builds` is whether they parse. */
  datatype Entry = Entry(model: string, key: Key, headers: string, builds: bool)

  datatype Object = Object(uid: Uid, key: Key, headers: string, gate: Option<GateId>)
  datatype Names = Names(keys: map<Key, Uid>, next: nat)
  datatype World = World(names: Names, heap: seq<Object>, gates: nat)
  datatype Routes = Routes(pools: map<string, seq<ObjectId>>, all: seq<ObjectId>)
  datatype State = State(world: World, current: Routes)

  // ----- the interner ---------------------------------------------------

  function Interned(n: Names, key: Key): (Names, Option<Uid>) {
    if key in n.keys then (n, Some(n.keys[key]))
    else if n.next > U32_MAX then (n, None)
    else (Names(n.keys[key := n.next], n.next + 1), Some(n.next))
  }

  /** Different keys have different uids, all of them issued and 32 bits wide. */
  ghost predicate NamesInv(n: Names) {
    && n.next <= U32_MAX + 1
    && (forall k | k in n.keys :: n.keys[k] < n.next)
    && (forall j, k | j in n.keys && k in n.keys && n.keys[j] == n.keys[k] :: j == k)
  }

  /** No key ever changes its uid. */
  ghost predicate NamesGrow(n: Names, m: Names) {
    n.next <= m.next && forall k | k in n.keys :: k in m.keys && m.keys[k] == n.keys[k]
  }

  class Interner {
    var names: Names

    constructor ()
      ensures names == Names(map[], 0) && NamesInv(names)
    {
      names := Names(map[], 0);
    }

    /** A known key answers its uid; a new one takes the next, unless all
        2^32 are taken, when nothing changes. */
    method Intern(key: Key) returns (uid: Option<Uid>)
      requires NamesInv(names)
      modifies this
      ensures NamesInv(names) && NamesGrow(old(names), names) && (names, uid) == Interned(old(names), key)
      ensures uid.Some? ==> key in names.keys && names.keys[key] == uid.value <= U32_MAX
      ensures uid.None? <==> key !in old(names.keys) && old(names.next) > U32_MAX
    {
      if key in names.keys {
        return Some(names.keys[key]);
      }
      if names.next > U32_MAX {
        return None;
      }
      uid := Some(names.next);
      names := Names(names.keys[key := names.next], names.next + 1);
    }
  }

  // ----- one build ------------------------------------------------------

  datatype Pass = Pass(world: World, pools: map<string, seq<ObjectId>>, byUid: map<Uid, ObjectId>, failed: bool)

  ghost predicate InHeap(heap: seq<Object>, ids: seq<ObjectId>) {
    forall i :: 0 <= i < |ids| ==> ids[i] < |heap|
  }

  function Carried(heap: seq<Object>, all: seq<ObjectId>, uid: Uid): (r: Option<ObjectId>)
    requires InHeap(heap, all)
  {
    if all == [] then None
    else if heap[all[0]].uid == uid then Some(all[0])
    else Carried(heap, all[1..], uid)
  }

  /** The first backend of the previous generation serving this engine. */
  function Predecessor(heap: seq<Object>, all: seq<ObjectId>, engine: Engine): (r: Option<ObjectId>)
    requires InHeap(heap, all)
    ensures r.Some? ==> r.value in all && heap[r.value].key.engine == engine
    ensures r.None? ==> forall o | o in all :: heap[o].key.engine != engine
  {
    if all == [] then None
    else if heap[all[0]].key.engine == engine then Some(all[0])
    else
      assert forall o | o in all :: o == all[0] || o in all[1..];
      Predecessor(heap, all[1..], engine)
  }

  function AdoptedGate(heap: seq<Object>, all: seq<ObjectId>, key: Key, own: Option<GateId>): Option<GateId>
    requires InHeap(heap, all)
  {
    var p := Predecessor(heap, all, key.engine);
    if p.Some? && heap[p.value].key.mode == key.mode && heap[p.value].gate.Some? then heap[p.value].gate else own
  }

  /** A new object, with the gate its mode gives it or the one it adopts. */
  function Built(w: World, uid: Uid, e: Entry, all: seq<ObjectId>): World
    requires InHeap(w.heap, all)
  {
    var own := if e.key.mode.Explicit? then Some(w.gates) else None;
    World(w.names, w.heap + [Object(uid, e.key, e.headers, AdoptedGate(w.heap, all, e.key, own))],
          if own.Some? then w.gates + 1 else w.gates)
  }

  predicate Lists(heap: seq<Object>, pool: seq<ObjectId>, uid: Uid)
    requires InHeap(heap, pool)
  {
    exists o | o in pool :: heap[o].uid == uid
  }

  function PoolOf(pools: map<string, seq<ObjectId>>, model: string): seq<ObjectId> {
    if model in pools then pools[model] else []
  }

  function Enlisted(heap: seq<Object>, pools: map<string, seq<ObjectId>>, model: string, o: ObjectId): map<string, seq<ObjectId>>
    requires o < |heap| && InHeap(heap, PoolOf(pools, model))
  {
    var pool := PoolOf(pools, model);
    pools[model := if Lists(heap, pool, heap[o].uid) then pool else pool + [o]]
  }

  /** The object for a uid: this pass's, the previous generation's, or new. */
  function Obtained(p: Pass, uid: Uid, e: Entry, all: seq<ObjectId>): Pass
    requires InHeap(p.world.heap, all)
  {
    if uid in p.byUid then p
    else
      var carried := Carried(p.world.heap, all, uid);
      if carried.Some? then p.(byUid := p.byUid[uid := carried.value])
      else if !e.builds then p.(failed := true)
      else p.(world := Built(p.world, uid, e, all), byUid := p.byUid[uid := |p.world.heap|])
  }

  // ----- what a build keeps ---------------------------------------------

  /** Every object carries the uid its own key was given. */
  ghost predicate WorldInv(w: World) {
    && NamesInv(w.names)
    && (forall o :: 0 <= o < |w.heap| ==> w.heap[o].key in w.names.keys && w.names.keys[w.heap[o].key] == w.heap[o].uid)
    && (forall o :: 0 <= o < |w.heap| && w.heap[o].gate.Some? ==> w.heap[o].gate.value < w.gates)
  }

  /** Nothing issued is taken back: names, objects and gates only grow. */
  ghost predicate WorldGrows(w: World, v: World) {
    NamesGrow(w.names, v.names) && w.heap <= v.heap && w.gates <= v.gates
  }

  /** A generation lists its objects by increasing uid. */
  ghost predicate ByUid(heap: seq<Object>, all: seq<ObjectId>) {
    && InHeap(heap, all)
    && forall i, j :: 0 <= i < j < |all| ==> heap[all[i]].uid < heap[all[j]].uid
  }

  ghost predicate PoolInv(heap: seq<Object>, pool: seq<ObjectId>) {
    && InHeap(heap, pool)
    && forall i, j :: 0 <= i < j < |pool| ==> heap[pool[i]].uid != heap[pool[j]].uid
  }

  /** How an object of this pass came to be. */
  ghost predicate Provenance(start: World, all: seq<ObjectId>, w: World, o: ObjectId)
    requires InHeap(start.heap, all) && o < |w.heap|
  {
    if o < |start.heap| then o in all
    else
      && (forall c | c in all :: start.heap[c].uid != w.heap[o].uid)
      && var own := AdoptedGate(start.heap, all, w.heap[o].key, None);
         if own.Some? then w.heap[o].gate == own
         else
           && (w.heap[o].gate.Some? <==> w.heap[o].key.mode.Explicit?)
           && (w.heap[o].gate.Some? ==> w.heap[o].gate.value >= start.gates)
  }

  ghost predicate TableInv(p: Pass, start: World, all: seq<ObjectId>)
    requires InHeap(start.heap, all)
  {
    forall u | u in p.byUid ::
      p.byUid[u] < |p.world.heap| && p.world.heap[p.byUid[u]].uid == u < p.world.names.next && Provenance(start, all, p.world, p.byUid[u])
  }

  ghost predicate PoolsInv(p: Pass) {
    forall m | m in p.pools ::
      PoolInv(p.world.heap, p.pools[m]) && forall o | o in p.pools[m] :: o in p.byUid.Values
  }

  ghost predicate PassInv(p: Pass, start: World, all: seq<ObjectId>) {
    && ByUid(start.heap, all) && WorldInv(p.world) && WorldGrows(start, p.world)
    && TableInv(p, start, all) && PoolsInv(p)
  }

  lemma {:induction false} CarriedIsTheOne(heap: seq<Object>, all: seq<ObjectId>, uid: Uid)
    requires InHeap(heap, all)
    ensures var c := Carried(heap, all, uid);
            && (c.Some? ==> c.value in all && heap[c.value].uid == uid)
            && (c.None? ==> forall o | o in all :: heap[o].uid != uid)
  {
    if all != [] {
      assert forall o | o in all :: o == all[0] || o in all[1..];
      CarriedIsTheOne(heap, all[1..], uid);
    }
  }

  lemma {:induction false} PredecessorStays(heap: seq<Object>, more: seq<Object>, all: seq<ObjectId>, engine: Engine)
    requires InHeap(heap, all) && heap <= more
    ensures Predecessor(more, all, engine) == Predecessor(heap, all, engine)
  {
    if all != [] {
      PredecessorStays(heap, more, all[1..], engine);
    }
  }

  lemma InternKeeps(w: World, key: Key)
    requires WorldInv(w)
    ensures var (n, uid) := Interned(w.names, key);
            && WorldInv(w.(names := n)) && WorldGrows(w, w.(names := n))
            && (uid.Some? ==> key in n.keys && n.keys[key] == uid.value < n.next)
  {
  }

  lemma BuiltKeeps(start: World, w: World, uid: Uid, e: Entry, all: seq<ObjectId>)
    requires WorldInv(w) && WorldGrows(start, w) && InHeap(start.heap, all)
    requires e.key in w.names.keys && w.names.keys[e.key] == uid
    requires forall c | c in all :: start.heap[c].uid != uid
    ensures InHeap(w.heap, all)
    ensures var v := Built(w, uid, e, all);
            WorldInv(v) && WorldGrows(w, v) && Provenance(start, all, v, |w.heap|) && v.heap[|w.heap|].uid == uid
  {
    PredecessorStays(start.heap, w.heap, all, e.key.engine);
  }

  lemma ProvenanceStays(start: World, all: seq<ObjectId>, w: World, v: World, o: ObjectId)
    requires InHeap(start.heap, all) && o < |w.heap| && Provenance(start, all, w, o) && WorldGrows(w, v)
    ensures Provenance(start, all, v, o)
  {
  }

  lemma PassGrows(p: Pass, v: World, start: World, all: seq<ObjectId>)
    requires PassInv(p, start, all) && WorldInv(v) && WorldGrows(p.world, v)
    ensures PassInv(p.(world := v), start, all)
  {
    forall u | u in p.byUid
      ensures p.byUid[u] < |v.heap| && v.heap[p.byUid[u]].uid == u < v.names.next && Provenance(start, all, v, p.byUid[u])
    {
      ProvenanceStays(start, all, p.world, v, p.byUid[u]);
    }
  }

  lemma ObtainKeeps(p: Pass, uid: Uid, e: Entry, start: World, all: seq<ObjectId>)
    requires PassInv(p, start, all) && e.key in p.world.names.keys && p.world.names.keys[e.key] == uid
    ensures InHeap(p.world.heap, all)
    ensures var q := Obtained(p, uid, e, all);
            && PassInv(q, start, all) && WorldGrows(p.world, q.world) && q.pools == p.pools
            && (!q.failed ==> uid in q.byUid)
            && q.world.names == p.world.names
            && (forall u | u in p.byUid :: u in q.byUid && q.byUid[u] == p.byUid[u])
            && (forall u | u in q.byUid :: u in p.byUid || u == uid)
            && (uid !in p.byUid && uid in q.byUid && q.byUid[uid] >= |start.heap| ==> q.world.heap[q.byUid[uid]].headers == e.headers)
  {
    if uid !in p.byUid {
      CarriedIsTheOne(p.world.heap, all, uid);
      var carried := Carried(p.world.heap, all, uid);
      if carried.Some? {
        TableGrows(p, uid, carried.value, start, all);
      } else if e.builds {
        BuiltKeeps(start, p.world, uid, e, all);
        var v := Built(p.world, uid, e, all);
        PassGrows(p, v, start, all);
        TableGrows(p.(world := v), uid, |p.world.heap|, start, all);
      }
    }
  }

  lemma TableGrows(p: Pass, uid: Uid, o: ObjectId, start: World, all: seq<ObjectId>)
    requires PassInv(p, start, all) && uid !in p.byUid && uid < p.world.names.next
    requires o < |p.world.heap| && p.world.heap[o].uid == uid && Provenance(start, all, p.world, o)
    ensures PassInv(p.(byUid := p.byUid[uid := o]), start, all)
  {
    var q := p.(byUid := p.byUid[uid := o]);
    forall m, x | m in p.pools && x in p.pools[m]
      ensures x in q.byUid.Values
    {
      var u :| u in p.byUid && p.byUid[u] == x;
      assert u in q.byUid && q.byUid[u] == x;
    }
  }

  /** Within a pass a uid names one object, so a pool that lists the uid lists it. */
  lemma ListedIsIt(p: Pass, start: World, all: seq<ObjectId>, m: string, uid: Uid, x: ObjectId)
    requires InHeap(start.heap, all) && TableInv(p, start, all) && PoolsInv(p) && m in p.pools && x in p.pools[m]
    requires x < |p.world.heap| && p.world.heap[x].uid == uid && uid in p.byUid
    ensures x == p.byUid[uid]
  {
    var u :| u in p.byUid && p.byUid[u] == x;
  }

  lemma EnlistKeeps(p: Pass, model: string, uid: Uid, start: World, all: seq<ObjectId>)
    requires PassInv(p, start, all) && uid in p.byUid
    ensures InHeap(p.world.heap, PoolOf(p.pools, model)) && p.byUid[uid] < |p.world.heap|
    ensures var o := p.byUid[uid]; var pools := Enlisted(p.world.heap, p.pools, model, o);
            && PassInv(p.(pools := pools), start, all)
            && (forall m | m in p.pools && m != model :: pools[m] == p.pools[m])
            && (forall x :: x in pools[model] <==> x in PoolOf(p.pools, model) || x == o)
  {
    hide Provenance, WorldInv;
    var o, pool := p.byUid[uid], PoolOf(p.pools, model);
    assert o in p.byUid.Values;
    forall x | x in pool && p.world.heap[x].uid == uid
      ensures x == o
    {
      ListedIsIt(p, start, all, model, uid, x);
    }
  }
}
