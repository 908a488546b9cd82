/**
 `build_from_entries_with_policies` (src/registry.rs) and what holds over any
 sequence of reloads.
 */
module Reload {
  import opened Common
  import opened Registry
  import Ordering

  // ----- what a generation must be --------------------------------------

  /** The keys configured for a model, each once, in order of first mention. */
  ghost function Mentioned(entries: seq<Entry>, model: string): seq<Key> {
    if entries == [] then [] else
      var e, rest := entries[|entries| - 1], Mentioned(entries[..|entries| - 1], model);
      if e.model == model && e.key !in rest then rest + [e.key] else rest
  }

  ghost function KeysOf(heap: seq<Object>, ids: seq<ObjectId>): (keys: seq<Key>)
    requires InHeap(heap, ids)
    ensures |keys| == |ids|
    ensures forall i :: 0 <= i < |ids| ==> keys[i] == heap[ids[i]].key
  {
    seq(|ids|, i requires 0 <= i < |ids| => heap[ids[i]].key)
  }

  ghost predicate Configured(entries: seq<Entry>, key: Key) {
    exists e | e in entries :: e.key == key
  }

  /** The headers of the first entry with this key. */
  ghost function FirstHeaders(entries: seq<Entry>, key: Key): string {
    if entries == [] then ""
    else if entries[0].key == key then entries[0].headers
    else FirstHeaders(entries[1..], key)
  }

  ghost predicate Serves(heap: seq<Object>, all: seq<ObjectId>, key: Key)
    requires InHeap(heap, all)
  {
    exists o | o in all :: heap[o].key == key
  }

  /** The generation a reload must produce: exactly the configured keys, in uid
      order, each the previous object if there was one and built from its first
      entry otherwise; every pool exactly the model's backends. */
  ghost predicate Generation(start: World, previous: seq<ObjectId>, entries: seq<Entry>, w: World, r: Routes)
    requires InHeap(start.heap, previous)
  {
    && ByUid(w.heap, r.all)
    && (forall key :: Serves(w.heap, r.all, key) <==> Configured(entries, key))
    && (forall o | o in r.all :: Provenance(start, previous, w, o))
    && (forall o | o in r.all && o >= |start.heap| :: w.heap[o].headers == FirstHeaders(entries, w.heap[o].key))
    && (forall m | m in r.pools ::
          && InHeap(w.heap, r.pools[m])
          && KeysOf(w.heap, r.pools[m]) == Mentioned(entries, m)
          && forall o | o in r.pools[m] :: o in r.all)
    && (forall e | e in entries :: e.model in r.pools)
  }

  // ----- the build loop -------------------------------------------------

  /** After the first entries: the table holds their keys, the pools their mentions. */
  ghost predicate Progress(p: Pass, done: seq<Entry>) {
    && (forall u | u in p.byUid :: p.byUid[u] < |p.world.heap| && Configured(done, p.world.heap[p.byUid[u]].key))
    && (forall e | e in done :: e.key in p.world.names.keys && p.world.names.keys[e.key] in p.byUid && e.model in p.pools)
    && (forall m | m in p.pools :: InHeap(p.world.heap, p.pools[m]) && KeysOf(p.world.heap, p.pools[m]) == Mentioned(done, m))
    && (forall m | m !in p.pools :: Mentioned(done, m) == [])
  }

  lemma MentionedAppended(done: seq<Entry>, e: Entry, model: string)
    ensures Mentioned(done + [e], model) ==
            if e.model == model && e.key !in Mentioned(done, model) then Mentioned(done, model) + [e.key] else Mentioned(done, model)
  {
    assert (done + [e])[..|done|] == done;
  }

  lemma KeysStay(heap: seq<Object>, more: seq<Object>, ids: seq<ObjectId>)
    requires InHeap(heap, ids) && heap <= more
    ensures InHeap(more, ids) && KeysOf(more, ids) == KeysOf(heap, ids)
  {
  }

  /** The table after obtaining an entry's object holds the keys so far and its own. */
  lemma ObtainTable(p: Pass, q: Pass, done: seq<Entry>, e: Entry, u: Uid)
    requires Progress(p, done) && WorldInv(q.world) && p.world.heap <= q.world.heap
    requires e.key in q.world.names.keys && u in q.byUid
    requires q.byUid[u] < |q.world.heap| && q.world.heap[q.byUid[u]].uid == u
    requires u == q.world.names.keys[e.key] || (u in p.byUid && q.byUid[u] == p.byUid[u])
    ensures Configured(done + [e], q.world.heap[q.byUid[u]].key)
  {
    if u == q.world.names.keys[e.key] {
      assert e in done + [e] && q.world.heap[q.byUid[u]].key == e.key;
    } else {
      var x :| x in done && x.key == p.world.heap[p.byUid[u]].key;
      assert x in done + [e];
    }
  }

  lemma ObtainProgress(p: Pass, q: Pass, done: seq<Entry>, e: Entry, start: World, all: seq<ObjectId>)
    requires Progress(p, done) && PassInv(q, start, all)
    requires WorldGrows(p.world, q.world) && q.pools == p.pools
    requires e.key in q.world.names.keys && q.world.names.keys[e.key] in q.byUid
    requires forall u | u in p.byUid :: u in q.byUid && q.byUid[u] == p.byUid[u]
    requires forall u | u in q.byUid :: u in p.byUid || u == q.world.names.keys[e.key]
    ensures forall u | u in q.byUid :: q.byUid[u] < |q.world.heap| && Configured(done + [e], q.world.heap[q.byUid[u]].key)
    ensures forall x | x in done + [e] :: x.key in q.world.names.keys && q.world.names.keys[x.key] in q.byUid
  {
    hide Provenance, PoolsInv, ByUid, WorldInv, Configured, Mentioned, KeysOf;
    forall u | u in q.byUid
      ensures q.byUid[u] < |q.world.heap| && Configured(done + [e], q.world.heap[q.byUid[u]].key)
    {
      ObtainTable(p, q, done, e, u);
    }
  }

  /** Growing the heap leaves the pools so far alone. */
  lemma PoolsStay(p: Pass, more: seq<Object>, done: seq<Entry>)
    requires Progress(p, done) && p.world.heap <= more
    ensures forall m | m in p.pools :: InHeap(more, p.pools[m]) && KeysOf(more, p.pools[m]) == Mentioned(done, m)
  {
    forall m | m in p.pools
      ensures InHeap(more, p.pools[m]) && KeysOf(more, p.pools[m]) == Mentioned(done, m)
    {
      KeysStay(p.world.heap, more, p.pools[m]);
    }
  }

  lemma UidIsKey(w: World, a: ObjectId, b: ObjectId)
    requires WorldInv(w) && a < |w.heap| && b < |w.heap|
    ensures w.heap[a].uid == w.heap[b].uid <==> w.heap[a].key == w.heap[b].key
  {
  }

  /** Enlisting appends the key exactly when the pool has not mentioned it. */
  lemma EnlistProgress(w: World, pools: map<string, seq<ObjectId>>, done: seq<Entry>, e: Entry, o: ObjectId)
    requires WorldInv(w) && o < |w.heap| && w.heap[o].key == e.key
    requires InHeap(w.heap, PoolOf(pools, e.model)) && KeysOf(w.heap, PoolOf(pools, e.model)) == Mentioned(done, e.model)
    ensures var pool := Enlisted(w.heap, pools, e.model, o)[e.model];
            InHeap(w.heap, pool) && KeysOf(w.heap, pool) == Mentioned(done + [e], e.model)
  {
    var pool := PoolOf(pools, e.model);
    MentionedAppended(done, e, e.model);
    assert Lists(w.heap, pool, w.heap[o].uid) <==> e.key in KeysOf(w.heap, pool) by {
      forall i | 0 <= i < |pool|
        ensures w.heap[pool[i]].uid == w.heap[o].uid <==> KeysOf(w.heap, pool)[i] == e.key
      {
        UidIsKey(w, pool[i], o);
      }
    }
    assert KeysOf(w.heap, pool + [o]) == KeysOf(w.heap, pool) + [e.key];
  }

  /** `by_uid.into_values()`, sorted by uid. */
  method UidOrder(byUid: map<Uid, ObjectId>) returns (uids: seq<Uid>)
    ensures forall i, j :: 0 <= i < j < |uids| ==> uids[i] < uids[j]
    ensures forall u :: u in uids <==> u in byUid
  {
    var listed := Ordering.Listed(byUid.Keys);
    uids := Ordering.Sort(listed, (a: Uid, b: Uid) => a <= b);
    forall u
      ensures u in uids <==> u in byUid
    {
      assert u in multiset(uids) <==> u in multiset(byUid.Keys);
    }
    assert forall u :: multiset(byUid.Keys)[u] <= 1;
    forall i, j | 0 <= i < j < |uids|
      ensures uids[i] < uids[j]
    {
      if uids[i] == uids[j] {
        TwiceIsTwo(uids, i, j);
      }
    }
  }

  lemma TwiceIsTwo(s: seq<Uid>, i: nat, j: nat)
    requires i < j < |s| && s[i] == s[j]
    ensures multiset(s)[s[i]] >= 2
  {
    assert s == s[..j] + s[j..];
    assert s[i] in s[..j] && s[j] in s[j..];
  }

  /** Every object built in this pass has its first entry's headers. */
  ghost predicate HeadersFrom(p: Pass, start: World, done: seq<Entry>) {
    forall u | u in p.byUid :: |start.heap| <= p.byUid[u] < |p.world.heap| ==>
      p.world.heap[p.byUid[u]].headers == FirstHeaders(done, p.world.heap[p.byUid[u]].key)
  }

  lemma {:induction false} FirstHeadersAppended(done: seq<Entry>, e: Entry, key: Key)
    ensures FirstHeaders(done + [e], key) ==
            if Configured(done, key) then FirstHeaders(done, key) else if e.key == key then e.headers else ""
  {
    if done == [] {
      assert done + [e] == [e];
    } else {
      assert (done + [e])[1..] == done[1..] + [e];
      assert forall x | x in done :: x == done[0] || x in done[1..];
      FirstHeadersAppended(done[1..], e, key);
    }
  }

  lemma HeadersProgress(p: Pass, q: Pass, start: World, done: seq<Entry>, e: Entry)
    requires Progress(p, done) && HeadersFrom(p, start, done)
    requires WorldInv(q.world) && WorldGrows(p.world, q.world) && e.key in q.world.names.keys
    requires forall u | u in p.byUid :: u in q.byUid && q.byUid[u] == p.byUid[u]
    requires forall u | u in q.byUid :: u in p.byUid || u == q.world.names.keys[e.key]
    requires forall u | u in q.byUid :: q.byUid[u] < |q.world.heap| && q.world.heap[q.byUid[u]].uid == u
    requires var u := q.world.names.keys[e.key];
             u !in p.byUid && u in q.byUid && q.byUid[u] >= |start.heap| ==> q.world.heap[q.byUid[u]].headers == e.headers
    ensures HeadersFrom(q, start, done + [e])
  {
    hide KeysOf, Mentioned, FirstHeaders, WorldInv;
    forall u | u in q.byUid && |start.heap| <= q.byUid[u] < |q.world.heap|
      ensures q.world.heap[q.byUid[u]].headers == FirstHeaders(done + [e], q.world.heap[q.byUid[u]].key)
    {
      FirstHeadersAppended(done, e, q.world.heap[q.byUid[u]].key);
      if u !in p.byUid {
        OwnKey(q.world, q.byUid[u], e.key);
        assert Configured(done, e.key) ==> u in p.byUid;
      }
    }
  }

  lemma OwnKey(w: World, o: ObjectId, key: Key)
    requires WorldInv(w) && o < |w.heap| && key in w.names.keys && w.heap[o].uid == w.names.keys[key]
    ensures w.heap[o].key == key
  {
  }

  /** One whole turn of the loop. */
  lemma EnlistedProgress(p: Pass, q: Pass, done: seq<Entry>, e: Entry, start: World, all: seq<ObjectId>)
    requires Progress(p, done) && PassInv(q, start, all) && WorldGrows(p.world, q.world) && q.pools == p.pools
    requires e.key in q.world.names.keys && q.world.names.keys[e.key] in q.byUid
    requires forall u | u in p.byUid :: u in q.byUid && q.byUid[u] == p.byUid[u]
    requires forall u | u in q.byUid :: u in p.byUid || u == q.world.names.keys[e.key]
    ensures var o := q.byUid[q.world.names.keys[e.key]];
            && o < |q.world.heap| && InHeap(q.world.heap, PoolOf(q.pools, e.model))
            && Progress(q.(pools := Enlisted(q.world.heap, q.pools, e.model, o)), done + [e])
  {
    hide Provenance, PoolsInv, ByUid, WorldInv, Configured, Mentioned, Enlisted, KeysOf;
    var o := q.byUid[q.world.names.keys[e.key]];
    ObtainProgress(p, q, done, e, start, all);
    PoolsStay(p, q.world.heap, done);
    OwnKey(q.world, o, e.key);
    assert KeysOf(q.world.heap, PoolOf(q.pools, e.model)) == Mentioned(done, e.model);
    EnlistProgress(q.world, q.pools, done, e, o);
    OthersUntouched(q.world.heap, q.pools, e.model, o);
    forall m
      ensures m != e.model ==> Mentioned(done + [e], m) == Mentioned(done, m)
    {
      MentionedAppended(done, e, m);
    }
  }

  lemma OthersUntouched(heap: seq<Object>, pools: map<string, seq<ObjectId>>, model: string, o: ObjectId)
    requires o < |heap| && InHeap(heap, PoolOf(pools, model))
    ensures var after := Enlisted(heap, pools, model, o);
            && (forall m :: m in after <==> m in pools || m == model)
            && (forall m | m in pools && m != model :: after[m] == pools[m])
  {
  }

  /** The listing by uid holds exactly the objects of the table. */
  lemma ListingIsTable(p: Pass, start: World, previous: seq<ObjectId>, uids: seq<Uid>, all: seq<ObjectId>)
    requires PassInv(p, start, previous)
    requires forall i, j :: 0 <= i < j < |uids| ==> uids[i] < uids[j]
    requires forall u :: u in uids <==> u in p.byUid
    requires |all| == |uids| && forall i :: 0 <= i < |all| ==> uids[i] in p.byUid && all[i] == p.byUid[uids[i]]
    ensures ByUid(p.world.heap, all)
    ensures forall u | u in p.byUid :: p.byUid[u] in all
    ensures forall o | o in all :: p.world.heap[o].uid in p.byUid && p.byUid[p.world.heap[o].uid] == o
  {
    hide Provenance, PoolsInv, WorldInv;
    forall u | u in p.byUid
      ensures p.byUid[u] in all
    {
      var i :| 0 <= i < |uids| && uids[i] == u;
      assert all[i] == p.byUid[u];
    }
  }

  lemma ServesConfigured(p: Pass, entries: seq<Entry>, all: seq<ObjectId>, key: Key)
    requires WorldInv(p.world) && Progress(p, entries) && InHeap(p.world.heap, all)
    requires forall u | u in p.byUid :: p.byUid[u] in all && p.byUid[u] < |p.world.heap| && p.world.heap[p.byUid[u]].uid == u
    requires forall o | o in all :: p.world.heap[o].uid in p.byUid && p.byUid[p.world.heap[o].uid] == o
    ensures Serves(p.world.heap, all, key) <==> Configured(entries, key)
  {
    hide KeysOf, Mentioned;
    if Configured(entries, key) {
      OwnKey(p.world, p.byUid[p.world.names.keys[key]], key);
    }
  }

  lemma PoolsAreListed(p: Pass, all: seq<ObjectId>)
    requires PoolsInv(p) && forall u | u in p.byUid :: p.byUid[u] in all
    ensures forall m | m in p.pools :: forall o | o in p.pools[m] :: o in all
  {
  }

  lemma FinishedIsGeneration(p: Pass, entries: seq<Entry>, start: World, previous: seq<ObjectId>, uids: seq<Uid>, all: seq<ObjectId>)
    requires PassInv(p, start, previous) && Progress(p, entries) && HeadersFrom(p, start, entries)
    requires forall i, j :: 0 <= i < j < |uids| ==> uids[i] < uids[j]
    requires forall u :: u in uids <==> u in p.byUid
    requires |all| == |uids| && forall i :: 0 <= i < |all| ==> uids[i] in p.byUid && all[i] == p.byUid[uids[i]]
    ensures Generation(start, previous, entries, p.world, Routes(p.pools, all))
  {
    hide Provenance, FirstHeaders, KeysOf, Mentioned, WorldInv, PoolsInv, Serves, Configured;
    ListingIsTable(p, start, previous, uids, all);
    PoolsAreListed(p, all);
    forall key
      ensures Serves(p.world.heap, all, key) <==> Configured(entries, key)
    {
      ServesConfigured(p, entries, all, key);
    }
  }

  /** An entry that needs a new object and cannot have one. */
  ghost predicate Unbuildable(start: World, previous: seq<ObjectId>, entries: seq<Entry>, k: nat)
    requires InHeap(start.heap, previous) && k < |entries|
  {
    && !entries[k].builds && !Serves(start.heap, previous, entries[k].key)
    && !Configured(entries[..k], entries[k].key)
  }

  lemma FailsWhenUnbuildable(p: Pass, uid: Uid, start: World, previous: seq<ObjectId>, entries: seq<Entry>, k: nat)
    requires k < |entries| && PassInv(p, start, previous) && Progress(p, entries[..k]) && !p.failed
    requires entries[k].key in p.world.names.keys && p.world.names.keys[entries[k].key] == uid
    ensures InHeap(p.world.heap, previous)
    ensures Obtained(p, uid, entries[k], previous).failed <==> Unbuildable(start, previous, entries, k)
  {
    hide Provenance, KeysOf, Mentioned, PoolsInv;
    var key := entries[k].key;
    assert InHeap(p.world.heap, previous);
    CarriedIsTheOne(p.world.heap, previous, uid);
    assert uid in p.byUid <==> Configured(entries[..k], key) by {
      if uid in p.byUid {
        OwnKey(p.world, p.byUid[uid], key);
      }
    }
    assert Carried(p.world.heap, previous, uid).Some? <==> Serves(start.heap, previous, key) by {
      forall o | o in previous
        ensures p.world.heap[o] == start.heap[o] && (start.heap[o].uid == uid <==> start.heap[o].key == key)
      {
      }
    }
  }

  lemma StartsEmpty(p: Pass, start: World, previous: seq<ObjectId>, entries: seq<Entry>)
    requires p == Pass(start, map[], map[], false) && WorldInv(start) && ByUid(start.heap, previous)
    ensures PassInv(p, start, previous) && Progress(p, entries[..0]) && HeadersFrom(p, start, entries[..0])
  {
  }

  /** One entry, from interning to its pool. */
  lemma EntryDone(p: Pass, w: World, uid: Uid, start: World, previous: seq<ObjectId>, entries: seq<Entry>, k: nat)
    requires k < |entries| && PassInv(p, start, previous) && Progress(p, entries[..k]) && HeadersFrom(p, start, entries[..k])
    requires !p.failed && (w.names, Some(uid)) == Interned(p.world.names, entries[k].key) && w == p.world.(names := w.names)
    ensures InHeap(w.heap, previous)
    ensures var q := Obtained(p.(world := w), uid, entries[k], previous);
            && (q.failed <==> Unbuildable(start, previous, entries, k))
            && q.world.names == w.names && PassInv(q, start, previous) && WorldGrows(p.world, q.world)
            && (!q.failed ==>
                  && uid in q.byUid && q.byUid[uid] < |q.world.heap| && InHeap(q.world.heap, PoolOf(q.pools, entries[k].model))
                  && var r := q.(pools := Enlisted(q.world.heap, q.pools, entries[k].model, q.byUid[uid]));
                  && PassInv(r, start, previous) && Progress(r, entries[..k + 1]) && HeadersFrom(r, start, entries[..k + 1]))
  {
    hide Provenance, KeysOf, Mentioned, PoolsInv, TableInv, ByUid, Obtained, Enlisted, Configured, Unbuildable, Progress, HeadersFrom;
    var e := entries[k];
    InternKeeps(p.world, e.key);
    PassGrows(p, w, start, previous);
    NamedProgress(p, w, entries[..k]);
    FailsWhenUnbuildable(p.(world := w), uid, start, previous, entries, k);
    ObtainKeeps(p.(world := w), uid, e, start, previous);
    var q := Obtained(p.(world := w), uid, e, previous);
    if !q.failed {
      EnlistKeeps(q, e.model, uid, start, previous);
      assert entries[..k + 1] == entries[..k] + [e];
      EnlistedProgress(p.(world := w), q, entries[..k], e, start, previous);
      TableIsOwn(q, start, previous);
      NamedHeaders(p, w, start, entries[..k]);
      HeadersProgress(p.(world := w), q, start, entries[..k], e);
      PoolsDoNotMatter(q, Enlisted(q.world.heap, q.pools, e.model, q.byUid[uid]), start, entries[..k + 1]);
    }
  }

  lemma NamedProgress(p: Pass, w: World, done: seq<Entry>)
    requires Progress(p, done) && w.heap == p.world.heap && NamesGrow(p.world.names, w.names)
    ensures Progress(p.(world := w), done)
  {
  }

  lemma NamedHeaders(p: Pass, w: World, start: World, done: seq<Entry>)
    requires HeadersFrom(p, start, done) && w.heap == p.world.heap
    ensures HeadersFrom(p.(world := w), start, done)
  {
  }

  lemma PoolsDoNotMatter(p: Pass, pools: map<string, seq<ObjectId>>, start: World, done: seq<Entry>)
    requires HeadersFrom(p, start, done)
    ensures HeadersFrom(p.(pools := pools), start, done)
  {
  }

  lemma TableIsOwn(p: Pass, start: World, previous: seq<ObjectId>)
    requires PassInv(p, start, previous)
    ensures forall u | u in p.byUid :: p.byUid[u] < |p.world.heap| && p.world.heap[p.byUid[u]].uid == u
  {
  }

  /** Whether a reload cannot be completed: an entry needs an object its headers
      do not allow, or the process has run out of uids. */
  ghost predicate Refused(start: World, previous: seq<ObjectId>, entries: seq<Entry>, names: Names)
    requires InHeap(start.heap, previous)
  {
    || (exists k :: 0 <= k < |entries| && Unbuildable(start, previous, entries, k))
    || (names.next > U32_MAX && exists e | e in entries :: e.key !in names.keys)
  }

  lemma CompletedIsNotRefused(p: Pass, start: World, previous: seq<ObjectId>, entries: seq<Entry>)
    requires InHeap(start.heap, previous) && Progress(p, entries)
    requires forall k :: 0 <= k < |entries| ==> !Unbuildable(start, previous, entries, k)
    ensures !Refused(start, previous, entries, p.world.names)
  {
  }

  /** A reload either fails, with nothing but new names to show for it, or
      yields the generation the entries call for. */
  method Build(entries: seq<Entry>, interner: Interner, heap: seq<Object>, gates: nat, previous: seq<ObjectId>)
      returns (world: World, routes: Option<Routes>)
    requires WorldInv(World(interner.names, heap, gates)) && ByUid(heap, previous)
    modifies interner
    ensures var start := old(World(interner.names, heap, gates));
            && world.names == interner.names && WorldInv(world) && WorldGrows(start, world)
            && (routes.Some? ==> Generation(start, previous, entries, world, routes.value))
            && (routes.None? <==> Refused(start, previous, entries, world.names))
  {
    hide Provenance, KeysOf, Mentioned, PoolsInv, TableInv, Obtained, Enlisted, Configured, Unbuildable, Progress, HeadersFrom, Generation;
    ghost var start := World(interner.names, heap, gates);
    var p := Pass(World(interner.names, heap, gates), map[], map[], false);
    StartsEmpty(p, start, previous, entries);
    for k := 0 to |entries|
      invariant !p.failed && p.world.names == interner.names
      invariant PassInv(p, start, previous) && Progress(p, entries[..k]) && HeadersFrom(p, start, entries[..k])
      invariant forall i :: 0 <= i < k ==> !Unbuildable(start, previous, entries, i)
    {
      var uid := interner.Intern(entries[k].key);
      if uid.None? {
        return p.world, None;
      }
      var w := p.world.(names := interner.names);
      EntryDone(p, w, uid.value, start, previous, entries, k);
      p := Obtained(p.(world := w), uid.value, entries[k], previous);
      if p.failed {
        return p.world, None;
      }
      p := p.(pools := Enlisted(p.world.heap, p.pools, entries[k].model, p.byUid[uid.value]));
    }
    assert entries[..|entries|] == entries;
    CompletedIsNotRefused(p, start, previous, entries);
    var uids := UidOrder(p.byUid);
    var all := seq(|uids|, i requires 0 <= i < |uids| => assert uids[i] in uids; p.byUid[uids[i]]);
    FinishedIsGeneration(p, entries, start, previous, uids, all);
    return p.world, Some(Routes(p.pools, all));
  }
}
