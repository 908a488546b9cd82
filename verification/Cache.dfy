/**
 The response cache of src/cache.rs against a plain TTL map.

 The cache drops expired entries lazily, on the way past or when it is full,
 and keeps a running byte count. The plain map below never drops anything and
 counts nothing: it only remembers the last accepted entry per key.
 */
module Cache {
  import opened Common

  type Key = nat
  datatype Entry = Entry(contentType: Option<string>, body: string, expiresAt: int)
  type Entries = map<Key, Entry>

  const MAX_ENTRY_BYTES: nat := 512 * 1024

  datatype Budget = Budget(maxEntries: nat, maxBytes: nat)

  /** Bytes of all stored bodies. */
  ghost function Sum(m: Entries): nat {
    if m == map[] then 0 else
      var k :| k in m;
      |m[k].body| + Sum(m - {k})
  }

  function Live(m: Entries, now: int): Entries { map k | k in m && m[k].expiresAt > now :: m[k] }

  predicate Full(budget: Budget, count: nat, bytes: int, length: nat) {
    count >= budget.maxEntries || bytes + length > budget.maxBytes
  }

  // ----- the cache as it works ------------------------------------------

  datatype CacheState = CacheState(entries: Entries, bytes: int)

  ghost function Get(s: CacheState, key: Key, now: int): (CacheState, Option<Entry>) {
    if key !in s.entries then (s, None)
    else if s.entries[key].expiresAt > now then (s, Some(s.entries[key]))
    else (CacheState(s.entries - {key}, s.bytes - |s.entries[key].body|), None)
  }

  ghost function Insert(s: CacheState, key: Key, e: Entry): CacheState {
    CacheState(s.entries[key := e],
               s.bytes - (if key in s.entries then |s.entries[key].body| else 0) + |e.body|)
  }

  ghost function Purged(s: CacheState, now: int): CacheState {
    var live := Live(s.entries, now);
    CacheState(live, if |live| != |s.entries| then Sum(live) else s.bytes)
  }

  ghost function Put(s: CacheState, budget: Budget, key: Key, contentType: Option<string>, body: string, ttl: nat, now: int): CacheState {
    if |body| > MAX_ENTRY_BYTES || ttl == 0 then s else
      var e := Entry(contentType, body, now + ttl);
      if !Full(budget, |s.entries|, s.bytes, |body|) then Insert(s, key, e) else
        var purged := Purged(s, now);
        if Full(budget, |purged.entries|, purged.bytes, |body|) then purged else Insert(purged, key, e)
  }

  /** Whether a put keeps its entry. */
  ghost predicate Keeps(s: CacheState, budget: Budget, body: string, ttl: nat, now: int) {
    && |body| <= MAX_ENTRY_BYTES && ttl > 0
    && (!Full(budget, |s.entries|, s.bytes, |body|) ||
        !Full(budget, |Purged(s, now).entries|, Purged(s, now).bytes, |body|))
  }

  // ----- the plain map --------------------------------------------------

  function PlainGet(a: Entries, key: Key, now: int): Option<Entry> {
    if key in a && a[key].expiresAt > now then Some(a[key]) else None
  }

  /** A put is accepted if the entries unexpired at that instant leave room. */
  ghost predicate Accepts(a: Entries, budget: Budget, body: string, ttl: nat, now: int) {
    && |body| <= 524_288 && ttl > 0
    && |Live(a, now)| < budget.maxEntries && Sum(Live(a, now)) + |body| <= budget.maxBytes
  }

  ghost function PlainPut(a: Entries, budget: Budget, key: Key, contentType: Option<string>, body: string, ttl: nat, now: int): Entries {
    if Accepts(a, budget, body, ttl, now) then a[key := Entry(contentType, body, now + ttl)] else a
  }

  // ----- sums over maps -------------------------------------------------

  lemma EmptyWeighsNothing()
    ensures Sum(map[]) == 0
  {
  }

  lemma {:induction false} SumWithout(m: Entries, k: Key)
    requires k in m
    ensures Sum(m) == |m[k].body| + Sum(m - {k})
    decreases |m|
  {
    var j :| j in m && Sum(m) == |m[j].body| + Sum(m - {j});
    if j != k {
      SumWithout(m - {j}, k);
      SumWithout(m - {k}, j);
      assert m - {j} - {k} == m - {k} - {j};
    }
  }

  lemma SumAfterInsert(m: Entries, k: Key, e: Entry)
    ensures Sum(m[k := e]) == Sum(m) - (if k in m then |m[k].body| else 0) + |e.body|
  {
    SumWithout(m[k := e], k);
    if k in m {
      SumWithout(m, k);
      assert m[k := e] - {k} == m - {k};
    } else {
      assert m[k := e] - {k} == m;
    }
  }

  lemma OneFewer(m: Entries, k: Key)
    requires k in m
    ensures |m - {k}| == |m| - 1
  {
    assert (m - {k}).Keys == m.Keys - {k};
  }

  lemma SameRest(m: Entries, m': Entries, k: Key)
    requires k in m && k in m' && m[k] == m'[k] && m - {k} == m' - {k}
    ensures m == m'
  {
    assert m == (m - {k})[k := m[k]] && m' == (m' - {k})[k := m'[k]];
  }

  /** A map whose entries all come from a larger one counts and weighs no more. */
  lemma {:induction false} SmallerWeighsLess(m: Entries, m': Entries)
    requires forall k :: k in m ==> k in m' && m'[k] == m[k]
    ensures |m| <= |m'| && Sum(m) <= Sum(m')
    ensures |m| == |m'| ==> m == m'
    decreases |m'|
  {
    if m == map[] {
      assert m' == map[] <==> |m'| == 0;
    } else {
      var k :| k in m;
      SumWithout(m, k);
      SumWithout(m', k);
      OneFewer(m, k);
      OneFewer(m', k);
      hide Sum;
      SmallerWeighsLess(m - {k}, m' - {k});
      if |m| == |m'| {
        SameRest(m, m', k);
      }
    }
  }

  // ----- the account ----------------------------------------------------

  /** The byte count is right and both budgets hold, whatever the time. */
  ghost predicate Sound(s: CacheState, budget: Budget) {
    s.bytes == Sum(s.entries) <= budget.maxBytes && |s.entries| <= budget.maxEntries
  }

  lemma PurgeIsSound(s: CacheState, budget: Budget, now: int)
    requires Sound(s, budget)
    ensures Sound(Purged(s, now), budget)
  {
    SmallerWeighsLess(Live(s.entries, now), s.entries);
  }

  lemma InsertIsSound(s: CacheState, budget: Budget, key: Key, e: Entry)
    requires Sound(s, budget) && !Full(budget, |s.entries|, s.bytes, |e.body|)
    ensures Sound(Insert(s, key, e), budget)
  {
    SumAfterInsert(s.entries, key, e);
    assert s.entries[key := e].Keys == s.entries.Keys + {key};
    assert |s.entries[key := e]| <= |s.entries| + 1;
  }

  lemma PutIsSound(s: CacheState, budget: Budget, key: Key, contentType: Option<string>, body: string, ttl: nat, now: int)
    requires Sound(s, budget)
    ensures Sound(Put(s, budget, key, contentType, body, ttl, now), budget)
  {
    hide Sound, Insert, Purged;
    var e := Entry(contentType, body, now + ttl);
    if !Full(budget, |s.entries|, s.bytes, |body|) {
      InsertIsSound(s, budget, key, e);
    } else {
      PurgeIsSound(s, budget, now);
      if !Full(budget, |Purged(s, now).entries|, Purged(s, now).bytes, |body|) {
        InsertIsSound(Purged(s, now), budget, key, e);
      }
    }
  }

  lemma GetIsSound(s: CacheState, budget: Budget, key: Key, now: int)
    requires Sound(s, budget)
    ensures Sound(Get(s, key, now).0, budget)
  {
    if key in s.entries && s.entries[key].expiresAt <= now {
      SumWithout(s.entries, key);
      SmallerWeighsLess(s.entries - {key}, s.entries);
    }
  }

  // ----- the cache follows the plain map --------------------------------

  /** At time `now` the cache holds only accepted entries and every one of
      them that has not expired. */
  ghost predicate Follows(s: CacheState, a: Entries, budget: Budget, now: int) {
    && (forall k :: k in s.entries ==> k in a && s.entries[k] == a[k])
    && (forall k :: k in a && a[k].expiresAt > now ==> k in s.entries)
    && Sound(s, budget)
  }

  lemma SameLive(s: CacheState, a: Entries, budget: Budget, before: int, now: int)
    requires Follows(s, a, budget, before) && before <= now
    ensures Live(s.entries, now) == Live(a, now)
    ensures Follows(s, a, budget, now)
  {
  }

  lemma PurgeFollows(s: CacheState, a: Entries, budget: Budget, now: int)
    requires Follows(s, a, budget, now)
    ensures Follows(Purged(s, now), a, budget, now)
    ensures Purged(s, now).entries == Live(a, now) && Purged(s, now).bytes == Sum(Live(a, now))
  {
    SameLive(s, a, budget, now, now);
    PurgeIsSound(s, budget, now);
  }

  lemma InsertFollows(s: CacheState, a: Entries, budget: Budget, now: int, key: Key, e: Entry)
    requires Follows(s, a, budget, now) && !Full(budget, |s.entries|, s.bytes, |e.body|)
    ensures Follows(Insert(s, key, e), a[key := e], budget, now)
  {
    InsertIsSound(s, budget, key, e);
  }

  lemma PutFollows(s: CacheState, a: Entries, budget: Budget, before: int, key: Key, contentType: Option<string>, body: string, ttl: nat, now: int)
    requires Follows(s, a, budget, before) && before <= now
    ensures Follows(Put(s, budget, key, contentType, body, ttl, now), PlainPut(a, budget, key, contentType, body, ttl, now), budget, now)
    ensures Keeps(s, budget, body, ttl, now) <==> Accepts(a, budget, body, ttl, now)
  {
    SameLive(s, a, budget, before, now);
    SmallerWeighsLess(Live(a, now), s.entries);
    if |body| <= MAX_ENTRY_BYTES && ttl > 0 {
      var e := Entry(contentType, body, now + ttl);
      if !Full(budget, |s.entries|, s.bytes, |body|) {
        InsertFollows(s, a, budget, now, key, e);
      } else {
        PurgeFollows(s, a, budget, now);
        if Accepts(a, budget, body, ttl, now) {
          InsertFollows(Purged(s, now), a, budget, now, key, e);
        }
      }
    }
  }

  lemma GetFollows(s: CacheState, a: Entries, budget: Budget, before: int, key: Key, now: int)
    requires Follows(s, a, budget, before) && before <= now
    ensures Get(s, key, now).1 == PlainGet(a, key, now)
    ensures Follows(Get(s, key, now).0, a, budget, now)
  {
    GetIsSound(s, budget, key, now);
  }

  // ----- whole runs -----------------------------------------------------

  datatype Op =
    | OpGet(key: Key, now: int)
    | OpPut(key: Key, contentType: Option<string>, body: string, ttl: nat, now: int)
    | OpClear(now: int)

  ghost predicate InOrder(ops: seq<Op>) {
    forall i, j :: 0 <= i < j < |ops| ==> ops[i].now <= ops[j].now
  }

  ghost function CacheAfter(ops: seq<Op>, budget: Budget, n: nat): CacheState
    requires n <= |ops|
  {
    if n == 0 then CacheState(map[], 0) else
      var s := CacheAfter(ops, budget, n - 1);
      match ops[n - 1]
      case OpGet(key, now) => Get(s, key, now).0
      case OpPut(key, contentType, body, ttl, now) => Put(s, budget, key, contentType, body, ttl, now)
      case OpClear(_) => CacheState(map[], 0)
  }

  ghost function PlainAfter(ops: seq<Op>, budget: Budget, n: nat): Entries
    requires n <= |ops|
  {
    if n == 0 then map[] else
      var a := PlainAfter(ops, budget, n - 1);
      match ops[n - 1]
      case OpGet(_, _) => a
      case OpPut(key, contentType, body, ttl, now) => PlainPut(a, budget, key, contentType, body, ttl, now)
      case OpClear(_) => map[]
  }

  lemma {:induction false} FollowsThroughout(ops: seq<Op>, budget: Budget, n: nat, now: int)
    requires InOrder(ops) && n <= |ops| && forall i :: 0 <= i < n ==> ops[i].now <= now
    ensures Follows(CacheAfter(ops, budget, n), PlainAfter(ops, budget, n), budget, now)
  {
    if n > 0 {
      hide Get, Put, PlainPut, Sum;
      var op := ops[n - 1];
      FollowsThroughout(ops, budget, n - 1, op.now);
      var s, a := CacheAfter(ops, budget, n - 1), PlainAfter(ops, budget, n - 1);
      match op {
        case OpGet(key, at) => GetFollows(s, a, budget, at, key, at);
        case OpPut(key, contentType, body, ttl, at) => PutFollows(s, a, budget, at, key, contentType, body, ttl, at);
        case OpClear(_) => EmptyWeighsNothing();
      }
      SameLive(CacheAfter(ops, budget, n), PlainAfter(ops, budget, n), budget, op.now, now);
    }
  }

  /** Every `get` of every run answers what the plain map answers: the last
      accepted entry for the key if it has not expired, and nothing otherwise.
      So no unexpired entry is ever lost except to a replacement or a clear. */
  lemma {:induction false} GetsMatchThePlainMap(ops: seq<Op>, budget: Budget, n: nat)
    requires InOrder(ops) && n < |ops| && ops[n].OpGet?
    ensures Get(CacheAfter(ops, budget, n), ops[n].key, ops[n].now).1 ==
            PlainGet(PlainAfter(ops, budget, n), ops[n].key, ops[n].now)
  {
    FollowsThroughout(ops, budget, n, ops[n].now);
    GetFollows(CacheAfter(ops, budget, n), PlainAfter(ops, budget, n), budget, ops[n].now, ops[n].key, ops[n].now);
  }

  /** In every reachable state, instants in order or not, the byte count is the
      sum of the stored bodies and both budgets are respected. */
  lemma {:induction false} BudgetsHold(ops: seq<Op>, budget: Budget, n: nat)
    requires n <= |ops|
    ensures var s := CacheAfter(ops, budget, n);
            s.bytes == Sum(s.entries) <= budget.maxBytes && |s.entries| <= budget.maxEntries
  {
    if n > 0 {
      BudgetsHold(ops, budget, n - 1);
      hide Get, Put, Sum;
      var s := CacheAfter(ops, budget, n - 1);
      match ops[n - 1]
      case OpGet(key, now) => GetIsSound(s, budget, key, now);
      case OpPut(key, contentType, body, ttl, now) => PutIsSound(s, budget, key, contentType, body, ttl, now);
      case OpClear(_) => EmptyWeighsNothing();
    }
  }

  // ----- the object -----------------------------------------------------

  method SumBodies(m: Entries) returns (total: nat)
    ensures total == Sum(m)
  {
    total := 0;
    var rest := m;
    while rest != map[]
      invariant total + Sum(rest) == Sum(m)
      decreases |rest|
    {
      var k :| k in rest;
      SumWithout(rest, k);
      total := total + |rest[k].body|;
      rest := rest - {k};
    }
  }

  class ResponseCache {
    const budget: Budget
    var entries: Entries
    var bytes: int
    var hits: nat
    var misses: nat
    var stores: nat

    ghost function State(): CacheState
      reads this
    {
      CacheState(entries, bytes)
    }

    constructor (maxEntries: nat, maxBytes: nat)
      ensures budget == Budget(maxEntries, maxBytes) && State() == CacheState(map[], 0)
      ensures hits == misses == stores == 0
    {
      budget := Budget(maxEntries, maxBytes);
      entries, bytes := map[], 0;
      hits, misses, stores := 0, 0, 0;
    }

    method Lookup(key: Key, now: int) returns (hit: Option<Entry>)
      modifies this
      ensures (State(), hit) == Get(old(State()), key, now)
      ensures hits == old(hits) + (if hit.Some? then 1 else 0)
      ensures misses == old(misses) + (if hit.None? then 1 else 0) && stores == old(stores)
    {
      if key in entries && entries[key].expiresAt > now {
        hits := hits + 1;
        return Some(entries[key]);
      }
      if key in entries {
        bytes := bytes - |entries[key].body|;
        entries := entries - {key};
      }
      misses := misses + 1;
      return None;
    }

    method Store(key: Key, contentType: Option<string>, body: string, ttl: nat, now: int)
      modifies this
      ensures State() == Put(old(State()), budget, key, contentType, body, ttl, now)
      ensures hits == old(hits) && misses == old(misses)
      ensures stores == old(stores) + (if Keeps(old(State()), budget, body, ttl, now) then 1 else 0)
    {
      if |body| > MAX_ENTRY_BYTES || ttl == 0 {
        return;
      }
      if Full(budget, |entries|, bytes, |body|) {
        var before := |entries|;
        entries := Live(entries, now);
        if before != |entries| {
          bytes := SumBodies(entries);
        }
        if Full(budget, |entries|, bytes, |body|) {
          return;
        }
      }
      if key in entries {
        bytes := bytes - |entries[key].body|;
      }
      entries := entries[key := Entry(contentType, body, now + ttl)];
      bytes := bytes + |body|;
      stores := stores + 1;
    }

    method Clear()
      modifies this
      ensures State() == CacheState(map[], 0)
      ensures hits == old(hits) && misses == old(misses) && stores == old(stores)
    {
      entries := map[];
      bytes := 0;
    }
  }
}
