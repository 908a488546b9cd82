/**
 The control plane's tally (src/health_report.rs): what the nested loops
 compute for every backend, and what a contradiction means.

 A vote is a pair of a replica and a position in its report's backend list.
 */
module FleetVerdict {
  import opened Common
  import opened Ordering
  import FleetProtocol

  datatype Key = Key(apiBase: string, model: string)
  datatype BackendReport = BackendReport(key: Key, healthy: bool, inflight: nat)
  datatype HealthReport = HealthReport(replica: string, advertise: Option<string>, backends: seq<BackendReport>)
  datatype Stamped = Stamped(report: HealthReport, at: int)
  datatype BackendVerdict = BackendVerdict(key: Key, healthy: nat, total: nat, serving: bool, reachableFrom: seq<string>)

  type Reports = map<string, HealthReport>
  type Vote = (string, nat)

  predicate KeyLe(a: Key, b: Key) {
    if a.apiBase == b.apiBase then StringLe(a.model, b.model) else StringLe(a.apiBase, b.apiBase)
  }

  lemma KeysAreOrdered()
    ensures TotalOrder(KeyLe)
  {
    StringsAreOrdered();
    forall a, b | KeyLe(a, b) && KeyLe(b, a) ensures a == b {
      assert StringLe(a.apiBase, b.apiBase) || a.apiBase == b.apiBase;
    }
    forall a, b, c | KeyLe(a, b) && KeyLe(b, c) ensures KeyLe(a, c) {
      if a.apiBase != b.apiBase && b.apiBase != c.apiBase {
        assert StringLe(a.apiBase, c.apiBase);
      }
    }
  }

  // ----- what the tally means -------------------------------------------

  /** The reports still believed at `now`. */
  function Unexpired(stored: map<string, Stamped>, now: int, ttl: nat): Reports {
    map r | r in stored && Max(now - stored[r].at, 0) < ttl :: stored[r].report
  }

  /** What asking at `now` leaves in the store. */
  function Kept(stored: map<string, Stamped>, now: int, ttl: nat): map<string, Stamped> {
    map r | r in stored && Max(now - stored[r].at, 0) < ttl :: stored[r]
  }

  function AllVotes(live: Reports): set<Vote> {
    set r, i | r in live && 0 <= i < |live[r].backends| :: (r, i)
  }

  ghost predicate Cast(live: Reports, v: Vote) { v.0 in live && v.1 < |live[v.0].backends| }

  ghost function Ballot(live: Reports, v: Vote): BackendReport
    requires Cast(live, v)
  {
    live[v.0].backends[v.1]
  }

  ghost function Votes(live: Reports, among: set<Vote>, k: Key): set<Vote> {
    set v | v in among && Cast(live, v) && Ballot(live, v).key == k
  }

  ghost function Healthy(live: Reports, among: set<Vote>, k: Key): set<Vote> {
    set v | v in among && Cast(live, v) && Ballot(live, v).key == k && Ballot(live, v).healthy
  }

  ghost function Reachable(live: Reports, among: set<Vote>, k: Key, addr: string): set<Vote> {
    set v | v in Healthy(live, among, k) && live[v.0].advertise == Some(addr)
  }

  ghost predicate Busy(live: Reports, among: set<Vote>, k: Key) {
    exists v :: v in Healthy(live, among, k) && Ballot(live, v).inflight > 0
  }

  /** `verdict` says of one backend exactly what the votes say. */
  ghost predicate Speaks(live: Reports, verdict: BackendVerdict) {
    var all := AllVotes(live);
    && verdict.total == |Votes(live, all, verdict.key)|
    && verdict.healthy == |Healthy(live, all, verdict.key)|
    && (verdict.serving <==> Busy(live, all, verdict.key))
    && Sorted(verdict.reachableFrom, StringLe)
    && forall addr :: multiset(verdict.reachableFrom)[addr] == |Reachable(live, all, verdict.key, addr)|
  }

  /** The listing: one entry per backend anyone reported, in key order. */
  ghost predicate IsVerdict(live: Reports, backends: seq<BackendVerdict>) {
    && (forall i, j :: 0 <= i < j < |backends| ==> KeyLe(backends[i].key, backends[j].key) && backends[i].key != backends[j].key)
    && (forall i :: 0 <= i < |backends| ==> Speaks(live, backends[i]) && Votes(live, AllVotes(live), backends[i].key) != {})
    && (forall v :: v in AllVotes(live) ==> exists i :: 0 <= i < |backends| && backends[i].key == Ballot(live, v).key)
  }

  // ----- the loops ------------------------------------------------------

  datatype Tally = Tally(healthy: nat, total: nat, reachable: seq<string>, maxInflight: nat)

  function Bump(tally: map<Key, Tally>, b: BackendReport, advertise: Option<string>): map<Key, Tally> {
    var e := if b.key in tally then tally[b.key] else Tally(0, 0, [], 0);
    var counted := e.(total := e.total + 1);
    tally[b.key := if !b.healthy then counted else
      counted.(healthy := e.healthy + 1, maxInflight := Max(b.inflight, e.maxInflight),
               reachable := if advertise.Some? then e.reachable + [advertise.value] else e.reachable)]
  }

  ghost predicate Counts(live: Reports, seen: set<Vote>, k: Key, e: Tally) {
    && e.total == |Votes(live, seen, k)|
    && e.healthy == |Healthy(live, seen, k)|
    && (e.maxInflight > 0 <==> Busy(live, seen, k))
    && forall addr :: multiset(e.reachable)[addr] == |Reachable(live, seen, k, addr)|
  }

  /** The running tally describes exactly the votes seen so far. */
  ghost predicate Tallied(tally: map<Key, Tally>, live: Reports, seen: set<Vote>) {
    forall k :: (k in tally <==> Votes(live, seen, k) != {}) && (k in tally ==> Counts(live, seen, k, tally[k]))
  }

  lemma OtherKeysUnmoved(live: Reports, seen: set<Vote>, v: Vote, k: Key)
    requires Cast(live, v) && Ballot(live, v).key != k
    ensures Votes(live, seen + {v}, k) == Votes(live, seen, k)
    ensures Healthy(live, seen + {v}, k) == Healthy(live, seen, k)
    ensures forall e :: Counts(live, seen, k, e) ==> Counts(live, seen + {v}, k, e)
  {
    assert Healthy(live, seen + {v}, k) == Healthy(live, seen, k);
    assert forall addr :: Reachable(live, seen + {v}, k, addr) == Reachable(live, seen, k, addr);
  }

  lemma VoteReaches(live: Reports, seen: set<Vote>, v: Vote, addr: string)
    requires Cast(live, v) && v !in seen && Ballot(live, v).healthy
    ensures var k := Ballot(live, v).key;
            |Reachable(live, seen + {v}, k, addr)| ==
            |Reachable(live, seen, k, addr)| + (if live[v.0].advertise == Some(addr) then 1 else 0)
  {
    var k := Ballot(live, v).key;
    var before, after := Reachable(live, seen, k, addr), Reachable(live, seen + {v}, k, addr);
    if live[v.0].advertise == Some(addr) {
      assert after == before + {v};
    } else {
      assert after == before;
    }
  }

  lemma VoteAddsOne(live: Reports, seen: set<Vote>, v: Vote)
    requires Cast(live, v) && v !in seen && Ballot(live, v).healthy
    ensures var k := Ballot(live, v).key;
            && |Votes(live, seen + {v}, k)| == |Votes(live, seen, k)| + 1
            && |Healthy(live, seen + {v}, k)| == |Healthy(live, seen, k)| + 1
  {
    var k := Ballot(live, v).key;
    assert Votes(live, seen + {v}, k) == Votes(live, seen, k) + {v};
    assert Healthy(live, seen + {v}, k) == Healthy(live, seen, k) + {v};
  }

  lemma HealthyVoteCounted(live: Reports, seen: set<Vote>, v: Vote, e: Tally)
    requires Cast(live, v) && v !in seen && Counts(live, seen, Ballot(live, v).key, e) && Ballot(live, v).healthy
    ensures var b := Ballot(live, v);
            Counts(live, seen + {v}, b.key, Bump(map[b.key := e], b, live[v.0].advertise)[b.key])
  {
    hide Votes, Healthy, Busy, Reachable;
    var b := Ballot(live, v);
    VoteAddsOne(live, seen, v);
    BusyGrows(live, seen, v);
    forall addr
      ensures |Reachable(live, seen + {v}, b.key, addr)| ==
              |Reachable(live, seen, b.key, addr)| + (if live[v.0].advertise == Some(addr) then 1 else 0)
    {
      VoteReaches(live, seen, v, addr);
    }
  }

  lemma VoteCounted(live: Reports, seen: set<Vote>, v: Vote, e: Tally)
    requires Cast(live, v) && v !in seen && Counts(live, seen, Ballot(live, v).key, e)
    ensures var b := Ballot(live, v);
            Counts(live, seen + {v}, b.key, Bump(map[b.key := e], b, live[v.0].advertise)[b.key])
  {
    var b := Ballot(live, v);
    if b.healthy {
      HealthyVoteCounted(live, seen, v, e);
    } else {
      assert Votes(live, seen + {v}, b.key) == Votes(live, seen, b.key) + {v};
      assert Healthy(live, seen + {v}, b.key) == Healthy(live, seen, b.key);
      assert forall addr :: Reachable(live, seen + {v}, b.key, addr) == Reachable(live, seen, b.key, addr);
    }
  }

  lemma BusyGrows(live: Reports, seen: set<Vote>, v: Vote)
    requires Cast(live, v) && Ballot(live, v).healthy
    ensures var k := Ballot(live, v).key;
            Busy(live, seen + {v}, k) <==> Busy(live, seen, k) || Ballot(live, v).inflight > 0
  {
    var k := Ballot(live, v).key;
    assert Healthy(live, seen + {v}, k) == Healthy(live, seen, k) + {v};
  }

  lemma BumpTallies(tally: map<Key, Tally>, live: Reports, seen: set<Vote>, v: Vote)
    requires Tallied(tally, live, seen) && Cast(live, v) && v !in seen
    ensures Tallied(Bump(tally, Ballot(live, v), live[v.0].advertise), live, seen + {v})
  {
    var b := Ballot(live, v);
    var bumped := Bump(tally, b, live[v.0].advertise);
    var e := if b.key in tally then tally[b.key] else Tally(0, 0, [], 0);
    if b.key !in tally {
      assert Votes(live, seen, b.key) == {};
      assert Healthy(live, seen, b.key) <= Votes(live, seen, b.key);
      assert forall addr :: Reachable(live, seen, b.key, addr) == {};
    }
    VoteCounted(live, seen, v, e);
    assert v in Votes(live, seen + {v}, b.key);
    forall k | k != b.key
      ensures (k in bumped <==> Votes(live, seen + {v}, k) != {}) && (k in bumped ==> Counts(live, seen + {v}, k, bumped[k]))
    {
      OtherKeysUnmoved(live, seen, v, k);
    }
  }

  ghost function SeenReports(reports: seq<HealthReport>, n: nat): set<Vote>
    requires n <= |reports|
  {
    set i, j | 0 <= i < n && 0 <= j < |reports[i].backends| :: (reports[i].replica, j)
  }

  ghost function SeenOf(report: HealthReport, m: nat): set<Vote> {
    set j | 0 <= j < m :: (report.replica, j)
  }

  /** `reports` lists the believed reports, each once. */
  ghost predicate Enumerates(reports: seq<HealthReport>, live: Reports) {
    && (forall i, j :: 0 <= i < j < |reports| ==> reports[i].replica != reports[j].replica)
    && (forall i :: 0 <= i < |reports| ==> reports[i].replica in live && live[reports[i].replica] == reports[i])
    && (forall r :: r in live ==> exists i :: 0 <= i < |reports| && reports[i].replica == r)
  }

  lemma NotSeenYet(reports: seq<HealthReport>, live: Reports, n: nat, m: nat)
    requires Enumerates(reports, live) && n < |reports|
    ensures (reports[n].replica, m) !in SeenReports(reports, n) + SeenOf(reports[n], m)
  {
  }

  lemma ReportSeen(reports: seq<HealthReport>, n: nat)
    requires n < |reports|
    ensures SeenReports(reports, n + 1) == SeenReports(reports, n) + SeenOf(reports[n], |reports[n].backends|)
  {
    var a, b := SeenReports(reports, n + 1), SeenReports(reports, n) + SeenOf(reports[n], |reports[n].backends|);
    forall v | v in a ensures v in b {
      var i, j :| 0 <= i < n + 1 && 0 <= j < |reports[i].backends| && v == (reports[i].replica, j);
      if i == n { assert v in SeenOf(reports[n], |reports[n].backends|); }
    }
  }

  lemma OneMoreSeen(before: set<Vote>, report: HealthReport, m: nat)
    ensures before + SeenOf(report, m + 1) == before + SeenOf(report, m) + {(report.replica, m)}
    ensures before + SeenOf(report, 0) == before
  {
  }

  lemma AllSeen(reports: seq<HealthReport>, live: Reports)
    requires Enumerates(reports, live)
    ensures SeenReports(reports, |reports|) == AllVotes(live)
  {
    var a, b := SeenReports(reports, |reports|), AllVotes(live);
    forall v | v in b ensures v in a {
      var i :| 0 <= i < |reports| && reports[i].replica == v.0;
      assert v == (reports[i].replica, v.1) && v.1 < |reports[i].backends|;
    }
  }

  lemma NothingTallied(live: Reports, reports: seq<HealthReport>)
    ensures Tallied(map[], live, SeenReports(reports, 0))
  {
  }

  method TallyUp(reports: seq<HealthReport>, ghost live: Reports) returns (tally: map<Key, Tally>)
    requires Enumerates(reports, live)
    ensures Tallied(tally, live, AllVotes(live))
  {
    hide Tallied, SeenReports, SeenOf, Bump, AllVotes;
    tally := map[];
    NothingTallied(live, reports);
    for n := 0 to |reports|
      invariant Tallied(tally, live, SeenReports(reports, n))
    {
      var report := reports[n];
      ghost var before := SeenReports(reports, n);
      OneMoreSeen(before, report, 0);
      for m := 0 to |report.backends|
        invariant Tallied(tally, live, before + SeenOf(report, m))
      {
        NotSeenYet(reports, live, n, m);
        BumpTallies(tally, live, before + SeenOf(report, m), (report.replica, m));
        OneMoreSeen(before, report, m);
        tally := Bump(tally, report.backends[m], report.advertise);
      }
      ReportSeen(reports, n);
    }
    AllSeen(reports, live);
  }

  lemma SameMembers<T>(s: seq<T>, elements: set<T>)
    requires multiset(s) == multiset(elements)
    ensures forall x :: x in s <==> x in elements
  {
    forall x ensures x in s <==> x in elements {
      assert x in s <==> x in multiset(s);
    }
  }

  lemma EntrySpeaks(live: Reports, tally: map<Key, Tally>, k: Key, reachable: seq<string>)
    requires Tallied(tally, live, AllVotes(live)) && k in tally
    requires Sorted(reachable, StringLe) && multiset(reachable) == multiset(tally[k].reachable)
    ensures var e := tally[k];
            Speaks(live, BackendVerdict(k, e.healthy, e.total, e.maxInflight > 0, reachable))
  {
    assert Counts(live, AllVotes(live), k, tally[k]);
  }

  lemma ReportedIsTallied(live: Reports, tally: map<Key, Tally>, v: Vote)
    requires Tallied(tally, live, AllVotes(live)) && v in AllVotes(live)
    ensures Ballot(live, v).key in tally
  {
    assert v in Votes(live, AllVotes(live), Ballot(live, v).key);
  }

  lemma ListingIsVerdict(live: Reports, tally: map<Key, Tally>, keys: seq<Key>, backends: seq<BackendVerdict>)
    requires Tallied(tally, live, AllVotes(live))
    requires Sorted(keys, KeyLe) && multiset(keys) == multiset(tally.Keys) && |backends| == |keys|
    requires forall j :: 0 <= j < |keys| ==> backends[j].key == keys[j] && Speaks(live, backends[j])
    ensures IsVerdict(live, backends)
  {
    hide Speaks, Counts, KeyLe;
    SameMembers(keys, tally.Keys);
    OnceEach(keys, tally.Keys);
    forall i, j | 0 <= i < j < |backends|
      ensures KeyLe(backends[i].key, backends[j].key) && backends[i].key != backends[j].key
    {
      assert KeyLe(keys[i], keys[j]) && keys[i] != keys[j];
    }
    forall v | v in AllVotes(live)
      ensures exists i :: 0 <= i < |backends| && backends[i].key == Ballot(live, v).key
    {
      ReportedIsTallied(live, tally, v);
      var i :| 0 <= i < |keys| && keys[i] == Ballot(live, v).key;
      assert backends[i].key == keys[i];
    }
    forall i | 0 <= i < |backends|
      ensures Votes(live, AllVotes(live), backends[i].key) != {}
    {
      assert keys[i] in tally;
    }
  }

  method Render(tally: map<Key, Tally>, ghost live: Reports) returns (backends: seq<BackendVerdict>)
    requires Tallied(tally, live, AllVotes(live))
    ensures IsVerdict(live, backends)
  {
    hide Tallied, IsVerdict, Speaks, TotalOrder, Sorted, KeyLe, StringLe;
    KeysAreOrdered();
    StringsAreOrdered();
    var listed := Listed(tally.Keys);
    var keys := Sort(listed, KeyLe);
    SameMembers(keys, tally.Keys);
    backends := [];
    for i := 0 to |keys|
      invariant |backends| == i
      invariant forall j :: 0 <= j < i ==> backends[j].key == keys[j] && Speaks(live, backends[j])
    {
      assert keys[i] in tally;
      var e := tally[keys[i]];
      var reachable := Sort(e.reachable, StringLe);
      EntrySpeaks(live, tally, keys[i], reachable);
      backends := backends + [BackendVerdict(keys[i], e.healthy, e.total, e.maxInflight > 0, reachable)];
    }
    ListingIsVerdict(live, tally, keys, backends);
  }

  lemma OnceEach<T>(s: seq<T>, elements: set<T>)
    requires multiset(s) == multiset(elements)
    ensures forall i, j :: 0 <= i < j < |s| ==> s[i] != s[j]
  {
    forall i, j | 0 <= i < j < |s|
      ensures s[i] != s[j]
    {
      assert s == s[..j] + [s[j]] + s[j + 1..];
      assert s[..j][i] == s[i];
      assert s[i] in multiset(s[..j]);
      assert multiset(elements)[s[j]] <= 1;
    }
  }

  lemma NamesEnumerate(names: seq<string>, out: seq<HealthReport>, live: Reports)
    requires |out| == |names| && forall x :: x in names <==> x in live
    requires forall i, j :: 0 <= i < j < |names| ==> names[i] != names[j]
    requires forall i :: 0 <= i < |out| ==> out[i].replica == names[i] && names[i] in live && live[names[i]] == out[i]
    ensures Enumerates(out, live)
  {
    forall r | r in live
      ensures exists i :: 0 <= i < |out| && out[i].replica == r
    {
      var i :| 0 <= i < |names| && names[i] == r;
      assert out[i].replica == r;
    }
  }

  method InNameOrder(live: Reports) returns (out: seq<HealthReport>)
    requires forall r :: r in live ==> live[r].replica == r
    ensures Enumerates(out, live)
    ensures forall i, j :: 0 <= i < j < |out| ==> StringLe(out[i].replica, out[j].replica)
  {
    hide TotalOrder, StringLe;
    StringsAreOrdered();
    var listed := Listed(live.Keys);
    var names := Sort(listed, StringLe);
    SameMembers(names, live.Keys);
    OnceEach(names, live.Keys);
    out := [];
    for i := 0 to |names|
      invariant |out| == i
      invariant forall j :: 0 <= j < i ==> out[j].replica == names[j] && names[j] in live && live[names[j]] == out[j]
    {
      assert names[i] in live;
      out := out + [live[names[i]]];
    }
    NamesEnumerate(names, out, live);
  }

  class Fleet {
    var reports: map<string, Stamped>
    const ttl: nat

    /** Each report is stored under its own replica's name. */
    ghost predicate Valid()
      reads this
    {
      forall r :: r in reports ==> reports[r].report.replica == r
    }

    constructor (ttl: nat)
      ensures Valid() && reports == map[] && this.ttl == ttl
    {
      reports := map[];
      this.ttl := ttl;
    }

    method Record(report: HealthReport, now: int) returns (previous: Option<HealthReport>)
      requires Valid()
      modifies this
      ensures Valid() && reports == old(reports)[report.replica := Stamped(report, now)]
      ensures previous == if report.replica in old(reports) then Some(old(reports)[report.replica].report) else None
    {
      previous := if report.replica in reports then Some(reports[report.replica].report) else None;
      reports := reports[report.replica := Stamped(report, now)];
    }

    method Current(now: int) returns (out: seq<HealthReport>)
      requires Valid()
      modifies this
      ensures Valid() && reports == Kept(old(reports), now, ttl)
      ensures Enumerates(out, Unexpired(old(reports), now, ttl))
      ensures forall i, j :: 0 <= i < j < |out| ==> StringLe(out[i].replica, out[j].replica)
    {
      reports := map r | r in reports && Max(now - reports[r].at, 0) < ttl :: reports[r];
      var live := map r | r in reports :: reports[r].report;
      assert live == Unexpired(old(reports), now, ttl);
      out := InNameOrder(live);
    }

    /** The answer to a report: the declarative verdict over the unexpired ones. */
    method Verdict(now: int) returns (backends: seq<BackendVerdict>)
      requires Valid()
      modifies this
      ensures Valid() && reports == Kept(old(reports), now, ttl)
      ensures IsVerdict(Unexpired(old(reports), now, ttl), backends)
    {
      ghost var live := Unexpired(reports, now, ttl);
      var current := Current(now);
      var tally := TallyUp(current, live);
      backends := Render(tally, live);
    }
  }

  // ----- the listing does not depend on map order -----------------------

  lemma SpeaksUniquely(live: Reports, a: BackendVerdict, b: BackendVerdict)
    requires Speaks(live, a) && Speaks(live, b) && a.key == b.key
    ensures a == b
  {
    StringsAreOrdered();
    assert multiset(a.reachableFrom) == multiset(b.reachableFrom);
    SortedIsUnique(a.reachableFrom, b.reachableFrom, StringLe);
  }

  ghost function KeysOf(backends: seq<BackendVerdict>): seq<Key> { seq(|backends|, i requires 0 <= i < |backends| => backends[i].key) }

  /** A key is listed exactly when someone reported it. */
  lemma ListedIffReported(live: Reports, backends: seq<BackendVerdict>, k: Key)
    requires IsVerdict(live, backends)
    ensures k in KeysOf(backends) <==> Votes(live, AllVotes(live), k) != {}
  {
    if k in KeysOf(backends) {
      var i :| 0 <= i < |backends| && backends[i].key == k;
    }
    if Votes(live, AllVotes(live), k) != {} {
      var v :| v in Votes(live, AllVotes(live), k);
      var i :| 0 <= i < |backends| && backends[i].key == Ballot(live, v).key;
      assert KeysOf(backends)[i] == k;
    }
  }

  lemma {:induction false} CountOnce<T(!new)>(s: seq<T>, x: T)
    requires forall i, j :: 0 <= i < j < |s| ==> s[i] != s[j]
    ensures multiset(s)[x] == if x in s then 1 else 0
  {
    if s != [] {
      assert s == [s[0]] + s[1..];
      CountOnce(s[1..], x);
    }
  }

  /** Whatever order the maps were walked in, the answer is the same. */
  lemma VerdictIsUnique(live: Reports, a: seq<BackendVerdict>, b: seq<BackendVerdict>)
    requires IsVerdict(live, a) && IsVerdict(live, b)
    ensures a == b
  {
    KeysAreOrdered();
    var ka, kb := KeysOf(a), KeysOf(b);
    assert multiset(ka) == multiset(kb) by {
      forall k ensures multiset(ka)[k] == multiset(kb)[k] {
        CountOnce(ka, k);
        CountOnce(kb, k);
        ListedIffReported(live, a, k);
        ListedIffReported(live, b, k);
      }
    }
    SortedIsUnique(ka, kb, KeyLe);
    forall i | 0 <= i < |a|
      ensures a[i] == b[i]
    {
      assert a[i].key == ka[i] == kb[i] == b[i].key;
      SpeaksUniquely(live, a[i], b[i]);
    }
  }

  // ----- what a contradiction means -------------------------------------

  /** `contradicts`: the first entry for the key decides. */
  predicate Contradicts(backends: seq<BackendVerdict>, k: Key) {
    if backends == [] then false
    else if backends[0].key == k then FleetProtocol.Contradicts(backends[0].healthy, backends[0].total)
    else Contradicts(backends[1..], k)
  }

  lemma {:induction false} EntryDecides(backends: seq<BackendVerdict>, i: nat)
    requires i < |backends| && forall j :: 0 <= j < i ==> backends[j].key != backends[i].key
    ensures Contradicts(backends, backends[i].key) <==> FleetProtocol.Contradicts(backends[i].healthy, backends[i].total)
  {
    if i > 0 {
      EntryDecides(backends[1..], i - 1);
    }
  }

  /** Replicas other than `asker` that reported the backend, and those of them
      that reported it healthy. */
  ghost function Others(live: Reports, asker: string, k: Key): set<Vote> {
    set v | v in Votes(live, AllVotes(live), k) && v.0 != asker
  }

  ghost function OthersHealthy(live: Reports, asker: string, k: Key): set<Vote> {
    set v | v in Others(live, asker, k) && Ballot(live, v).healthy
  }

  /** With one entry per replica and the asker's own report unhealthy, the
      fleet contradicts the asker exactly when a strict majority of the other
      replicas report the backend healthy. */
  lemma ContradictsIffMajorityOfOthers(live: Reports, backends: seq<BackendVerdict>, asker: Vote)
    requires IsVerdict(live, backends) && asker in AllVotes(live) && !Ballot(live, asker).healthy
    requires forall v, w :: v in AllVotes(live) && w in AllVotes(live) && v.0 == w.0 && Ballot(live, v).key == Ballot(live, w).key ==> v == w
    ensures var k := Ballot(live, asker).key;
            Contradicts(backends, k) <==> |OthersHealthy(live, asker.0, k)| * 2 > |Others(live, asker.0, k)|
  {
    hide Others, OthersHealthy, Contradicts, Busy, Reachable, KeyLe;
    var k := Ballot(live, asker).key;
    var i :| 0 <= i < |backends| && backends[i].key == k;
    EntryDecides(backends, i);
    AskerApart(live, asker);
    assert Speaks(live, backends[i]);
  }

  lemma AskerApart(live: Reports, asker: Vote)
    requires asker in AllVotes(live) && !Ballot(live, asker).healthy
    requires forall v, w :: v in AllVotes(live) && w in AllVotes(live) && v.0 == w.0 && Ballot(live, v).key == Ballot(live, w).key ==> v == w
    ensures var k := Ballot(live, asker).key;
            && |Votes(live, AllVotes(live), k)| == |Others(live, asker.0, k)| + 1
            && |Healthy(live, AllVotes(live), k)| == |OthersHealthy(live, asker.0, k)| <= |Others(live, asker.0, k)|
  {
    var all, k := AllVotes(live), Ballot(live, asker).key;
    assert Votes(live, all, k) == Others(live, asker.0, k) + {asker};
    assert Healthy(live, all, k) == OthersHealthy(live, asker.0, k);
    NoMoreThan(OthersHealthy(live, asker.0, k), Others(live, asker.0, k));
  }

  lemma {:induction false} NoMoreThan<T>(a: set<T>, b: set<T>)
    requires a <= b
    ensures |a| <= |b|
  {
    if a != {} {
      var x :| x in a;
      NoMoreThan(a - {x}, b - {x});
    }
  }

  // ----- whether a peer is serving --------------------------------------

  /** `serving_for`: the flag of the backend's entry, if it has one. */
  predicate ServingFor(backends: seq<BackendVerdict>, k: Key) {
    if backends == [] then false
    else if backends[0].key == k then backends[0].serving
    else ServingFor(backends[1..], k)
  }

  lemma {:induction false} EntryServes(backends: seq<BackendVerdict>, i: nat)
    requires i < |backends| && forall j :: 0 <= j < i ==> backends[j].key != backends[i].key
    ensures ServingFor(backends, backends[i].key) <==> backends[i].serving
  {
    if i > 0 {
      assert backends[1..][i - 1] == backends[i];
      EntryServes(backends[1..], i - 1);
    }
  }

  lemma {:induction false} NoEntryNoService(backends: seq<BackendVerdict>, k: Key)
    requires forall j :: 0 <= j < |backends| ==> backends[j].key != k
    ensures !ServingFor(backends, k) && !Contradicts(backends, k)
  {
    if backends != [] {
      NoEntryNoService(backends[1..], k);
    }
  }

  /** The fleet serves a backend exactly when some replica that reports it healthy
      has work in flight there; one that does not is no peer of itself. */
  lemma ServingIffAPeerIsBusy(live: Reports, backends: seq<BackendVerdict>, k: Key)
    requires IsVerdict(live, backends)
    ensures ServingFor(backends, k) <==>
            exists v :: v in AllVotes(live) && Ballot(live, v).key == k && Ballot(live, v).healthy && Ballot(live, v).inflight > 0
  {
    if i :| 0 <= i < |backends| && backends[i].key == k {
      assert forall j :: 0 <= j < i ==> backends[j].key != backends[i].key;
      EntryServes(backends, i);
      assert Speaks(live, backends[i]);
    } else {
      NoEntryNoService(backends, k);
      forall v | v in AllVotes(live)
        ensures Ballot(live, v).key != k
      {
      }
    }
  }
}
