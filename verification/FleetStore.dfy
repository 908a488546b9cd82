/**
 The report store over time (src/health_report.rs): whatever was asked in
 between, a replica speaks with its latest report until the report's lifetime
 has passed.
 */
module FleetStore {
  import opened Common
  import opened FleetVerdict

  datatype Op =
    | Heard(report: HealthReport, now: int)   // `record`
    | Asked(now: int)                         // `current` or `verdict`

  function After(ops: seq<Op>, n: nat, ttl: nat): map<string, Stamped>
    requires n <= |ops|
  {
    if n == 0 then map[] else
      var stored := After(ops, n - 1, ttl);
      match ops[n - 1]
      case Heard(report, now) => stored[report.replica := Stamped(report, now)]
      case Asked(now) => Kept(stored, now, ttl)
  }

  /** Event `i` is the latest of the first `n` in which `r` reported. */
  ghost predicate Latest(ops: seq<Op>, n: nat, r: string, i: int)
    requires n <= |ops|
  {
    && 0 <= i < n && ops[i].Heard? && ops[i].report.replica == r
    && forall j :: i < j < n ==> !(ops[j].Heard? && ops[j].report.replica == r)
  }

  ghost predicate InOrder(ops: seq<Op>, n: nat, now: int)
    requires n <= |ops|
  {
    (forall i, j :: 0 <= i < j < n ==> ops[i].now <= ops[j].now) && forall i :: 0 <= i < n ==> ops[i].now <= now
  }

  /** What the store holds came from the latest report, and what it dropped had
      outlived its time. */
  lemma {:induction false} StoreHoldsTheLatest(ops: seq<Op>, n: nat, ttl: nat, now: int, r: string)
    requires n <= |ops| && InOrder(ops, n, now)
    ensures r in After(ops, n, ttl) ==>
              exists i :: Latest(ops, n, r, i) && After(ops, n, ttl)[r] == Stamped(ops[i].report, ops[i].now)
    ensures forall i :: Latest(ops, n, r, i) && r !in After(ops, n, ttl) ==> now - ops[i].now >= ttl
  {
    if n > 0 {
      var k := n - 1;
      StoreHoldsTheLatest(ops, k, ttl, ops[k].now, r);
      if ops[k].Heard? && ops[k].report.replica == r {
        assert Latest(ops, n, r, k);
      } else {
        forall i
          ensures Latest(ops, n, r, i) <==> Latest(ops, k, r, i)
        {
        }
      }
    }
  }

  /** At any time, the replicas believed are those whose latest report is younger
      than its lifetime, each with that report. */
  lemma {:induction false} BelievedIffRecent(ops: seq<Op>, n: nat, ttl: nat, now: int, r: string)
    requires n <= |ops| && InOrder(ops, n, now)
    ensures var live := Unexpired(After(ops, n, ttl), now, ttl);
            && (r in live <==> exists i :: Latest(ops, n, r, i) && now - ops[i].now < ttl)
            && (r in live ==> exists i :: Latest(ops, n, r, i) && live[r] == ops[i].report)
  {
    StoreHoldsTheLatest(ops, n, ttl, now, r);
    if r in After(ops, n, ttl) {
      var i :| Latest(ops, n, r, i) && After(ops, n, ttl)[r] == Stamped(ops[i].report, ops[i].now);
      forall j | Latest(ops, n, r, j)
        ensures j == i
      {
      }
      assert ops[i].now <= now;
    }
  }
}
