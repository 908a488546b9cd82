/**
 Finding out which backends publish engine metrics (src/engine_scrape.rs):
 who is asked on a sweep, and when the asking stops.
 */
module Detect {
  import opened Common

  const RETRY_EVERY: nat := 300_000
  const GIVE_UP_AFTER: nat := 900_000

  datatype Detected =
    | NoMetrics(recheckWhenHealthy: bool)
    | Retry(nextMs: nat, sinceMs: nat, answered: bool)

  datatype Probe = Parsed | NotAnEngine | Unreachable

  /** What a sweep finds for one backend: its health when the sweep chose whom
      to ask, the answer if it was asked, and its health when that was judged. */
  datatype Sighting = Sighting(now: nat, healthyBefore: bool, probe: Probe, healthyAfter: bool)

  predicate Asked(k: Option<Detected>, now: nat, healthy: bool) {
    match k
    case None => true
    case Some(NoMetrics(recheck)) => recheck && healthy
    case Some(Retry(nextMs, _, _)) => now >= nextMs
  }

  /** Spends the one recheck a verdict by deadline is owed. */
  function Spent(k: Option<Detected>): Option<Detected> {
    if k.Some? && k.value.NoMetrics? then Some(NoMetrics(false)) else k
  }

  function Judged(k: Option<Detected>, now: nat, probe: Probe, healthy: bool): Option<Detected> {
    var since := if k.Some? && k.value.Retry? then k.value.sinceMs else now;
    var askedBefore := k.Some? && k.value.Retry? && k.value.answered;
    if probe.Parsed? then None else
      var answered := probe.NotAnEngine?;
      if answered && askedBefore && healthy then Some(NoMetrics(false))
      else if SatSub(now, since) >= GIVE_UP_AFTER then Some(NoMetrics(!answered))
      else Some(Retry(now + RETRY_EVERY, since, answered))
  }

  function Step(k: Option<Detected>, s: Sighting): Option<Detected> {
    if Asked(k, s.now, s.healthyBefore) then Judged(Spent(k), s.now, s.probe, s.healthyAfter) else k
  }

  // ----- runs -----------------------------------------------------------

  ghost predicate Run(tr: seq<Option<Detected>>, sweeps: seq<Sighting>) {
    && |tr| == |sweeps| + 1 && tr[0] == None
    && forall i {:trigger sweeps[i]} :: 0 <= i < |sweeps| ==> tr[i + 1] == Step(tr[i], sweeps[i])
  }

  ghost predicate AskedAt(tr: seq<Option<Detected>>, sweeps: seq<Sighting>, i: nat)
    requires Run(tr, sweeps) && i < |sweeps|
  {
    Asked(tr[i], sweeps[i].now, sweeps[i].healthyBefore)
  }

  /** Probes sent among the first `n` sweeps. */
  ghost function Probes(tr: seq<Option<Detected>>, sweeps: seq<Sighting>, n: nat): nat
    requires Run(tr, sweeps) && n <= |sweeps|
  {
    if n == 0 then 0 else Probes(tr, sweeps, n - 1) + (if AskedAt(tr, sweeps, n - 1) then 1 else 0)
  }

  /** Unparsed probes of the current round: a round opens with a first question
      or a recheck that does not parse, and lasts while the backend is being
      retried. */
  ghost function RoundProbes(tr: seq<Option<Detected>>, sweeps: seq<Sighting>, n: nat): nat
    requires Run(tr, sweeps) && n <= |sweeps|
  {
    if n == 0 then 0
    else if !AskedAt(tr, sweeps, n - 1) then RoundProbes(tr, sweeps, n - 1)
    else if sweeps[n - 1].probe.Parsed? then 0
    else if tr[n - 1].Some? && tr[n - 1].value.Retry? then RoundProbes(tr, sweeps, n - 1) + 1
    else 1
  }

  /** Every round reaches a verdict within four probes. */
  lemma {:induction false} FourProbesSettleARound(tr: seq<Option<Detected>>, sweeps: seq<Sighting>, n: nat)
    requires Run(tr, sweeps) && n <= |sweeps|
    ensures RoundProbes(tr, sweeps, n) <= 4
    ensures RoundProbes(tr, sweeps, n) == 4 ==> tr[n].Some? && tr[n].value.NoMetrics?
    ensures tr[n].Some? && tr[n].value.Retry? ==>
              1 <= RoundProbes(tr, sweeps, n) <= 3 &&
              tr[n].value.nextMs >= tr[n].value.sinceMs + RoundProbes(tr, sweeps, n) * 300_000
  {
    if n > 0 {
      FourProbesSettleARound(tr, sweeps, n - 1);
    }
  }

  /** An address that only ever answers "not an engine" is asked at most four
      times in its life, and no more than twice if the backend was healthy when
      the second answer was judged. */
  lemma {:induction false} HostedProviderIsLeftAlone(tr: seq<Option<Detected>>, sweeps: seq<Sighting>, n: nat)
    requires Run(tr, sweeps) && n <= |sweeps|
    requires forall i :: 0 <= i < n ==> sweeps[i].probe.NotAnEngine?
    ensures Probes(tr, sweeps, n) <= 4
    ensures Probes(tr, sweeps, n) == RoundProbes(tr, sweeps, n)
    ensures tr[n].None? <==> Probes(tr, sweeps, n) == 0
    ensures tr[n].Some? ==> tr[n] == Some(NoMetrics(false)) || (tr[n].value.Retry? && tr[n].value.answered)
    ensures (forall i :: 0 <= i < n && AskedAt(tr, sweeps, i) && Probes(tr, sweeps, i) == 1 ==> sweeps[i].healthyAfter) ==>
              Probes(tr, sweeps, n) <= 2 && (Probes(tr, sweeps, n) == 2 ==> tr[n] == Some(NoMetrics(false)))
  {
    FourProbesSettleARound(tr, sweeps, n);
    if n > 0 {
      HostedProviderIsLeftAlone(tr, sweeps, n - 1);
    }
  }

  /** A backend that is never healthy is never asked again once a verdict stands. */
  lemma {:induction false} NeverHealthyNeverAskedAgain(tr: seq<Option<Detected>>, sweeps: seq<Sighting>, i: nat, j: nat)
    requires Run(tr, sweeps) && i <= j < |sweeps|
    requires tr[i].Some? && tr[i].value.NoMetrics?
    requires forall k :: i <= k <= j ==> !sweeps[k].healthyBefore
    ensures tr[j] == tr[i] && !AskedAt(tr, sweeps, j)
  {
    if i < j {
      NeverHealthyNeverAskedAgain(tr, sweeps, i, j - 1);
    }
  }

  // ----- who is asked, and what comes of it -----------------------------

  /** The sweep of the latest question, if there was one. */
  ghost function LastAsked(tr: seq<Option<Detected>>, sweeps: seq<Sighting>, n: nat): Option<nat>
    requires Run(tr, sweeps) && n <= |sweeps|
  {
    if n == 0 then None else if AskedAt(tr, sweeps, n - 1) then Some(n - 1) else LastAsked(tr, sweeps, n - 1)
  }

  /** The instant at which the current round opened. */
  ghost function Opened(tr: seq<Option<Detected>>, sweeps: seq<Sighting>, n: nat): nat
    requires Run(tr, sweeps) && n <= |sweeps|
  {
    if n == 0 then 0
    else if AskedAt(tr, sweeps, n - 1) && RoundProbes(tr, sweeps, n) == 1 then sweeps[n - 1].now
    else Opened(tr, sweeps, n - 1)
  }

  ghost predicate Retrying(k: Option<Detected>) { k.Some? && k.value.Retry? }

  /** What is known of a backend is a digest of the history: nothing before the
      first question and after a parsed one, a pending retry with the opening of
      its round and the latest answer, or a verdict. */
  lemma {:induction false} KnownIsHistory(tr: seq<Option<Detected>>, sweeps: seq<Sighting>, n: nat)
    requires Run(tr, sweeps) && n <= |sweeps|
    ensures var i := LastAsked(tr, sweeps, n);
            && (i.Some? ==> i.value < n)
            && (tr[n].None? <==> i.None? || sweeps[i.value].probe.Parsed?)
            && (Retrying(tr[n]) ==>
                  && i.Some?
                  && tr[n] == Some(Retry(sweeps[i.value].now + 300_000, Opened(tr, sweeps, n), sweeps[i.value].probe.NotAnEngine?)))
  {
    if n > 0 {
      KnownIsHistory(tr, sweeps, n - 1);
      FourProbesSettleARound(tr, sweeps, n - 1);
      FourProbesSettleARound(tr, sweeps, n);
      assert tr[n] == Step(tr[n - 1], sweeps[n - 1]);
    }
  }

  /** Who is asked: a backend never asked or whose last answer parsed, always; one
      being retried, from five minutes after the last question on; one written
      off, only if nothing ever answered and it is healthy now. */
  lemma {:induction false} AskedExactly(tr: seq<Option<Detected>>, sweeps: seq<Sighting>, n: nat)
    requires Run(tr, sweeps) && n < |sweeps|
    ensures var i := LastAsked(tr, sweeps, n);
            if i.None? || (i.value < n && sweeps[i.value].probe.Parsed?) then AskedAt(tr, sweeps, n)
            else i.value < n &&
                 if Retrying(tr[n]) then AskedAt(tr, sweeps, n) <==> sweeps[n].now >= sweeps[i.value].now + 300_000
                 else tr[n].Some? && (AskedAt(tr, sweeps, n) <==> tr[n] == Some(NoMetrics(true)) && sweeps[n].healthyBefore)
  {
    KnownIsHistory(tr, sweeps, n);
  }

  /** What comes of a question: a parsed answer is forgotten; two "not an engine"
      in a row from a backend in rotation settle it for good; fifteen minutes
      after the round opened anything else settles it, for good iff the last
      answer came from the endpoint; otherwise it is asked again. */
  lemma {:induction false} JudgedExactly(tr: seq<Option<Detected>>, sweeps: seq<Sighting>, n: nat)
    requires Run(tr, sweeps) && n < |sweeps| && AskedAt(tr, sweeps, n)
    ensures var s, i := sweeps[n], LastAsked(tr, sweeps, n);
            var since := if Retrying(tr[n]) then Opened(tr, sweeps, n) else s.now;
            && (i.Some? ==> i.value < n) && (Retrying(tr[n]) ==> i.Some?)
            && tr[n + 1] ==
               if s.probe.Parsed? then None
               else if s.probe.NotAnEngine? && Retrying(tr[n]) && sweeps[i.value].probe.NotAnEngine? && s.healthyAfter
               then Some(NoMetrics(false))
               else if s.now - since >= 900_000 then Some(NoMetrics(s.probe.Unreachable?))
               else Some(Retry(s.now + 300_000, since, s.probe.NotAnEngine?))
  {
    KnownIsHistory(tr, sweeps, n);
    assert tr[n + 1] == Step(tr[n], sweeps[n]);
  }

  /** A found engine is asked at the very next sweep, whatever its health and the
      clock; the first answer after that which does not parse opens a new round at
      its own instant. */
  lemma {:induction false} AFoundEngineIsKeptAsking(tr: seq<Option<Detected>>, sweeps: seq<Sighting>, n: nat)
    requires Run(tr, sweeps) && n + 1 < |sweeps| && AskedAt(tr, sweeps, n) && sweeps[n].probe.Parsed?
    ensures AskedAt(tr, sweeps, n + 1)
    ensures !sweeps[n + 1].probe.Parsed? ==>
              && RoundProbes(tr, sweeps, n + 2) == 1 && Opened(tr, sweeps, n + 2) == sweeps[n + 1].now
              && tr[n + 2] == Some(Retry(sweeps[n + 1].now + 300_000, sweeps[n + 1].now, sweeps[n + 1].probe.NotAnEngine?))
  {
    assert tr[n + 1] == Step(tr[n], sweeps[n]) && tr[n + 2] == Step(tr[n + 1], sweeps[n + 1]);
  }

  // ----- what a recheck costs -------------------------------------------

  /** Sweep `i` asks a backend written off by deadline once more. */
  ghost predicate RecheckedAt(tr: seq<Option<Detected>>, sweeps: seq<Sighting>, i: nat)
    requires Run(tr, sweeps) && i < |sweeps|
  {
    AskedAt(tr, sweeps, i) && tr[i].Some? && tr[i].value.NoMetrics?
  }

  ghost function Rechecks(tr: seq<Option<Detected>>, sweeps: seq<Sighting>, n: nat): nat
    requires Run(tr, sweeps) && n <= |sweeps|
  {
    if n == 0 then 0 else Rechecks(tr, sweeps, n - 1) + (if RecheckedAt(tr, sweeps, n - 1) then 1 else 0)
  }

  /** Every recheck buys at most one more round of four. */
  lemma {:induction false} FourProbesPerRecheck(tr: seq<Option<Detected>>, sweeps: seq<Sighting>, n: nat)
    requires Run(tr, sweeps) && n <= |sweeps| && forall i :: 0 <= i < n ==> !sweeps[i].probe.Parsed?
    ensures Probes(tr, sweeps, n) <= 4 * Rechecks(tr, sweeps, n) + RoundProbes(tr, sweeps, n) <= 4 * (1 + Rechecks(tr, sweeps, n))
    ensures tr[n].None? <==> Probes(tr, sweeps, n) == 0
  {
    FourProbesSettleARound(tr, sweeps, n);
    if n > 0 {
      FourProbesSettleARound(tr, sweeps, n - 1);
      FourProbesPerRecheck(tr, sweeps, n - 1);
    }
  }

  /** While a retry is pending, nothing is asked before it is due. */
  lemma {:induction false} RetryWaits(tr: seq<Option<Detected>>, sweeps: seq<Sighting>, i: nat, j: nat)
    requires Run(tr, sweeps) && i <= j <= |sweeps| && tr[i].Some? && tr[i].value.Retry?
    requires forall k :: i <= k < j ==> !AskedAt(tr, sweeps, k)
    ensures tr[j] == tr[i]
  {
    if i < j {
      RetryWaits(tr, sweeps, i, j - 1);
      assert !AskedAt(tr, sweeps, j - 1);
    }
  }

  lemma {:induction false} FirstAsked(tr: seq<Option<Detected>>, sweeps: seq<Sighting>, i: nat, j: nat) returns (k: nat)
    requires Run(tr, sweeps) && i <= j < |sweeps| && AskedAt(tr, sweeps, j)
    ensures i <= k <= j && AskedAt(tr, sweeps, k) && forall l :: i <= l < k ==> !AskedAt(tr, sweeps, l)
    decreases j - i
  {
    if AskedAt(tr, sweeps, i) {
      k := i;
    } else {
      k := FirstAsked(tr, sweeps, i + 1, j);
    }
  }

  /** "One more question" holds of an unparsed recheck exactly as long as no
      later sweep comes a retry interval after it. */
  lemma RecheckIsFollowedIff(tr: seq<Option<Detected>>, sweeps: seq<Sighting>, i: nat)
    requires Run(tr, sweeps) && i < |sweeps| && RecheckedAt(tr, sweeps, i) && !sweeps[i].probe.Parsed?
    ensures (exists j :: i < j < |sweeps| && AskedAt(tr, sweeps, j)) <==>
            (exists j :: i < j < |sweeps| && sweeps[j].now >= sweeps[i].now + 300_000)
  {
    assert tr[i + 1] == Some(Retry(sweeps[i].now + RETRY_EVERY, sweeps[i].now, sweeps[i].probe.NotAnEngine?));
    if j :| i < j < |sweeps| && AskedAt(tr, sweeps, j) {
      var k := FirstAsked(tr, sweeps, i + 1, j);
      RetryWaits(tr, sweeps, i + 1, k);
    }
    if j :| i < j < |sweeps| && sweeps[j].now >= sweeps[i].now + RETRY_EVERY {
      if forall k :: i < k < j ==> !AskedAt(tr, sweeps, k) {
        RetryWaits(tr, sweeps, i + 1, j);
        assert AskedAt(tr, sweeps, j);
      }
    }
  }

  // ----- a poll without end ---------------------------------------------

  /** A backend whose health checks pass and whose metrics never answer, swept
      once per retry interval. */
  function Silent(k: nat): Sighting { Sighting(k * RETRY_EVERY, true, Unreachable, true) }

  function PollState(k: nat): Option<Detected> {
    if k == 0 then None
    else if k % 4 == 0 then Some(NoMetrics(true))
    else Some(Retry(k * RETRY_EVERY, (k - k % 4) * RETRY_EVERY, false))
  }

  lemma PollStep(k: nat)
    ensures Asked(PollState(k), Silent(k).now, true) && Step(PollState(k), Silent(k)) == PollState(k + 1)
  {
  }

  ghost function PollStates(n: nat): seq<Option<Detected>> { seq(n + 1, k requires 0 <= k => PollState(k)) }

  ghost function SilentSweeps(n: nat): seq<Sighting> { seq(n, k requires 0 <= k => Silent(k)) }

  lemma PollIsARun(n: nat)
    ensures Run(PollStates(n), SilentSweeps(n))
    ensures forall i :: 0 <= i < n ==> AskedAt(PollStates(n), SilentSweeps(n), i)
  {
    var tr, sweeps := PollStates(n), SilentSweeps(n);
    forall i | 0 <= i < |sweeps|
      ensures tr[i + 1] == Step(tr[i], sweeps[i]) && Asked(tr[i], sweeps[i].now, sweeps[i].healthyBefore)
    {
      PollStep(i);
    }
  }

  lemma {:induction false} AllAsked(tr: seq<Option<Detected>>, sweeps: seq<Sighting>, n: nat)
    requires Run(tr, sweeps) && n <= |sweeps| && forall i :: 0 <= i < n ==> AskedAt(tr, sweeps, i)
    ensures Probes(tr, sweeps, n) == n
  {
    if n > 0 {
      AllAsked(tr, sweeps, n - 1);
    }
  }

  /** The verdict does turn back into a poll: for every number there is a run
      that asks that often. */
  lemma PollingIsUnbounded(n: nat) returns (tr: seq<Option<Detected>>, sweeps: seq<Sighting>)
    ensures Run(tr, sweeps) && |sweeps| == n && Probes(tr, sweeps, n) == n
    ensures forall i :: 0 <= i < n ==> sweeps[i].probe.Unreachable?
  {
    PollIsARun(n);
    tr, sweeps := PollStates(n), SilentSweeps(n);
    AllAsked(tr, sweeps, n);
  }

  /** Written off at the fourth question, rechecked at the fifth, and asked a
      sixth time although the recheck failed. */
  lemma ARecheckIsNotTheLastQuestion() returns (tr: seq<Option<Detected>>, sweeps: seq<Sighting>)
    ensures Run(tr, sweeps) && |sweeps| == 6 && tr[4] == Some(NoMetrics(true))
    ensures RecheckedAt(tr, sweeps, 4) && !sweeps[4].probe.Parsed? && AskedAt(tr, sweeps, 5)
  {
    PollIsARun(6);
    tr, sweeps := PollStates(6), SilentSweeps(6);
  }

  // ----- the sweep ------------------------------------------------------

  type Uid = nat

  function Known(known: map<Uid, Detected>, uid: Uid): Option<Detected> {
    if uid in known then Some(known[uid]) else None
  }

  function Noted(known: map<Uid, Detected>, uid: Uid, k: Option<Detected>): map<Uid, Detected> {
    match k
    case None => known - {uid}
    case Some(d) => known[uid := d]
  }

  ghost predicate Distinct(uids: seq<Uid>) { forall i, j :: 0 <= i < j < |uids| ==> uids[i] != uids[j] }

  class Scraper {
    var known: map<Uid, Detected>

    constructor ()
      ensures known == map[]
    {
      known := map[];
    }

    /** One sweep: choose whom to ask, spend their rechecks, judge the answers.
        `seen[i]` is what this sweep finds for backend `uids[i]`. */
    method Sweep(now: nat, uids: seq<Uid>, seen: seq<Sighting>)
      requires |uids| == |seen| && Distinct(uids) && forall i :: 0 <= i < |seen| ==> seen[i].now == now
      modifies this
      ensures forall i :: 0 <= i < |uids| ==> Known(known, uids[i]) == Step(Known(old(known), uids[i]), seen[i])
      ensures forall u :: u !in uids ==> Known(known, u) == Known(old(known), u)
    {
      var asked: seq<bool> := [];
      for i := 0 to |uids|
        invariant known == old(known) && |asked| == i
        invariant forall j :: 0 <= j < i ==> asked[j] == Asked(Known(old(known), uids[j]), now, seen[j].healthyBefore)
      {
        asked := asked + [Asked(Known(known, uids[i]), now, seen[i].healthyBefore)];
      }
      for i := 0 to |uids|
        invariant forall j :: 0 <= j < i ==>
                    Known(known, uids[j]) == if asked[j] then Spent(Known(old(known), uids[j])) else Known(old(known), uids[j])
        invariant forall j :: i <= j < |uids| ==> Known(known, uids[j]) == Known(old(known), uids[j])
        invariant forall u :: u !in uids ==> Known(known, u) == Known(old(known), u)
      {
        if asked[i] && uids[i] in known && known[uids[i]].NoMetrics? {
          known := known[uids[i] := NoMetrics(false)];
        }
      }
      for i := 0 to |uids|
        invariant forall j :: 0 <= j < i ==> Known(known, uids[j]) == Step(Known(old(known), uids[j]), seen[j])
        invariant forall j :: i <= j < |uids| ==>
                    Known(known, uids[j]) == if asked[j] then Spent(Known(old(known), uids[j])) else Known(old(known), uids[j])
        invariant forall u :: u !in uids ==> Known(known, u) == Known(old(known), u)
      {
        if asked[i] {
          known := Noted(known, uids[i], Judged(Known(known, uids[i]), now, seen[i].probe, seen[i].healthyAfter));
        }
      }
    }
  }
}
