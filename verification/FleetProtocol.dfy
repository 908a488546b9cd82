/**
 Replicas, the control plane's report store, and the withdrawal of ejections
 (src/health_report.rs, src/state.rs), for one backend.

 A replica composes a report with its vote, the report reaches the store at
 some later instant, the store answers that replica with the tally of the
 reports it still believes, and the answer is acted on later still. Reports
 and answers may be lost or overtaken by local events. A vote is healthy only
 on the replica's own evidence.
 */
module FleetProtocol {
  import opened Common
  import H = Health

  type Replica = nat

  datatype Vote = Vote(healthy: bool, inflight: nat)
  datatype Report = Report(vote: Vote, at: int)
  datatype Reply = Reply(contradicts: bool, serving: bool)

  datatype Fleet = Fleet(
    ttl: int,
    clock: int,
    replicas: map<Replica, H.Health>,
    stored: map<Replica, Report>,
    outbox: map<Replica, seq<Vote>>,    // composed, not yet recorded
    inbox: map<Replica, seq<Reply>>)    // answered, not yet acted on

  // ----- the tally ------------------------------------------------------

  function Believed(f: Fleet, now: int): set<Replica> {
    set r | r in f.stored && now - f.stored[r].at < f.ttl
  }

  function HealthyVotes(f: Fleet, now: int): set<Replica> {
    set r | r in Believed(f, now) && f.stored[r].vote.healthy
  }

  /** `contradicts`, from the counts in one backend's verdict. */
  predicate Contradicts(healthy: nat, total: nat) {
    var others := SatSub(total, 1);
    others > 0 && healthy * 2 > others
  }

  predicate Serving(f: Fleet, now: int) {
    exists r | r in HealthyVotes(f, now) :: f.stored[r].vote.inflight > 0
  }

  function Verdict(f: Fleet, now: int): Reply {
    Reply(Contradicts(|HealthyVotes(f, now)|, |Believed(f, now)|), Serving(f, now))
  }

  // ----- steps ----------------------------------------------------------

  datatype Step =
    | Local(r: Replica, op: H.Op)
    | Compose(r: Replica, inflight: nat)
    | Deliver(r: Replica, now: int)
    | LoseReport(r: Replica)
    | LoseReply(r: Replica)
    | Act(r: Replica)

  predicate Can(f: Fleet, s: Step) {
    && s.r in f.replicas && s.r in f.outbox && s.r in f.inbox
    && match s
       case Local(_, op) => !op.Withdraw?
       case Compose(_, _) => true
       case Deliver(r, now) => f.outbox[r] != [] && now >= f.clock
       case LoseReport(r) => f.outbox[r] != []
       case LoseReply(r) => f.inbox[r] != []
       case Act(r) => f.inbox[r] != []
  }

  /** The store with `r`'s oldest report recorded, before it answers. */
  function Recorded(f: Fleet, r: Replica, now: int): Fleet
    requires r in f.outbox && f.outbox[r] != []
  {
    f.(clock := now, stored := f.stored[r := Report(f.outbox[r][0], now)],
       outbox := f.outbox[r := f.outbox[r][1..]])
  }

  function Take(f: Fleet, s: Step): Fleet
    requires Can(f, s)
  {
    match s
    case Local(r, op) => f.(replicas := f.replicas[r := H.Step(f.replicas[r], op)])
    case Compose(r, inflight) =>
      f.(outbox := f.outbox[r := f.outbox[r] + [Vote(H.ReportsHealthy(f.replicas[r]), inflight)]])
    case Deliver(r, now) =>
      Recorded(f, r, now).(inbox := f.inbox[r := f.inbox[r] + [Verdict(Recorded(f, r, now), now)]])
    case LoseReport(r) => f.(outbox := f.outbox[r := f.outbox[r][1..]])
    case LoseReply(r) => f.(inbox := f.inbox[r := f.inbox[r][1..]])
    case Act(r) =>
      f.(inbox := f.inbox[r := f.inbox[r][1..]],
         replicas := f.replicas[r := ActedOn(f.replicas[r], f.inbox[r][0])])
  }

  /** `apply_fleet_verdict` for one backend. */
  function ActedOn(h: H.Health, reply: Reply): H.Health {
    if !h.healthy && reply.contradicts then H.Reconsider(h, reply.serving).0 else h
  }

  /** Step `s` withdraws an ejection. */
  predicate Withdraws(f: Fleet, s: Step)
    requires Can(f, s)
  {
    s.Act? && !f.replicas[s.r].healthy && ActedOn(f.replicas[s.r], f.inbox[s.r][0]).healthy
  }

  /** A run in which no probe passes any more. */
  ghost predicate DeadRun(tr: seq<Fleet>, steps: seq<Step>) {
    && |tr| == |steps| + 1
    && forall i {:trigger steps[i]} :: 0 <= i < |steps| ==>
         Can(tr[i], steps[i]) && tr[i + 1] == Take(tr[i], steps[i]) && NoProbePasses(steps[i])
  }

  predicate NoProbePasses(s: Step) { s.Local? ==> !s.op.ProbePassed? }

  // ----- a vote once lost stays lost ------------------------------------

  lemma DoubtPersists(h: H.Health, op: H.Op)
    requires !H.ReportsHealthy(h) && !op.ProbePassed?
    ensures !H.ReportsHealthy(H.Step(h, op))
  {
  }

  lemma DoubtSurvivesAction(h: H.Health, reply: Reply)
    requires !H.ReportsHealthy(h)
    ensures !H.ReportsHealthy(ActedOn(h, reply))
  {
  }

  lemma StepKeepsDoubt(f: Fleet, s: Step, r: Replica)
    requires Can(f, s) && NoProbePasses(s) && r in f.replicas && !H.ReportsHealthy(f.replicas[r])
    ensures r in Take(f, s).replicas && !H.ReportsHealthy(Take(f, s).replicas[r])
  {
    if s.Local? && s.r == r {
      DoubtPersists(f.replicas[r], s.op);
    } else if s.Act? && s.r == r {
      DoubtSurvivesAction(f.replicas[r], f.inbox[r][0]);
    }
  }

  lemma {:induction false} DoubtThroughout(tr: seq<Fleet>, steps: seq<Step>, r: Replica, i: nat, j: nat)
    requires DeadRun(tr, steps) && i <= j < |tr|
    requires r in tr[i].replicas && !H.ReportsHealthy(tr[i].replicas[r])
    ensures r in tr[j].replicas && !H.ReportsHealthy(tr[j].replicas[r])
  {
    if j > i {
      DoubtThroughout(tr, steps, r, i, j - 1);
      StepKeepsDoubt(tr[j - 1], steps[j - 1], r);
    }
  }

  /** With no probe passing, a replica that has once composed an unhealthy
      vote never composes a healthy one again, however often the fleet talks
      it back into rotation. */
  lemma {:induction false} NeverVotesHealthyAgain(tr: seq<Fleet>, steps: seq<Step>, i: nat, j: nat)
    requires DeadRun(tr, steps) && i < j < |steps|
    requires steps[i].Compose? && steps[j].Compose? && steps[i].r == steps[j].r
    requires !H.ReportsHealthy(tr[i].replicas[steps[i].r])
    ensures var out := tr[j + 1].outbox[steps[j].r]; !out[|out| - 1].healthy
  {
    DoubtThroughout(tr, steps, steps[i].r, i, j);
  }

  // ----- once all are in doubt, nothing is withdrawn --------------------

  /** Every replica is in doubt, no healthy vote is on its way or still
      believed, and no contradicting answer is waiting to be acted on. */
  ghost predicate Quenched(f: Fleet) {
    && (forall r :: r in f.replicas ==> !H.ReportsHealthy(f.replicas[r]))
    && (forall r :: r in f.outbox ==> AllUnhealthy(f.outbox[r]))
    && (forall r :: r in f.stored && f.stored[r].vote.healthy ==> f.clock - f.stored[r].at >= f.ttl)
    && (forall r :: r in f.inbox ==> NoneContradicts(f.inbox[r]))
  }

  ghost predicate AllUnhealthy(votes: seq<Vote>) { forall i :: 0 <= i < |votes| ==> !votes[i].healthy }

  ghost predicate NoneContradicts(replies: seq<Reply>) { forall i :: 0 <= i < |replies| ==> !replies[i].contradicts }

  lemma NoHealthyNoContradiction(f: Fleet, now: int)
    requires HealthyVotes(f, now) == {}
    ensures !Verdict(f, now).contradicts
  {
  }

  lemma StepKeepsQuenched(f: Fleet, s: Step)
    requires Quenched(f) && Can(f, s) && NoProbePasses(s)
    ensures Quenched(Take(f, s)) && !Withdraws(f, s)
  {
    var f' := Take(f, s);
    forall r | r in f'.replicas
      ensures !H.ReportsHealthy(f'.replicas[r])
    {
      StepKeepsDoubt(f, s, r);
    }
    if s.Deliver? {
      var recorded := Recorded(f, s.r, s.now);
      assert HealthyVotes(recorded, s.now) == {};
      NoHealthyNoContradiction(recorded, s.now);
    }
  }

  /** Replicas cannot talk each other out of a dead backend: from a quenched
      state no step of any run without a passing probe withdraws an ejection. */
  lemma {:induction false} NothingIsWithdrawn(tr: seq<Fleet>, steps: seq<Step>, n: nat)
    requires DeadRun(tr, steps) && Quenched(tr[0]) && n < |steps|
    ensures Quenched(tr[n]) && !Withdraws(tr[n], steps[n])
  {
    if n > 0 {
      NothingIsWithdrawn(tr, steps, n - 1);
      StepKeepsQuenched(tr[n - 1], steps[n - 1]);
    }
    StepKeepsQuenched(tr[n], steps[n]);
  }

  // ----- and exactly then -----------------------------------------------

  /** Nothing on its way and every vote the store still believes unhealthy. */
  ghost predicate Settled(f: Fleet) {
    && f.outbox.Keys == f.inbox.Keys == f.replicas.Keys && f.stored.Keys <= f.replicas.Keys
    && (forall r :: r in f.outbox ==> f.outbox[r] == [])
    && (forall r :: r in f.inbox ==> f.inbox[r] == [])
    && (forall r :: r in f.stored ==> f.stored[r].at <= f.clock)
    && (forall r :: r in Believed(f, f.clock) ==> !f.stored[r].vote.healthy)
  }

  /** One replica that has never doubted is enough: once the other votes have
      aged out, its report makes a majority of one and a sibling withdraws. */
  lemma OneOptimistSuffices(f: Fleet, doubter: Replica, optimist: Replica)
      returns (tr: seq<Fleet>, steps: seq<Step>)
    requires Settled(f) && f.ttl > 0 && doubter in f.replicas && optimist in f.replicas
    requires !f.replicas[doubter].healthy && H.ReportsHealthy(f.replicas[optimist])
    ensures DeadRun(tr, steps) && tr[0] == f && |steps| == 5 && Withdraws(tr[4], steps[4])
  {
    hide Verdict, H.Step;
    var late := f.clock + f.ttl;
    var f1 := Take(f, Compose(optimist, 1));
    var f2 := Take(f1, Deliver(optimist, late));
    var f3 := Take(f2, Compose(doubter, 0));
    var f4 := Take(f3, Deliver(doubter, late));
    OnlyTheTwo(f, Recorded(f3, doubter, late), doubter, optimist, late);
    assert f4.inbox[doubter] == [Reply(true, true)];
    var f5 := Take(f4, Act(doubter));
    steps := [Compose(optimist, 1), Deliver(optimist, late), Compose(doubter, 0), Deliver(doubter, late), Act(doubter)];
    tr := [f, f1, f2, f3, f4, f5];
  }

  /** Only the two fresh reports are believed; one of them is healthy and busy. */
  lemma OnlyTheTwo(f: Fleet, g: Fleet, doubter: Replica, optimist: Replica, late: int)
    requires f.ttl > 0 && late == f.clock + f.ttl && doubter != optimist && g.ttl == f.ttl
    requires forall r :: r in f.stored ==> f.stored[r].at <= f.clock
    requires g.stored == f.stored[optimist := Report(Vote(true, 1), late)][doubter := Report(Vote(false, 0), late)]
    ensures Verdict(g, late) == Reply(true, true)
  {
    assert Believed(g, late) == {doubter, optimist};
    assert HealthyVotes(g, late) == {optimist};
    assert g.stored[optimist].vote.inflight > 0;
  }

  // ----- with nobody to disagree ----------------------------------------

  /** At most one replica, or reports that are never believed. */
  ghost predicate Mute(f: Fleet) {
    && (f.ttl <= 0 || forall r, q :: r in f.replicas && q in f.replicas ==> r == q)
    && f.stored.Keys <= f.replicas.Keys
    && (forall r :: r in f.stored ==> f.stored[r].at <= f.clock)
    && (forall r :: r in f.inbox ==> NoneContradicts(f.inbox[r]))
  }

  lemma MuteVerdict(f: Fleet, r: Replica)
    requires r in f.replicas && f.stored.Keys <= f.replicas.Keys && forall q :: q in f.stored ==> f.stored[q].at <= f.clock
    requires f.ttl <= 0 || forall p, q :: p in f.replicas && q in f.replicas ==> p == q
    ensures !Verdict(f, f.clock).contradicts
  {
    var believed := Believed(f, f.clock);
    assert believed <= {r};
    assert believed == {} || believed == {r};
  }

  lemma StepKeepsMute(f: Fleet, s: Step)
    requires Mute(f) && Can(f, s)
    ensures Mute(Take(f, s)) && !Withdraws(f, s)
  {
    if s.Deliver? {
      MuteVerdict(Recorded(f, s.r, s.now), s.r);
    }
  }

  lemma {:induction false} MuteThroughout(tr: seq<Fleet>, steps: seq<Step>, n: nat)
    requires DeadRun(tr, steps) && Mute(tr[0]) && n < |steps|
    ensures Mute(tr[n]) && !Withdraws(tr[n], steps[n])
  {
    if n > 0 {
      MuteThroughout(tr, steps, n - 1);
      StepKeepsMute(tr[n - 1], steps[n - 1]);
    }
    StepKeepsMute(tr[n], steps[n]);
  }

  // ----- exactly when a withdrawal is still possible --------------------

  /** A replica still in rotation can leave it by a missed probe. */
  lemma MissedProbe(f: Fleet, doubter: Replica, optimist: Replica)
    requires Settled(f) && doubter in f.replicas && optimist in f.replicas && doubter != optimist
    ensures var s := Local(doubter, H.ProbeMissed(1, 0));
            && Can(f, s) && NoProbePasses(s) && Settled(Take(f, s)) && Take(f, s).ttl == f.ttl
            && doubter in Take(f, s).replicas && optimist in Take(f, s).replicas
            && !Take(f, s).replicas[doubter].healthy && Take(f, s).replicas[optimist] == f.replicas[optimist]
  {
  }

  lemma Prepended(f: Fleet, s: Step, tr: seq<Fleet>, steps: seq<Step>)
    requires Can(f, s) && NoProbePasses(s) && DeadRun(tr, steps) && tr[0] == Take(f, s)
    ensures DeadRun([f] + tr, [s] + steps)
  {
    forall i | 0 <= i < |[s] + steps|
      ensures var x, y := ([f] + tr)[i], ([s] + steps)[i];
              Can(x, y) && ([f] + tr)[i + 1] == Take(x, y) && NoProbePasses(y)
    {
      if i > 0 {
        assert ([s] + steps)[i] == steps[i - 1];
      }
    }
  }

  /** Whether an ejection can ever be withdrawn again from a settled state is
      exactly whether reports are believed at all, some replica is not yet in
      doubt and there is another to ask: every live vote being unhealthy is not
      enough. */
  lemma WithdrawalPossibleIff(f: Fleet)
    requires Settled(f)
    ensures (exists tr, steps, n: nat :: DeadRun(tr, steps) && tr[0] == f && n < |steps| && Withdraws(tr[n], steps[n])) <==>
            f.ttl > 0 && exists r, q :: r in f.replicas && q in f.replicas && r != q && H.ReportsHealthy(f.replicas[r])
  {
    hide Settled, Take, Can, Withdraws;
    if f.ttl > 0 && exists r, q :: r in f.replicas && q in f.replicas && r != q && H.ReportsHealthy(f.replicas[r]) {
      var r, q :| r in f.replicas && q in f.replicas && r != q && H.ReportsHealthy(f.replicas[r]);
      var s := Local(q, H.ProbeMissed(1, 0));
      MissedProbe(f, q, r);
      var tr, steps := OneOptimistSuffices(Take(f, s), q, r);
      Prepended(f, s, tr, steps);
      var tr', steps' := [f] + tr, [s] + steps;
      assert tr'[5] == tr[4] && steps'[5] == steps[4];
      assert DeadRun(tr', steps') && tr'[0] == f && 5 < |steps'| && Withdraws(tr'[5], steps'[5]);
    } else {
      QuenchedOrMute(f);
      forall tr, steps, n: nat | DeadRun(tr, steps) && tr[0] == f && n < |steps|
        ensures !Withdraws(tr[n], steps[n])
      {
        if Mute(f) {
          MuteThroughout(tr, steps, n);
        } else {
          NothingIsWithdrawn(tr, steps, n);
        }
      }
    }
  }

  lemma QuenchedOrMute(f: Fleet)
    requires Settled(f)
    requires !(f.ttl > 0 && exists r, q :: r in f.replicas && q in f.replicas && r != q && H.ReportsHealthy(f.replicas[r]))
    ensures Quenched(f) || Mute(f)
  {
    assert forall r :: r in f.stored && f.stored[r].vote.healthy ==> r !in Believed(f, f.clock);
    if r :| r in f.replicas && H.ReportsHealthy(f.replicas[r]) {
      assert f.ttl <= 0 || forall q :: q in f.replicas ==> q == r;
      assert Mute(f);
    }
  }

  // ----- what a withdrawal rests on -------------------------------------

  /** Any run, probes passing or not. */
  ghost predicate FleetRun(tr: seq<Fleet>, steps: seq<Step>) {
    && |tr| == |steps| + 1
    && forall i {:trigger steps[i]} :: 0 <= i < |steps| ==> Can(tr[i], steps[i]) && tr[i + 1] == Take(tr[i], steps[i])
  }

  /** The reply was given at step `i`, to a report of `r` recorded then. */
  ghost predicate GivenAt(tr: seq<Fleet>, steps: seq<Step>, i: int, r: Replica, reply: Reply)
    requires FleetRun(tr, steps)
  {
    && 0 <= i < |steps| && steps[i].Deliver? && steps[i].r == r
    && r in tr[i].outbox && tr[i].outbox[r] != []
    && reply == Verdict(Recorded(tr[i], r, steps[i].now), steps[i].now)
  }

  ghost predicate Given(tr: seq<Fleet>, steps: seq<Step>, n: nat, r: Replica, reply: Reply)
    requires FleetRun(tr, steps)
  {
    exists i :: i < n && GivenAt(tr, steps, i, r, reply)
  }

  ghost predicate Sourced(tr: seq<Fleet>, steps: seq<Step>, n: nat, r: Replica, replies: seq<Reply>)
    requires FleetRun(tr, steps)
  {
    forall k :: 0 <= k < |replies| ==> Given(tr, steps, n, r, replies[k])
  }

  lemma {:induction false} RepliesAreSourced(tr: seq<Fleet>, steps: seq<Step>, n: nat, r: Replica)
    requires FleetRun(tr, steps) && n <= |steps| && forall q :: q in tr[0].inbox ==> tr[0].inbox[q] == []
    ensures r in tr[n].inbox ==> Sourced(tr, steps, n, r, tr[n].inbox[r])
  {
    if n > 0 {
      hide Verdict, H.Step;
      var m := n - 1;
      RepliesAreSourced(tr, steps, m, r);
      assert Can(tr[m], steps[m]) && tr[n] == Take(tr[m], steps[m]);
      if r in tr[n].inbox {
        forall k | 0 <= k < |tr[n].inbox[r]|
          ensures Given(tr, steps, n, r, tr[n].inbox[r][k])
        {
          if steps[m].Deliver? && steps[m].r == r && k == |tr[m].inbox[r]| {
            assert GivenAt(tr, steps, m, r, tr[n].inbox[r][k]);
          } else {
            var was := if tr[n].inbox[r] == tr[m].inbox[r] || steps[m].Deliver? then k else k + 1;
            assert tr[n].inbox[r][k] == tr[m].inbox[r][was];
            assert Given(tr, steps, m, r, tr[m].inbox[r][was]);
          }
        }
      }
    }
  }

  /** In any run, an ejection is withdrawn only on a reply whose tally had a strict
      majority of the other believed replicas healthy, and a traffic ejection only
      if one of the believed healthy votes had work in flight. */
  lemma {:induction false} WithdrawalRestsOnVotes(tr: seq<Fleet>, steps: seq<Step>, n: nat)
    requires FleetRun(tr, steps) && n < |steps| && (forall q :: q in tr[0].inbox ==> tr[0].inbox[q] == [])
    requires Can(tr[n], steps[n]) && Withdraws(tr[n], steps[n])
    ensures exists i, reply ::
              && 0 <= i < n && GivenAt(tr, steps, i, steps[n].r, reply)
              && var f, now := Recorded(tr[i], steps[n].r, steps[i].now), steps[i].now;
              && |HealthyVotes(f, now)| * 2 > |Believed(f, now)| - 1 > 0
              && (tr[n].replicas[steps[n].r].byTraffic ==>
                    exists q :: q in f.stored && now - f.stored[q].at < f.ttl && f.stored[q].vote.healthy && f.stored[q].vote.inflight > 0)
  {
    var r := steps[n].r;
    RepliesAreSourced(tr, steps, n, r);
    var reply := tr[n].inbox[r][0];
    assert Given(tr, steps, n, r, reply);
    var i :| i < n && GivenAt(tr, steps, i, r, reply);
    assert reply.contradicts && (tr[n].replicas[r].byTraffic ==> reply.serving);
  }
}
