/**
 The two nested failover loops of `proxy_request` (src/proxy.rs): across the
 backends of one model, then across the models of the authorised chain.

 Everything the loops cannot decide themselves is read from a `Script`: for
 each model and turn, the router's preference, whether the request could be
 prepared, the gate's answer, what the upstream did and whether the retry
 budget allows another try. A statement for every script is a statement for
 every sequence of outcomes.
 */
module Failover {
  import opened Common
  import opened Admission

  type Uid = nat
  datatype Candidate = Candidate(model: string, pool: seq<Uid>)

  datatype AtGate = Ungated | Admits | Refuses(why: Rejected)
  datatype Upstream = HeadersTimeout | Answered(status: nat) | Broken

  datatype Turn = Turn(
    pick: Option<Uid>,
    prepared: bool,
    gate: AtGate,
    upstream: Upstream,
    budget: bool)

  type Script = (nat, nat) -> Turn

  /** What `last_error` describes. Different templates are different texts. */
  datatype Failure =
    | Saturated(uid: Uid, why: Rejected)
    | NoHeaders(uid: Uid)
    | Returned(uid: Uid, status: nat)
    | ModelReturned(uid: Uid, status: nat, model: string)
    | Unreachable(uid: Uid)

  /** One pass of the inner loop that picked a backend. */
  datatype Attempt = Attempt(index: nat, turn: nat, uid: Uid, sent: bool)

  datatype Outcome =
    | Committed(uid: Uid, status: nat)     // this upstream's response goes to the client
    | Unprepared                           // the request could not be rewritten, translated or built
    | Forwarded                            // a sibling replica answered
    | Overloaded(why: Rejected)            // 503 with Retry-After
    | BadGateway(detail: Option<Failure>)  // 502

  /** The loops' variables and what they leave behind. */
  datatype Books = Books(
    log: seq<Attempt>,
    failures: seq<Failure>,                // every value `last_error` took
    saturated: Option<Failure>,            // the refusal kept beside it
    guards: multiset<Uid>,                 // live in-flight guards
    permits: multiset<Uid>)                // live admission permits

  predicate Retryable(status: nat) { 500 <= status < 600 || status == 429 }

  predicate HasCandidate(pool: seq<Uid>, tried: seq<Uid>) {
    exists u | u in pool :: u !in tried
  }

  predicate Usable(preferred: Option<Uid>, pool: seq<Uid>, tried: seq<Uid>) {
    preferred.Some? && preferred.value in pool && preferred.value !in tried
  }

  function FirstUntried(pool: seq<Uid>, tried: seq<Uid>): Option<Uid> {
    if pool == [] then None
    else if pool[0] !in tried then Some(pool[0])
    else FirstUntried(pool[1..], tried)
  }

  /** The router's choice; on the last model an ejected backend will do. */
  function Pick(pool: seq<Uid>, tried: seq<Uid>, preferred: Option<Uid>, more: bool): Option<Uid> {
    if Usable(preferred, pool, tried) then preferred
    else if more then None
    else FirstUntried(pool, tried)
  }

  lemma {:induction false} FirstUntriedIsUntried(pool: seq<Uid>, tried: seq<Uid>)
    ensures var f := FirstUntried(pool, tried);
            (f.Some? ==> f.value in pool && f.value !in tried) && (f.None? <==> !HasCandidate(pool, tried))
  {
    if pool != [] {
      assert pool == [pool[0]] + pool[1..];
      if pool[0] in tried {
        FirstUntriedIsUntried(pool[1..], tried);
        assert HasCandidate(pool, tried) ==> HasCandidate(pool[1..], tried);
      }
    }
  }

  // ----- what the log promises ------------------------------------------

  /** The backends tried for the model at `index`, in order. */
  ghost function Tried(log: seq<Attempt>, index: nat): seq<Uid> {
    if log == [] then [] else
      var last, rest := log[|log| - 1], Tried(log[..|log| - 1], index);
      if last.index == index then rest + [last.uid] else rest
  }

  lemma TriedAppended(log: seq<Attempt>, a: Attempt, index: nat)
    ensures Tried(log + [a], index) == if a.index == index then Tried(log, index) + [a.uid] else Tried(log, index)
  {
    assert (log + [a])[..|log|] == log;
  }

  predicate Sent(turn: Turn) { turn.prepared && !turn.gate.Refuses? }

  /** The turn before `turn`, if it dispatched, was allowed another. */
  predicate Granted(script: Script, index: nat, turn: nat) {
    turn > 0 && Sent(script(index, turn - 1)) ==> script(index, turn - 1).budget
  }

  /** One authorised attempt: a backend of an authorised model, not yet tried
      for it, within the model's `max_retries + 1` turns, and after a dispatch
      only with the retry budget's leave. It is the router's choice where that is
      an untried backend of the pool; only the last model goes past it. */
  ghost predicate LawfulAttempt(before: seq<Attempt>, a: Attempt, chain: seq<Candidate>, maxRetries: nat, script: Script) {
    var tried := Tried(before, a.index);
    && a.index < |chain| && a.uid in chain[a.index].pool && a.uid !in tried
    && a.turn == |tried| <= maxRetries
    && a.sent == Sent(script(a.index, a.turn))
    && Granted(script, a.index, a.turn)
    && (var pick := script(a.index, a.turn).pick;
        if pick.Some? && pick.value in chain[a.index].pool && pick.value !in tried then a.uid == pick.value
        else a.index + 1 == |chain|)
    && (forall j :: 0 <= j < |before| ==> before[j].index <= a.index)
  }

  ghost predicate Lawful(log: seq<Attempt>, chain: seq<Candidate>, maxRetries: nat, script: Script) {
    forall k :: 0 <= k < |log| ==> LawfulAttempt(log[..k], log[k], chain, maxRetries, script)
  }

  lemma LawfulAppended(log: seq<Attempt>, a: Attempt, chain: seq<Candidate>, maxRetries: nat, script: Script)
    requires Lawful(log, chain, maxRetries, script) && LawfulAttempt(log, a, chain, maxRetries, script)
    ensures Lawful(log + [a], chain, maxRetries, script)
  {
    forall k | 0 <= k < |log + [a]|
      ensures LawfulAttempt((log + [a])[..k], (log + [a])[k], chain, maxRetries, script)
    {
      assert (log + [a])[..k] == log[..k];
      assert log[..|log|] == log;
    }
  }

  lemma {:induction false} TriedHolds(log: seq<Attempt>, j: nat)
    requires j < |log|
    ensures log[j].uid in Tried(log, log[j].index)
  {
    if j < |log| - 1 {
      TriedHolds(log[..|log| - 1], j);
    }
  }

  /** What a lawful log amounts to: models in chain order, no backend twice
      within a model. */
  lemma NoBackendTwice(log: seq<Attempt>, chain: seq<Candidate>, maxRetries: nat, script: Script, j: nat, k: nat)
    requires Lawful(log, chain, maxRetries, script) && j < k < |log|
    ensures log[j].index <= log[k].index
    ensures log[j].index == log[k].index ==> log[j].uid != log[k].uid && log[j].turn < log[k].turn
  {
    assert LawfulAttempt(log[..k], log[k], chain, maxRetries, script);
    assert log[..k][j] == log[j];
    TriedHolds(log[..k], j);
    assert LawfulAttempt(log[..j], log[j], chain, maxRetries, script);
    TriedGrows(log, j, k, log[j].index);
  }

  lemma {:induction false} TriedGrows(log: seq<Attempt>, j: nat, k: nat, index: nat)
    requires j < k <= |log|
    ensures |Tried(log[..k], index)| >= |Tried(log[..j], index)| + (if log[j].index == index then 1 else 0)
  {
    assert log[..k] == log[..k - 1] + [log[k - 1]];
    TriedAppended(log[..k - 1], log[k - 1], index);
    if j < k - 1 {
      TriedGrows(log, j, k - 1, index);
    }
  }

  /** At most `max_retries + 1` attempts, so dispatches, per model; none for a
      model outside the chain. */
  lemma {:induction false} AttemptsPerModel(log: seq<Attempt>, chain: seq<Candidate>, maxRetries: nat, script: Script, index: nat)
    requires Lawful(log, chain, maxRetries, script)
    ensures |Tried(log, index)| <= maxRetries + 1
    ensures |chain| <= index ==> Tried(log, index) == []
  {
    if log != [] {
      var rest := log[..|log| - 1];
      assert forall k :: 0 <= k < |rest| ==> rest[..k] == log[..k] && rest[k] == log[k];
      assert LawfulAttempt(rest, log[|log| - 1], chain, maxRetries, script);
      AttemptsPerModel(rest, chain, maxRetries, script, index);
    }
  }

  /** The recorded failure is what the turn really did. Only a caller with nowhere
      else to go waits at the gate, so only then is its answer not `Full`; only a
      server error or a 429 is a failure of an upstream that answered. */
  ghost predicate Explains(f: Failure, a: Attempt, tried: seq<Uid>, chain: seq<Candidate>, script: Script)
    requires a.index < |chain|
  {
    var turn := script(a.index, a.turn);
    && turn.prepared && f.uid == a.uid && (a.sent <==> !f.Saturated?)
    && match f
       case Saturated(_, why) => turn.gate.Refuses? && why == (if HasCandidate(chain[a.index].pool, tried) then Full else turn.gate.why)
       case NoHeaders(_) => turn.upstream.HeadersTimeout?
       case Unreachable(_) => turn.upstream.Broken?
       case Returned(_, status) => turn.upstream == Answered(status) && (status / 100 == 5 || status == 429)
       case ModelReturned(_, status, model) =>
         turn.upstream == Answered(status) && (status / 100 == 5 || status == 429) && model == chain[a.index].model
  }

  ghost predicate Explained(b: Books, chain: seq<Candidate>, script: Script) {
    && |b.failures| <= |b.log|
    && forall k :: 0 <= k < |b.failures| ==> b.log[k].index < |chain| && Explains(b.failures[k], b.log[k], Tried(b.log[..k + 1], b.log[k].index), chain, script)
  }

  /** A model is left only when nothing more could be tried: its turns are used
      up, every backend was tried, the retry budget refused, or (with another
      model to go to) the router had no healthy untried backend. */
  ghost predicate Exhausted(log: seq<Attempt>, chain: seq<Candidate>, index: nat, maxRetries: nat, script: Script)
    requires index < |chain|
  {
    var tried, pool := Tried(log, index), chain[index].pool;
    || |tried| == maxRetries + 1
    || !HasCandidate(pool, tried)
    || (|tried| > 0 && !script(index, |tried| - 1).budget)
    || (index + 1 < |chain| && !Usable(script(index, |tried|).pick, pool, tried))
  }

  /** The kept refusal is a refusal, and the latest failure if that is one. */
  ghost predicate RefusalKept(b: Books) {
    && (b.saturated.Some? ==> b.saturated.value.Saturated?)
    && (LastError(b).Some? && LastError(b).value.Saturated? ==> b.saturated == LastError(b))
  }

  function LastError(b: Books): Option<Failure> {
    if b.failures == [] then None else Some(b.failures[|b.failures| - 1])
  }

  // ----- one turn -------------------------------------------------------

  datatype Verdict = Again | NextModel | Done(outcome: Outcome)

  function Failed(b: Books, f: Failure): Books {
    b.(failures := b.failures + [f], saturated := if f.Saturated? then Some(f) else b.saturated)
  }

  /** Another backend of this model is tried: after a dispatch only with the
      budget's leave, with another model to go to only while a backend is left,
      and past an answer in hand only to a backend and a turn that are left. */
  predicate RetriesHere(turn: Turn, last: bool, more: bool, spent: bool) {
    && (Sent(turn) ==> turn.budget)
    && (more ==> !spent)
    && (Sent(turn) && turn.upstream.Answered? ==> !spent && !last)
  }

  /** This model is left. */
  predicate MovesOn(turn: Turn, last: bool, more: bool, spent: bool) {
    if !Sent(turn) then more && spent
    else if turn.upstream.Answered? then more && (last || spent || !turn.budget)
    else (more && spent) || !turn.budget
  }

  /** What a finished turn decided. */
  ghost predicate Decided(b: Books, after: Books, verdict: Verdict, a: Attempt, chain: seq<Candidate>, tried: seq<Uid>, maxRetries: nat, script: Script)
    requires a.index < |chain|
  {
    var turn, more, spent := script(a.index, a.turn), a.index + 1 < |chain|, !HasCandidate(chain[a.index].pool, tried);
    match verdict
    case Done(Unprepared) => after == b && !turn.prepared
    case Done(Committed(uid, status)) =>
      && a.sent && uid == a.uid && turn.upstream == Answered(status)
      && after == b.(guards := b.guards + multiset{uid}, permits := if turn.gate.Admits? then b.permits + multiset{uid} else b.permits)
      && (Retryable(status) ==> !more && (a.turn == maxRetries || spent || !turn.budget))
    case Done(_) => false
    case NextModel =>
      && after.failures != [] && after == Failed(b, after.failures[|after.failures| - 1])
      && Explains(after.failures[|after.failures| - 1], a, tried, chain, script)
      && MovesOn(turn, a.turn == maxRetries, more, spent)
    case Again =>
      && after.failures != [] && after == Failed(b, after.failures[|after.failures| - 1])
      && Explains(after.failures[|after.failures| - 1], a, tried, chain, script)
      && RetriesHere(turn, a.turn == maxRetries, more, spent)
  }

  /** Taken and given back again. */
  lemma DropGivesBack(live: multiset<Uid>, uid: Uid)
    ensures live + multiset{uid} - multiset{uid} == live
  {
  }

  lemma FailureDecides(b: Books, f: Failure, verdict: Verdict, a: Attempt, chain: seq<Candidate>, tried: seq<Uid>, maxRetries: nat, script: Script)
    requires a.index < |chain| && Explains(f, a, tried, chain, script) && !verdict.Done?
    requires var turn, more, spent := script(a.index, a.turn), a.index + 1 < |chain|, !HasCandidate(chain[a.index].pool, tried);
             if verdict.NextModel? then MovesOn(turn, a.turn == maxRetries, more, spent)
             else RetriesHere(turn, a.turn == maxRetries, more, spent)
    ensures Decided(b, Failed(b, f), verdict, a, chain, tried, maxRetries, script)
  {
    hide Explains, HasCandidate, MovesOn, RetriesHere;
  }

  /** The answer of a backend the request was dispatched to is judged: retry,
      move on, or hand it to the client with the guard and the permit. */
  method JudgeAnswer(b: Books, chain: seq<Candidate>, a: Attempt, tried: seq<Uid>, maxRetries: nat, script: Script)
      returns (after: Books, verdict: Verdict)
    requires a.index < |chain| && a.sent && Sent(script(a.index, a.turn)) && a.turn <= maxRetries
    ensures Decided(b, after, verdict, a, chain, tried, maxRetries, script)
  {
    var turn, uid := script(a.index, a.turn), a.uid;
    var more, candidates := a.index + 1 < |chain|, HasCandidate(chain[a.index].pool, tried);
    var guards := b.guards + multiset{uid};
    var permits := if turn.gate.Admits? then b.permits + multiset{uid} else b.permits;
    var failure;
    match turn.upstream {
      case HeadersTimeout =>
        failure := NoHeaders(uid);
        verdict := if (!candidates && more) || !turn.budget then NextModel else Again;
      case Broken =>
        failure := Unreachable(uid);
        verdict := if (!candidates && more) || !turn.budget then NextModel else Again;
      case Answered(status) =>
        if Retryable(status) && a.turn < maxRetries && candidates && turn.budget {
          failure := Returned(uid, status);
          verdict := Again;
        } else if Retryable(status) && more {
          failure := ModelReturned(uid, status, chain[a.index].model);
          verdict := NextModel;
        } else {
          return b.(guards := guards, permits := permits), Done(Committed(uid, status));
        }
    }
    FailureDecides(b, failure, verdict, a, chain, tried, maxRetries, script);
    var dropped := b.(guards := guards - multiset{uid}, permits := if turn.gate.Admits? then permits - multiset{uid} else permits);
    assert dropped == b by {
      DropGivesBack(b.guards, uid);
      DropGivesBack(b.permits, uid);
    }
    after := Failed(dropped, failure);
  }

  /** A picked backend is prepared for, admitted and dispatched to. The guard
      lives from before the gate until it is dropped or moved into the response;
      `tried` already holds the backend. */
  method TakeTurn(b: Books, chain: seq<Candidate>, a: Attempt, tried: seq<Uid>, maxRetries: nat, script: Script)
      returns (after: Books, verdict: Verdict)
    requires a.index < |chain| && a.sent == Sent(script(a.index, a.turn)) && a.turn <= maxRetries
    ensures Decided(b, after, verdict, a, chain, tried, maxRetries, script)
  {
    var turn, uid := script(a.index, a.turn), a.uid;
    if !turn.prepared {
      return b, Done(Unprepared);
    }
    if turn.gate.Refuses? {
      var more, candidates := a.index + 1 < |chain|, HasCandidate(chain[a.index].pool, tried);
      var guards, failure := b.guards + multiset{uid}, Saturated(uid, if candidates then Full else turn.gate.why);
      verdict := if !candidates && more then NextModel else Again;
      FailureDecides(b, failure, verdict, a, chain, tried, maxRetries, script);
      DropGivesBack(b.guards, uid);
      after := Failed(b.(guards := guards - multiset{uid}), failure);
      return after, verdict;
    }
    after, verdict := JudgeAnswer(b, chain, a, tried, maxRetries, script);
  }

  // ----- one model ------------------------------------------------------

  /** What holds between turns: every attempt so far failed, for the reason on
      record, and gave back its guard and permit. */
  ghost predicate Between(b: Books, chain: seq<Candidate>, maxRetries: nat, script: Script, guards: multiset<Uid>, permits: multiset<Uid>) {
    && Lawful(b.log, chain, maxRetries, script)
    && Explained(b, chain, script) && |b.failures| == |b.log|
    && RefusalKept(b)
    && b.guards == guards && b.permits == permits
  }

  /** What holds once a turn has answered. */
  ghost predicate HasAnswered(b: Books, outcome: Outcome, chain: seq<Candidate>, maxRetries: nat, script: Script, guards: multiset<Uid>, permits: multiset<Uid>) {
    && Lawful(b.log, chain, maxRetries, script)
    && Explained(b, chain, script) && |b.failures| + 1 == |b.log|
    && var a := b.log[|b.log| - 1];
    && a.index < |chain|
    && var turn := script(a.index, a.turn);
    match outcome
    case Unprepared => !turn.prepared && b.guards == guards && b.permits == permits
    case Committed(uid, status) =>
      && a.sent && uid == a.uid && turn.upstream == Answered(status)
      && b.guards == guards + multiset{uid}
      && b.permits == (if turn.gate.Admits? then permits + multiset{uid} else permits)
      && (status / 100 == 5 || status == 429 ==>
            && a.index + 1 == |chain|
            && (a.turn == maxRetries || !HasCandidate(chain[a.index].pool, Tried(b.log, a.index)) || !turn.budget))
    case _ => false
  }

  lemma FailureExplained(b: Books, a: Attempt, f: Failure, chain: seq<Candidate>, script: Script)
    requires Explained(b, chain, script) && |b.failures| == |b.log|
    requires a.index < |chain| && Explains(f, a, Tried(b.log + [a], a.index), chain, script)
    ensures Explained(Failed(b.(log := b.log + [a]), f), chain, script)
  {
    hide Explains, Tried;
    var after := Failed(b.(log := b.log + [a]), f);
    forall k | 0 <= k < |after.failures|
      ensures after.log[k].index < |chain|
      ensures Explains(after.failures[k], after.log[k], Tried(after.log[..k + 1], after.log[k].index), chain, script)
    {
      if k < |b.failures| {
        assert after.log[..k + 1] == b.log[..k + 1];
        assert b.log[k].index < |chain|;
      } else {
        assert after.log[..k + 1] == b.log + [a];
      }
    }
  }

  lemma AnswerExplained(b: Books, a: Attempt, guards: multiset<Uid>, permits: multiset<Uid>, chain: seq<Candidate>, script: Script)
    requires Explained(b, chain, script) && |b.failures| == |b.log|
    ensures Explained(b.(log := b.log + [a], guards := guards, permits := permits), chain, script)
  {
    hide Explains, Tried;
    var log := b.log + [a];
    forall k | 0 <= k < |b.failures|
      ensures log[k].index < |chain| && Explains(b.failures[k], log[k], Tried(log[..k + 1], log[k].index), chain, script)
    {
      assert log[..k + 1] == b.log[..k + 1];
      assert b.log[k].index < |chain|;
    }
  }

  lemma TurnFailed(b: Books, a: Attempt, after: Books, verdict: Verdict, chain: seq<Candidate>, maxRetries: nat, script: Script, guards: multiset<Uid>, permits: multiset<Uid>)
    requires Between(b, chain, maxRetries, script, guards, permits) && LawfulAttempt(b.log, a, chain, maxRetries, script)
    requires Decided(b.(log := b.log + [a]), after, verdict, a, chain, Tried(b.log, a.index) + [a.uid], maxRetries, script)
    requires !verdict.Done?
    ensures Between(after, chain, maxRetries, script, guards, permits)
    ensures after.log == b.log + [a]
    ensures verdict.NextModel? ==> Exhausted(after.log, chain, a.index, maxRetries, script)
    ensures verdict.Again? ==> Granted(script, a.index, a.turn + 1)
  {
    assert a.index < |chain| && a.turn == |Tried(b.log, a.index)| && a.sent == Sent(script(a.index, a.turn));
    hide Lawful, LawfulAttempt, Explained, Explains, HasCandidate, Tried, Usable;
    TriedAppended(b.log, a, a.index);
    FailureExplained(b, a, after.failures[|after.failures| - 1], chain, script);
    LawfulAppended(b.log, a, chain, maxRetries, script);
  }

  lemma TurnAnswered(b: Books, a: Attempt, after: Books, outcome: Outcome, chain: seq<Candidate>, maxRetries: nat, script: Script, guards: multiset<Uid>, permits: multiset<Uid>)
    requires Between(b, chain, maxRetries, script, guards, permits) && LawfulAttempt(b.log, a, chain, maxRetries, script)
    requires Decided(b.(log := b.log + [a]), after, Done(outcome), a, chain, Tried(b.log, a.index) + [a.uid], maxRetries, script)
    ensures HasAnswered(after, outcome, chain, maxRetries, script, guards, permits)
    ensures after.log == b.log + [a]
  {
    hide Lawful, Explained, Explains, HasCandidate;
    AnswerExplained(b, a, after.guards, after.permits, chain, script);
    LawfulAppended(b.log, a, chain, maxRetries, script);
    TriedAppended(b.log, a, a.index);
  }

  ghost predicate UpTo(log: seq<Attempt>, index: int) {
    forall k :: 0 <= k < |log| ==> log[k].index <= index
  }

  /** Nothing is changed for the models before `index`. */
  ghost predicate KeepsEarlier(before: seq<Attempt>, log: seq<Attempt>, index: nat) {
    forall i: nat | i < index :: Tried(log, i) == Tried(before, i)
  }

  lemma EarlierKept(before: seq<Attempt>, log: seq<Attempt>, a: Attempt)
    requires KeepsEarlier(before, log, a.index)
    ensures KeepsEarlier(before, log + [a], a.index)
  {
    forall i: nat | i < a.index
      ensures Tried(log + [a], i) == Tried(before, i)
    {
      TriedAppended(log, a, i);
    }
  }

  lemma {:induction false} UntriedAfter(log: seq<Attempt>, index: int, later: nat)
    requires UpTo(log, index) && index < later
    ensures Tried(log, later) == []
  {
    if log != [] {
      UntriedAfter(log[..|log| - 1], index, later);
    }
  }

  lemma PickIsLawful(log: seq<Attempt>, chain: seq<Candidate>, index: nat, maxRetries: nat, script: Script, picked: Option<Uid>)
    requires index < |chain| && UpTo(log, index) && |Tried(log, index)| <= maxRetries
    requires Granted(script, index, |Tried(log, index)|)
    requires var tried := Tried(log, index);
             picked == Pick(chain[index].pool, tried, script(index, |tried|).pick, index + 1 < |chain|)
    ensures var turn := |Tried(log, index)|;
            if picked.None? then Exhausted(log, chain, index, maxRetries, script)
            else LawfulAttempt(log, Attempt(index, turn, picked.value, Sent(script(index, turn))), chain, maxRetries, script)
  {
    hide Tried, HasCandidate;
    FirstUntriedIsUntried(chain[index].pool, Tried(log, index));
  }

  lemma TurnsUsedUp(log: seq<Attempt>, chain: seq<Candidate>, index: nat, maxRetries: nat, script: Script)
    requires index < |chain| && |Tried(log, index)| == maxRetries + 1
    ensures Exhausted(log, chain, index, maxRetries, script)
  {
  }

  method TryModel(b: Books, chain: seq<Candidate>, index: nat, maxRetries: nat, script: Script, guards: multiset<Uid>, permits: multiset<Uid>)
      returns (after: Books, verdict: Option<Outcome>)
    requires index < |chain| && UpTo(b.log, index - 1)
    requires Between(b, chain, maxRetries, script, guards, permits)
    ensures UpTo(after.log, index) && KeepsEarlier(b.log, after.log, index)
    ensures verdict.None? ==> Between(after, chain, maxRetries, script, guards, permits) && Exhausted(after.log, chain, index, maxRetries, script)
    ensures verdict.Some? ==> HasAnswered(after, verdict.value, chain, maxRetries, script, guards, permits)
  {
    hide Between, HasAnswered, Decided, LawfulAttempt, Exhausted, KeepsEarlier, Tried, Pick;
    var pool, more := chain[index].pool, index + 1 < |chain|;
    after := b;
    var tried: seq<Uid> := [];
    UntriedAfter(b.log, index - 1, index);
    KeepsItself(b.log, index);
    var attempt := 0;
    while attempt <= maxRetries
      invariant attempt <= maxRetries + 1 && |tried| == attempt && tried == Tried(after.log, index)
      invariant UpTo(after.log, index) && KeepsEarlier(b.log, after.log, index)
      invariant Between(after, chain, maxRetries, script, guards, permits) && Granted(script, index, attempt)
    {
      var picked := Pick(pool, tried, script(index, attempt).pick, more);
      PickIsLawful(after.log, chain, index, maxRetries, script, picked);
      if picked.None? {
        return after, None;
      }
      var before, a := after, Attempt(index, attempt, picked.value, Sent(script(index, attempt)));
      EarlierKept(b.log, before.log, a);
      TriedAppended(before.log, a, index);
      var v;
      after, v := TakeTurn(before.(log := before.log + [a]), chain, a, tried + [a.uid], maxRetries, script);
      tried := tried + [a.uid];
      if v.Done? {
        TurnAnswered(before, a, after, v.outcome, chain, maxRetries, script, guards, permits);
        return after, Some(v.outcome);
      }
      TurnFailed(before, a, after, v, chain, maxRetries, script, guards, permits);
      if v.NextModel? {
        return after, None;
      }
      attempt := attempt + 1;
    }
    TurnsUsedUp(after.log, chain, index, maxRetries, script);
    return after, None;
  }

  lemma KeepsItself(log: seq<Attempt>, index: nat)
    ensures KeepsEarlier(log, log, index)
  {
  }

  // ----- the whole request ----------------------------------------------

  ghost predicate LeftExhausted(log: seq<Attempt>, chain: seq<Candidate>, index: nat, maxRetries: nat, script: Script)
    requires index <= |chain|
  {
    forall i: nat | i < index :: Exhausted(log, chain, i, maxRetries, script)
  }

  lemma StillExhausted(before: seq<Attempt>, log: seq<Attempt>, chain: seq<Candidate>, index: nat, maxRetries: nat, script: Script)
    requires index <= |chain| && LeftExhausted(before, chain, index, maxRetries, script) && KeepsEarlier(before, log, index)
    ensures LeftExhausted(log, chain, index, maxRetries, script)
  {
    forall i: nat | i < index
      ensures Exhausted(log, chain, i, maxRetries, script)
    {
      assert Exhausted(before, chain, i, maxRetries, script) && Tried(log, i) == Tried(before, i);
    }
  }

  /** For every script the loops end; every attempt is lawful and every failure
      explained; guards and permits balance; no model is left early; and an
      unanswered request ends in 503 exactly when its last failure was a gate
      refusal. */
  method Serve(chain: seq<Candidate>, maxRetries: nat, script: Script, peerAnswers: bool, guards: multiset<Uid>, permits: multiset<Uid>)
      returns (outcome: Outcome, after: Books)
    ensures Lawful(after.log, chain, maxRetries, script) && Explained(after, chain, script)
    ensures outcome.Committed? || outcome.Unprepared? ==>
              && HasAnswered(after, outcome, chain, maxRetries, script, guards, permits)
              && LeftExhausted(after.log, chain, after.log[|after.log| - 1].index, maxRetries, script)
    ensures !outcome.Committed? && !outcome.Unprepared? ==>
              && |after.failures| == |after.log| && LeftExhausted(after.log, chain, |chain|, maxRetries, script)
              && after.guards == guards && after.permits == permits
              && EndsByLastFailure(outcome, LastError(after), peerAnswers)
  {
    hide Lawful, Explained, KeepsEarlier, LeftExhausted, Exhausted;
    after := Books([], [], None, guards, permits);
    StartsBalanced(after, chain, maxRetries, script);
    var index := 0;
    while index < |chain|
      invariant index <= |chain| && UpTo(after.log, index - 1)
      invariant Between(after, chain, maxRetries, script, guards, permits)
      invariant LeftExhausted(after.log, chain, index, maxRetries, script)
    {
      var before := after;
      var verdict;
      after, verdict := TryModel(before, chain, index, maxRetries, script, guards, permits);
      StillExhausted(before.log, after.log, chain, index, maxRetries, script);
      if verdict.Some? {
        FewerExhausted(after.log, chain, index, after.log[|after.log| - 1].index, maxRetries, script);
        return verdict.value, after;
      }
      OneMoreExhausted(after.log, chain, index, maxRetries, script);
      index := index + 1;
    }
    outcome := Ending(after, peerAnswers);
    EndingFollowsLastFailure(after, peerAnswers);
  }

  lemma StartsBalanced(b: Books, chain: seq<Candidate>, maxRetries: nat, script: Script)
    requires b.log == [] && b.failures == [] && b.saturated == None
    ensures Between(b, chain, maxRetries, script, b.guards, b.permits)
    ensures LeftExhausted(b.log, chain, 0, maxRetries, script)
  {
  }

  lemma FewerExhausted(log: seq<Attempt>, chain: seq<Candidate>, index: nat, fewer: nat, maxRetries: nat, script: Script)
    requires fewer <= index <= |chain| && LeftExhausted(log, chain, index, maxRetries, script)
    ensures LeftExhausted(log, chain, fewer, maxRetries, script)
  {
  }

  lemma OneMoreExhausted(log: seq<Attempt>, chain: seq<Candidate>, index: nat, maxRetries: nat, script: Script)
    requires index < |chain| && LeftExhausted(log, chain, index, maxRetries, script) && Exhausted(log, chain, index, maxRetries, script)
    ensures LeftExhausted(log, chain, index + 1, maxRetries, script)
  {
  }

  /** The tail of `proxy_request`: the kept refusal counts only while it is
      still what `last_error` says; a saturated chain is not handed to a sibling. */
  function Ending(b: Books, peerAnswers: bool): Outcome
    requires b.saturated.Some? ==> b.saturated.value.Saturated?
  {
    var endedSaturated := b.saturated.Some? && LastError(b) == b.saturated;
    if !endedSaturated && peerAnswers then Forwarded
    else if endedSaturated then Overloaded(b.saturated.value.why)
    else BadGateway(LastError(b))
  }

  ghost predicate EndsByLastFailure(outcome: Outcome, last: Option<Failure>, peerAnswers: bool) {
    && (outcome.Overloaded? <==> last.Some? && last.value.Saturated?)
    && (outcome.Overloaded? ==> outcome.why == last.value.why)
    && (outcome.BadGateway? ==> outcome.detail == last && !peerAnswers)
    && (outcome.Forwarded? ==> peerAnswers)
  }

  lemma EndingFollowsLastFailure(b: Books, peerAnswers: bool)
    requires RefusalKept(b)
    ensures EndsByLastFailure(Ending(b, peerAnswers), LastError(b), peerAnswers)
  {
  }
}
