/**
 How the ceiling moves: halved by a deep queue at most once per cooldown,
 raised by one slot at an empty queue, whatever the readings and whatever the
 clock does.
 */
module AdmissionPacing {
  import opened Common
  import opened Admission

  /** A reading at or above the high-water mark, with no halving on record or
      one that is ten seconds old. */
  predicate Halves(s: GateState, op: Op) {
    && op.OpObserve? && op.waiting >= s.settings.highWater
    && (s.lastHalved.Some? ==> op.now - s.lastHalved.value >= 10_000)
  }

  /** A reading of an empty queue, below the high-water mark. */
  predicate Grows(s: GateState, op: Op) { op.OpObserve? && op.waiting == 0 < s.settings.highWater }

  /** Halvings among the first `n` steps since the last restore, if any. */
  ghost function Halvings(tr: seq<GateState>, ops: seq<Op>, n: nat): nat
    requires Trace(tr, ops) && n <= |ops|
  {
    if n == 0 || ops[n - 1].OpRestoreFull? then 0
    else Halvings(tr, ops, n - 1) + (if Halves(tr[n - 1], ops[n - 1]) then 1 else 0)
  }

  /** The stamp survives every step that neither halves nor restores. */
  lemma {:induction false} StampPersists(tr: seq<GateState>, ops: seq<Op>, i: nat, j: nat)
    requires Trace(tr, ops) && i < j <= |ops|
    requires Halves(tr[i], ops[i])
    requires forall k :: i < k < j ==> !ops[k].OpRestoreFull?
    ensures tr[j].lastHalved.Some? && tr[j].lastHalved.value >= ops[i].now
  {
    StepStamp(tr[j - 1], ops[j - 1]);
    if j > i + 1 {
      StampPersists(tr, ops, i, j - 1);
    }
  }

  /** Any two halvings with no restore between them are stamped at least a
      cooldown apart, even when the instants handed in run backwards. */
  lemma {:induction false} HalvingsAreACooldownApart(tr: seq<GateState>, ops: seq<Op>, i: nat, j: nat)
    requires Trace(tr, ops) && i < j < |ops|
    requires Halves(tr[i], ops[i]) && Halves(tr[j], ops[j])
    requires forall k :: i < k < j ==> !ops[k].OpRestoreFull?
    ensures ops[j].now - ops[i].now >= 10_000
  {
    StampPersists(tr, ops, i, j);
  }

  lemma HalfOfQuotient(c: nat, p: nat)
    requires p >= 1
    ensures (c / p) / 2 == c / (2 * p)
  {
    var q, r := c / p, c % p;
    var h, b := q / 2, q % 2;
    assert c == h * (2 * p) + (b * p + r) by {
      DivMod(c, p);
      assert q * p == (2 * h + b) * p == h * (2 * p) + b * p;
    }
    assert b * p + r < 2 * p by {
      MulMono(b, 1, p);
    }
    MulMono(0, b, p);
    QuotientUnique(c, 2 * p, h, b * p + r);
  }

  /** Where one step moves the ceiling: to its half, up by one, to the
      configured maximum, or nowhere. */
  lemma StepCeiling(s: GateState, op: Op)
    requires Enabled(s, op) && 1 <= s.capacity <= Ceiling(s.settings)
    ensures Apply(s, op).capacity ==
            if op.OpRestoreFull? then Ceiling(s.settings)
            else if Halves(s, op) then Max(1, s.capacity / 2)
            else if Grows(s, op) then Min(s.capacity + 1, Ceiling(s.settings))
            else s.capacity
  {
  }

  /** The same of every step of every run. */
  lemma {:induction false} CeilingMovesExactly(tr: seq<GateState>, ops: seq<Op>, n: nat)
    requires Trace(tr, ops) && Fresh(tr[0]) && n < |ops|
    ensures tr[n + 1].capacity ==
            if ops[n].OpRestoreFull? then Ceiling(tr[0].settings)
            else if Halves(tr[n], ops[n]) then Max(1, tr[n].capacity / 2)
            else if Grows(tr[n], ops[n]) then Min(tr[n].capacity + 1, Ceiling(tr[0].settings))
            else tr[n].capacity
  {
    EveryStateBalances(tr, ops, n);
    StepCeiling(tr[n], ops[n]);
  }

  /** Halvings among steps `i` up to `n`. */
  ghost function HalvingsFrom(tr: seq<GateState>, ops: seq<Op>, i: nat, n: nat): nat
    requires Trace(tr, ops) && i <= n <= |ops|
  {
    if n == i then 0 else HalvingsFrom(tr, ops, i, n - 1) + (if Halves(tr[n - 1], ops[n - 1]) then 1 else 0)
  }

  lemma HalvedOnceMore(c: nat, h: nat)
    ensures Max(1, Max(1, c / Pow2(h)) / 2) == Max(1, c / Pow2(h + 1))
  {
    HalfOfQuotient(c, Pow2(h));
    assert Pow2(h + 1) == 2 * Pow2(h);
  }

  /** With no growth and no restore since it stood at c, `h` halvings leave the
      ceiling at exactly max(1, floor(c / 2^h)). */
  lemma {:induction false} HalvingsAreExact(tr: seq<GateState>, ops: seq<Op>, i: nat, n: nat)
    requires Trace(tr, ops) && Fresh(tr[0]) && i <= n <= |ops|
    requires forall k :: i <= k < n ==> !ops[k].OpRestoreFull? && !Grows(tr[k], ops[k])
    ensures tr[n].capacity == Max(1, tr[i].capacity / Pow2(HalvingsFrom(tr, ops, i, n)))
  {
    hide Apply, Enabled, Fresh, Halves, Grows;
    if n == i {
      EveryStateBalances(tr, ops, i);
      assert tr[i].capacity / Pow2(0) == tr[i].capacity;
    } else {
      HalvingsAreExact(tr, ops, i, n - 1);
      CeilingMovesExactly(tr, ops, n - 1);
      HalvedOnceMore(tr[i].capacity, HalvingsFrom(tr, ops, i, n - 1));
    }
  }

  /** One step moves the stamp to its own instant, clears it, or keeps it. */
  lemma StepStamp(s: GateState, op: Op)
    requires Enabled(s, op)
    ensures Apply(s, op).lastHalved ==
            if op.OpRestoreFull? then None else if Halves(s, op) then Some(op.now) else s.lastHalved
  {
  }

  lemma HalfBound(c: nat, p: nat, capacity: nat)
    requires p >= 1 && Max(1, c / p) <= capacity
    ensures Max(1, c / (2 * p)) <= Max(1, capacity / 2)
  {
    HalfOfQuotient(c, p);
  }

  /** After `h` halvings the ceiling is still at least a 2^h-th of the
      configured one and at least one slot, and it never exceeds it. */
  lemma {:induction false} CeilingFloor(tr: seq<GateState>, ops: seq<Op>, n: nat)
    requires Trace(tr, ops) && Fresh(tr[0]) && n <= |ops|
    ensures var c := Ceiling(tr[0].settings);
            Max(1, c / Pow2(Halvings(tr, ops, n))) <= tr[n].capacity <= c
  {
    EveryStateBalances(tr, ops, n);
    if n > 0 {
      CeilingFloor(tr, ops, n - 1);
      EveryStateBalances(tr, ops, n - 1);
      StepCeiling(tr[n - 1], ops[n - 1]);
      var c, h := Ceiling(tr[0].settings), Halvings(tr, ops, n - 1);
      if ops[n - 1].OpRestoreFull? {
        assert c / Pow2(0) == c;
      } else if Halves(tr[n - 1], ops[n - 1]) {
        assert Pow2(h + 1) == 2 * Pow2(h);
        HalfBound(c, Pow2(h), tr[n - 1].capacity);
      }
    } else {
      assert Ceiling(tr[0].settings) / Pow2(0) == Ceiling(tr[0].settings);
    }
  }

  /** A run of readings spread over `span` milliseconds halves at most
      `span / cooldown + 1` times. */
  lemma {:induction false} HalvingsFitTheSpan(tr: seq<GateState>, ops: seq<Op>, n: nat, start: int, span: nat)
    requires Trace(tr, ops) && tr[0].lastHalved == None && n <= |ops|
    requires forall k :: 0 <= k < n && ops[k].OpObserve? ==> start <= ops[k].now <= start + span
    ensures Halvings(tr, ops, n) <= span / SHRINK_COOLDOWN + 1
  {
    var h := Halvings(tr, ops, n);
    LastStamp(tr, ops, n, start, span);
    if h > 0 {
      assert (h - 1) * SHRINK_COOLDOWN <= span;
    }
  }

  lemma {:induction false} LastStamp(tr: seq<GateState>, ops: seq<Op>, n: nat, start: int, span: nat)
    requires Trace(tr, ops) && tr[0].lastHalved == None && n <= |ops|
    requires forall k :: 0 <= k < n && ops[k].OpObserve? ==> start <= ops[k].now <= start + span
    ensures var h := Halvings(tr, ops, n);
            if h == 0 then tr[n].lastHalved == None
            else tr[n].lastHalved.Some? && start + (h - 1) * SHRINK_COOLDOWN <= tr[n].lastHalved.value <= start + span
  {
    if n > 0 {
      LastStamp(tr, ops, n - 1, start, span);
      StepStamp(tr[n - 1], ops[n - 1]);
    }
  }

  /** The pace in one statement: over `span` milliseconds of readings, however
      many there are, the ceiling keeps a 2^(span/cooldown + 1)-th of itself. */
  lemma {:induction false} CeilingFallsNoFasterThanTheCooldown(
      tr: seq<GateState>, ops: seq<Op>, n: nat, start: int, span: nat)
    requires Trace(tr, ops) && Fresh(tr[0]) && n <= |ops|
    requires forall k :: 0 <= k < n && ops[k].OpObserve? ==> start <= ops[k].now <= start + span
    ensures tr[n].capacity >= Ceiling(tr[0].settings) / Pow2(span / SHRINK_COOLDOWN + 1)
  {
    HalvingsFitTheSpan(tr, ops, n, start, span);
    CeilingFloor(tr, ops, n);
    SmallerPower(Ceiling(tr[0].settings), Halvings(tr, ops, n), span / SHRINK_COOLDOWN + 1);
  }

  lemma {:induction false} SmallerPower(c: nat, a: nat, b: nat)
    requires a <= b
    ensures c / Pow2(b) <= c / Pow2(a)
    decreases b - a
  {
    if a < b {
      SmallerPower(c, a, b - 1);
      HalfOfQuotient(c, Pow2(b - 1));
    }
  }
}
