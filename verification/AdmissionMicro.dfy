/**
 The gate of src/admission.rs at the grain of its atomic actions.

 `shrink`, `grow`, `Permit::drop` and `release_seed` are each several loads,
 stores and semaphore calls. Here any request may act between any two of
 them. The scraper is one task, so it has one program counter; requests are
 many, so each point a request can be stopped at is a count of the requests
 standing there. A waiter that was handed a permit but has not run yet is
 `granted`; if its client hangs up then, the semaphore takes the permit back.
 A caller that finds nothing free looks at the queue, then counts itself in,
 then asks the semaphore: three separate actions.
 */
module AdmissionMicro {
  import opened Common
  import opened Admission

  datatype Pc =
    | Idle
    | ShrinkLoaded(now: nat)
    | ShrinkForgot(now: nat, forgotten: nat)   // permits forgotten, shortfall not yet owed
    | ShrinkOwed(now: nat)                     // debt raised, ceiling not yet stored
    | GrowLoaded(now: nat)
    | GrowUnpaid(now: nat)                     // no debt to forgive: a permit is due
    | GrowPaid(now: nat)                       // slot given, ceiling not yet stored

  /** Callers on their way into the queue. */
  datatype Door = Door(
    missed: nat,          // found nothing free
    passed: nat,          // saw room in the queue, not yet counted in it
    entered: nat)         // counted, semaphore not yet asked

  datatype Micro = Micro(
    settings: Settings,
    free: nat,
    granted: nat,
    held: nat,
    returning: nat,       // dropped permits that found no debt and are on their way back
    seeded: nat,
    seedTaken: nat,       // seeds given up, debt not yet looked at
    seedReturning: nat,   // seeds that found no debt and are on their way back
    waiting: nat,
    capacity: nat,
    debt: nat,
    admitted: nat,
    pc: Pc,
    door: Door)

  /** The counter `queued`: everyone counted in and not yet out. */
  function Queued(m: Micro): nat { m.door.entered + m.waiting + m.granted }

  datatype Step =
    | Acquire | Miss | Pass | Refuse | Enter | Join | TakeLate | Wake | Leave | CancelGranted
    | DropTry | DropReturn
    | SeedTake | SeedTry | SeedReturn
    | ShrinkLoad | Forget | Owe | StoreHalved
    | GrowLoad | GrowTry | GrowAdd | StoreGrown

  function Start(settings: Settings, inFlight: nat): Micro {
    var c := Ceiling(settings);
    var s := Min(inFlight, c);
    Micro(settings, c - s, 0, 0, 0, s, 0, 0, 0, c, 0, 0, Idle, Door(0, 0, 0))
  }

  function Cut(now: nat): nat { now - Min(HalvedCeiling(now), now) }

  predicate Can(m: Micro, step: Step) {
    match step
    case Acquire => m.free > 0
    case Miss => m.free == 0
    case Pass => m.door.missed > 0 && Queued(m) < m.settings.maxQueued
    case Refuse => m.door.missed > 0 && Queued(m) >= m.settings.maxQueued
    case Enter => m.door.passed > 0
    case Join => m.door.entered > 0 && m.free == 0
    case TakeLate => m.door.entered > 0 && m.free > 0
    case Wake => m.granted > 0
    case Leave => m.waiting > 0
    case CancelGranted => m.granted > 0
    case DropTry => m.held > 0
    case DropReturn => m.returning > 0
    case SeedTake => m.seeded > 0
    case SeedTry => m.seedTaken > 0
    case SeedReturn => m.seedReturning > 0
    case ShrinkLoad => m.pc.Idle?
    case Forget => m.pc.ShrinkLoaded?
    case Owe => m.pc.ShrinkForgot? && m.pc.forgotten <= Cut(m.pc.now)
    case StoreHalved => m.pc.ShrinkOwed?
    case GrowLoad => m.pc.Idle?
    case GrowTry => m.pc.GrowLoaded?
    case GrowAdd => m.pc.GrowUnpaid?
    case StoreGrown => m.pc.GrowPaid?
  }

  /** The semaphore receives a permit: the longest waiter gets it, if any. */
  function Release(m: Micro): Micro {
    if m.waiting > 0 then m.(waiting := m.waiting - 1, granted := m.granted + 1)
    else m.(free := m.free + 1)
  }

  function Act(m: Micro, step: Step): Micro
    requires Can(m, step)
  {
    match step
    case Acquire => m.(free := m.free - 1, held := m.held + 1, admitted := m.admitted + 1)
    case Miss => m.(door := m.door.(missed := m.door.missed + 1))
    case Pass => m.(door := m.door.(missed := m.door.missed - 1, passed := m.door.passed + 1))
    case Refuse => m.(door := m.door.(missed := m.door.missed - 1))
    case Enter => m.(door := m.door.(passed := m.door.passed - 1, entered := m.door.entered + 1))
    case Join => m.(waiting := m.waiting + 1, door := m.door.(entered := m.door.entered - 1))
    case TakeLate =>
      m.(free := m.free - 1, held := m.held + 1, admitted := m.admitted + 1, door := m.door.(entered := m.door.entered - 1))
    case Wake => m.(granted := m.granted - 1, held := m.held + 1, admitted := m.admitted + 1)
    case Leave => m.(waiting := m.waiting - 1)
    case CancelGranted => Release(m.(granted := m.granted - 1))
    case DropTry =>
      if m.debt > 0 then m.(held := m.held - 1, debt := m.debt - 1)
      else m.(held := m.held - 1, returning := m.returning + 1)
    case DropReturn => Release(m.(returning := m.returning - 1))
    case SeedTake => m.(seeded := m.seeded - 1, seedTaken := m.seedTaken + 1)
    case SeedTry =>
      if m.debt > 0 then m.(seedTaken := m.seedTaken - 1, debt := m.debt - 1)
      else m.(seedTaken := m.seedTaken - 1, seedReturning := m.seedReturning + 1)
    case SeedReturn => Release(m.(seedReturning := m.seedReturning - 1))
    case ShrinkLoad =>
      if HalvedCeiling(m.capacity) >= m.capacity then m else m.(pc := ShrinkLoaded(m.capacity))
    case Forget =>
      var forgotten := Min(Cut(m.pc.now), m.free);
      m.(free := m.free - forgotten, pc := ShrinkForgot(m.pc.now, forgotten))
    case Owe => m.(debt := m.debt + (Cut(m.pc.now) - m.pc.forgotten), pc := ShrinkOwed(m.pc.now))
    case StoreHalved => m.(capacity := HalvedCeiling(m.pc.now), pc := Idle)
    case GrowLoad => if m.capacity >= Ceiling(m.settings) then m else m.(pc := GrowLoaded(m.capacity))
    case GrowTry =>
      if m.debt > 0 then m.(debt := m.debt - 1, pc := GrowPaid(m.pc.now)) else m.(pc := GrowUnpaid(m.pc.now))
    case GrowAdd => Release(m).(pc := GrowPaid(m.pc.now))
    case StoreGrown => m.(capacity := m.pc.now + 1, pc := Idle)
  }

  ghost predicate Next(m: Micro, step: Step, m': Micro) {
    Can(m, step) && m' == Act(m, step)
  }

  ghost predicate MicroRun(tr: seq<Micro>, steps: seq<Step>) {
    && |tr| == |steps| + 1
    && forall i {:trigger steps[i]} :: 0 <= i < |steps| ==> Next(tr[i], steps[i], tr[i + 1])
  }

  // ----- conservation under every interleaving --------------------------

  /** Every slot in existence, wherever it stands. */
  function Slots(m: Micro): nat {
    m.free + m.granted + m.held + m.returning + m.seeded + m.seedTaken + m.seedReturning
  }

  /** How far a half-done `shrink` or `grow` has moved the books. */
  function InTransit(pc: Pc): int {
    match pc
    case Idle => 0
    case ShrinkLoaded(_) => 0
    case ShrinkForgot(_, forgotten) => 0 - forgotten
    case ShrinkOwed(now) => 0 - Cut(now)
    case GrowLoaded(_) => 0
    case GrowUnpaid(_) => 0
    case GrowPaid(_) => 1
  }

  ghost predicate PcFits(m: Micro) {
    match m.pc
    case Idle => true
    case ShrinkLoaded(now) => now == m.capacity && HalvedCeiling(now) < now
    case ShrinkForgot(now, forgotten) => now == m.capacity && HalvedCeiling(now) < now && forgotten <= Cut(now)
    case ShrinkOwed(now) => now == m.capacity && HalvedCeiling(now) < now
    case GrowLoaded(now) => now == m.capacity < Ceiling(m.settings)
    case GrowUnpaid(now) => now == m.capacity < Ceiling(m.settings) && m.debt == 0
    case GrowPaid(now) => now == m.capacity < Ceiling(m.settings)
  }

  /** The ceiling plus the debt, read as if the operation under way had stored. */
  function Books(m: Micro): int {
    m.capacity + m.debt + (if m.pc.ShrinkForgot? then 0 else InTransit(m.pc))
  }

  ghost predicate MicroInv(m: Micro) {
    && Slots(m) == m.capacity + m.debt + InTransit(m.pc)
    && Books(m) <= Ceiling(m.settings)
    && 1 <= m.capacity
    && PcFits(m)
    && (m.waiting > 0 ==> m.free == 0)
  }

  lemma ShrinkActKeepsBalance(m: Micro, step: Step, m': Micro)
    requires step.ShrinkLoad? || step.Forget? || step.Owe? || step.StoreHalved?
    requires MicroInv(m) && Next(m, step, m')
    ensures MicroInv(m') && m'.settings == m.settings
  {
  }

  lemma GrowActKeepsBalance(m: Micro, step: Step, m': Micro)
    requires step.GrowLoad? || step.GrowTry? || step.GrowAdd? || step.StoreGrown?
    requires MicroInv(m) && Next(m, step, m')
    ensures MicroInv(m') && m'.settings == m.settings
  {
  }

  lemma DoorKeepsBalance(m: Micro, step: Step, m': Micro)
    requires step.Miss? || step.Pass? || step.Refuse? || step.Enter?
    requires MicroInv(m) && Next(m, step, m')
    ensures MicroInv(m') && m'.settings == m.settings
  {
  }

  lemma ArrivalKeepsBalance(m: Micro, step: Step, m': Micro)
    requires step.Acquire? || step.Join? || step.TakeLate? || step.Wake? || step.Leave? || step.CancelGranted?
    requires MicroInv(m) && Next(m, step, m')
    ensures MicroInv(m') && m'.settings == m.settings
  {
  }

  lemma DepartureKeepsBalance(m: Micro, step: Step, m': Micro)
    requires step.DropTry? || step.DropReturn? || step.SeedTake? || step.SeedTry? || step.SeedReturn?
    requires MicroInv(m) && Next(m, step, m')
    ensures MicroInv(m') && m'.settings == m.settings
  {
  }

  lemma RequestActKeepsBalance(m: Micro, step: Step, m': Micro)
    requires !(step.ShrinkLoad? || step.Forget? || step.Owe? || step.StoreHalved?)
    requires !(step.GrowLoad? || step.GrowTry? || step.GrowAdd? || step.StoreGrown?)
    requires MicroInv(m) && Next(m, step, m')
    ensures MicroInv(m') && m'.settings == m.settings
  {
    hide MicroInv, Next;
    if step.Miss? || step.Pass? || step.Refuse? || step.Enter? {
      DoorKeepsBalance(m, step, m');
    } else if step.Acquire? || step.Join? || step.TakeLate? || step.Wake? || step.Leave? || step.CancelGranted? {
      ArrivalKeepsBalance(m, step, m');
    } else {
      DepartureKeepsBalance(m, step, m');
    }
  }

  lemma NextKeepsBalance(m: Micro, step: Step, m': Micro)
    requires MicroInv(m) && Next(m, step, m')
    ensures MicroInv(m') && m'.settings == m.settings
  {
    match step
    case ShrinkLoad => ShrinkActKeepsBalance(m, step, m');
    case Forget => ShrinkActKeepsBalance(m, step, m');
    case Owe => ShrinkActKeepsBalance(m, step, m');
    case StoreHalved => ShrinkActKeepsBalance(m, step, m');
    case GrowLoad => GrowActKeepsBalance(m, step, m');
    case GrowTry => GrowActKeepsBalance(m, step, m');
    case GrowAdd => GrowActKeepsBalance(m, step, m');
    case StoreGrown => GrowActKeepsBalance(m, step, m');
    case _ => RequestActKeepsBalance(m, step, m');
  }

  lemma SlotsFit(m: Micro)
    requires MicroInv(m)
    ensures m.held + m.seeded <= Slots(m) <= Ceiling(m.settings)
  {
  }

  /** In every reachable state, with requests acting between any two of the
      scraper's atomic actions, the slots balance the ceiling plus the debt up
      to the in-transit term, and running work never exceeds `max_concurrent`. */
  lemma {:induction false} EveryInterleavingBalances(tr: seq<Micro>, steps: seq<Step>, u: nat, n: nat)
    requires MicroRun(tr, steps) && tr[0] == Start(tr[0].settings, u) && n < |tr|
    ensures MicroInv(tr[n]) && tr[n].settings == tr[0].settings
    ensures Slots(tr[n]) == tr[n].capacity + tr[n].debt + InTransit(tr[n].pc)
    ensures tr[n].held + tr[n].seeded <= Slots(tr[n]) <= Ceiling(tr[0].settings)
  {
    if n > 0 {
      EveryInterleavingBalances(tr, steps, u, n - 1);
      NextKeepsBalance(tr[n - 1], steps[n - 1], tr[n]);
    }
    SlotsFit(tr[n]);
  }

  /** The ceiling a scraper stores, whatever happened since it loaded the old one:
      the half of it, or one more. It begins only where that changes something. */
  lemma {:induction false} StoredCeilings(tr: seq<Micro>, steps: seq<Step>, u: nat, n: nat)
    requires MicroRun(tr, steps) && tr[0] == Start(tr[0].settings, u) && n < |steps|
    ensures tr[n + 1].capacity ==
            if steps[n].StoreHalved? then Max(1, tr[n].capacity / 2)
            else if steps[n].StoreGrown? then tr[n].capacity + 1
            else tr[n].capacity
    ensures steps[n].ShrinkLoad? ==> (tr[n + 1].pc.ShrinkLoaded? <==> tr[n].capacity >= 2)
    ensures steps[n].GrowLoad? ==> (tr[n + 1].pc.GrowLoaded? <==> tr[n].capacity < Ceiling(tr[0].settings))
  {
    EveryInterleavingBalances(tr, steps, u, n);
  }

  // ----- the two figures that hold only between operations --------------

  /** `capacity + debt`, the figure `status()` starts from, respects
      `max_concurrent` in a reachable state unless the scraper stands between
      raising the debt and storing the lower ceiling with that cut unspent. */
  lemma {:induction false} BooksExceedTheCeilingOnlyMidShrink(tr: seq<Micro>, steps: seq<Step>, u: nat, n: nat)
    requires MicroRun(tr, steps) && tr[0] == Start(tr[0].settings, u) && n < |tr|
    ensures var m := tr[n];
            m.capacity + m.debt <= Ceiling(m.settings) <==>
            !(m.pc.ShrinkOwed? && Slots(m) > Ceiling(m.settings) - Cut(m.pc.now))
  {
    EveryInterleavingBalances(tr, steps, u, n);
  }

  predicate BooksFit(m: Micro) { m.capacity + m.debt <= Ceiling(m.settings) }

  /** The shrink under way owes more than the books have room for: what it could
      not forget, on top of an older debt, with the old ceiling still stored. */
  predicate OwesTooMuch(m: Micro, step: Step) {
    step.Owe? && m.pc.ShrinkForgot? && m.debt + Cut(m.pc.now) - m.pc.forgotten > Ceiling(m.settings) - m.capacity
  }

  /** Across one action the books stay within `max_concurrent` exactly when it
      is not such an owing; storing the lower ceiling always brings them back. */
  lemma BooksStayFitIff(m: Micro, step: Step, m': Micro)
    requires MicroInv(m) && Next(m, step, m')
    ensures BooksFit(m) ==> (BooksFit(m') <==> !OwesTooMuch(m, step))
    ensures step.StoreHalved? ==> BooksFit(m')
  {
    NextKeepsBalance(m, step, m');
  }

  /** So books that do not fit stand in the gap of a shrink that owed too much. */
  lemma {:induction false} BooksExceedOnlyAfterOwing(tr: seq<Micro>, steps: seq<Step>, u: nat, n: nat) returns (i: nat)
    requires MicroRun(tr, steps) && tr[0] == Start(tr[0].settings, u) && n < |tr| && !BooksFit(tr[n])
    ensures i < n && OwesTooMuch(tr[i], steps[i]) && forall k :: i < k < n ==> !steps[k].StoreHalved?
  {
    if n > 0 {
      hide Act, Can, MicroInv, OwesTooMuch, Slots;
      EveryInterleavingBalances(tr, steps, u, n - 1);
      BooksStayFitIff(tr[n - 1], steps[n - 1], tr[n]);
      if BooksFit(tr[n - 1]) {
        i := n - 1;
      } else {
        i := BooksExceedOnlyAfterOwing(tr, steps, u, n - 1);
      }
    }
  }

  const TWO_SLOTS := Settings(2, 1, 0, 0)

  ghost predicate Reaches(from: Micro, tr: seq<Micro>, steps: seq<Step>, to: Micro) {
    MicroRun(tr, steps) && tr[0] == from && tr[|steps|] == to
  }

  lemma Extend(from: Micro, tr: seq<Micro>, steps: seq<Step>, last: Micro, step: Step, m: Micro)
    returns (tr': seq<Micro>, steps': seq<Step>)
    requires Reaches(from, tr, steps, last) && Next(last, step, m)
    ensures Reaches(from, tr', steps', m)
  {
    tr', steps' := tr + [m], steps + [step];
    forall i | 0 <= i < |steps'|
      ensures Next(tr'[i], steps'[i], tr'[i + 1])
    {
      if i < |steps| {
        assert Next(tr[i], steps[i], tr[i + 1]);
      }
    }
  }

  lemma TwoArrivals(s0: Micro) returns (s1: Micro, s2: Micro)
    requires s0 == Start(TWO_SLOTS, 0)
    ensures Next(s0, Acquire, s1) && Next(s1, Acquire, s2)
    ensures s2 == Micro(TWO_SLOTS, 0, 0, 2, 0, 0, 0, 0, 0, 2, 0, 2, Idle, Door(0, 0, 0))
  {
    s1 := s0.(free := 1, held := 1, admitted := 1);
    s2 := s1.(free := 0, held := 2, admitted := 2);
  }

  lemma ShrinkBegins(m: Micro) returns (loaded: Micro)
    requires m.pc.Idle? && m.capacity == 2
    ensures Next(m, ShrinkLoad, loaded) && loaded == m.(pc := ShrinkLoaded(2))
  {
    assert HalvedCeiling(2) == 1;
    loaded := m.(pc := ShrinkLoaded(2));
  }

  lemma NothingToForget(m: Micro) returns (forgot: Micro)
    requires m.pc == ShrinkLoaded(2) && m.free == 0
    ensures Next(m, Forget, forgot) && forgot == m.(pc := ShrinkForgot(2, 0))
  {
    assert Cut(2) == 1;
    forgot := m.(pc := ShrinkForgot(2, 0));
  }

  /** Two requests running on a ceiling of two, a shrink that found nothing free. */
  lemma ShrinkStartsUnderLoad() returns (tr: seq<Micro>, steps: seq<Step>, last: Micro)
    ensures Reaches(Start(TWO_SLOTS, 0), tr, steps, last)
    ensures last == Micro(TWO_SLOTS, 0, 0, 2, 0, 0, 0, 0, 0, 2, 0, 2, ShrinkForgot(2, 0), Door(0, 0, 0))
  {
    hide Next, Start;
    var s0 := Start(TWO_SLOTS, 0);
    var s1, s2 := TwoArrivals(s0);
    var s3 := ShrinkBegins(s2);
    var s4 := NothingToForget(s3);
    tr, steps := Extend(s0, [s0], [], s0, Acquire, s1);
    tr, steps := Extend(s0, tr, steps, s1, Acquire, s2);
    tr, steps := Extend(s0, tr, steps, s2, ShrinkLoad, s3);
    tr, steps := Extend(s0, tr, steps, s3, Forget, s4);
    last := s4;
  }

  lemma OweUnderLoad(last: Micro) returns (m: Micro)
    requires last == Micro(TWO_SLOTS, 0, 0, 2, 0, 0, 0, 0, 0, 2, 0, 2, ShrinkForgot(2, 0), Door(0, 0, 0))
    ensures Next(last, Owe, m) && m.capacity == 2 && m.debt == 1 && m.held == 2
  {
    m := last.(debt := 1, pc := ShrinkOwed(2));
  }

  /** Such a state is reachable: two requests running on a ceiling of two,
      mid-shrink, and the books say three. */
  lemma BooksCanExceedTheCeiling() returns (tr: seq<Micro>, steps: seq<Step>, m: Micro)
    ensures Reaches(Start(TWO_SLOTS, 0), tr, steps, m)
    ensures m.held == 2 && m.capacity + m.debt == 3 > Ceiling(TWO_SLOTS)
  {
    hide Next, Start;
    var last;
    tr, steps, last := ShrinkStartsUnderLoad();
    m := OweUnderLoad(last);
    tr, steps := Extend(Start(TWO_SLOTS, 0), tr, steps, last, Owe, m);
  }

  /** A ceiling lowered while nothing owed is in circulation. */
  predicate OwedIsOut(m: Micro) { m.debt > 0 ==> m.free == 0 }

  /** A slot that reaches the semaphore past a debt it never saw: a permit or
      seed that looked before the debt was raised, a granted waiter that hung
      up, or permits freed between forgetting and owing. */
  predicate Overtakes(m: Micro, step: Step) {
    match step
    case CancelGranted => m.debt > 0 && m.waiting == 0
    case DropReturn => m.debt > 0 && m.waiting == 0
    case SeedReturn => m.debt > 0 && m.waiting == 0
    case Owe => m.free > 0 && m.pc.ShrinkForgot? && Cut(m.pc.now) > m.pc.forgotten
    case _ => false
  }

  /** "Nothing is free while a slot is owed" survives an action exactly when
      no slot overtakes the debt. */
  lemma OwedStaysOutIff(m: Micro, step: Step, m': Micro)
    requires MicroInv(m) && OwedIsOut(m) && Next(m, step, m')
    ensures OwedIsOut(m') <==> !Overtakes(m, step)
  {
  }

  ghost predicate Quiet(m: Micro) {
    m.pc.Idle? && m.granted == m.held == m.returning == 0 && m.seeded == m.seedTaken == m.seedReturning == 0
  }

  /** Slots owed by the shrinks of the first `n` actions. */
  ghost function Owed(tr: seq<Micro>, steps: seq<Step>, n: nat): int
    requires MicroRun(tr, steps) && n <= |steps|
  {
    if n == 0 then 0 else
      var m := tr[n - 1];
      Owed(tr, steps, n - 1) + if steps[n - 1].Owe? && m.pc.ShrinkForgot? then Cut(m.pc.now) - m.pc.forgotten else 0
  }

  /** An action that meets a debt and pays one slot of it. */
  predicate Pays(m: Micro, step: Step) { m.debt > 0 && (step.DropTry? || step.SeedTry? || step.GrowTry?) }

  ghost function Paid(tr: seq<Micro>, steps: seq<Step>, n: nat): nat
    requires MicroRun(tr, steps) && n <= |steps|
  {
    if n == 0 then 0 else Paid(tr, steps, n - 1) + if Pays(tr[n - 1], steps[n - 1]) then 1 else 0
  }

  lemma DebtMoves(m: Micro, step: Step, m': Micro)
    requires Next(m, step, m')
    ensures m'.debt == m.debt + (if step.Owe? then Cut(m.pc.now) - m.pc.forgotten else 0) - (if Pays(m, step) then 1 else 0)
  {
  }

  lemma {:induction false} DebtIsOwedLessPaid(tr: seq<Micro>, steps: seq<Step>, u: nat, n: nat)
    requires MicroRun(tr, steps) && tr[0] == Start(tr[0].settings, u) && n <= |steps|
    ensures tr[n].debt == Owed(tr, steps, n) - Paid(tr, steps, n)
  {
    if n > 0 {
      hide Act;
      DebtIsOwedLessPaid(tr, steps, u, n - 1);
      DebtMoves(tr[n - 1], steps[n - 1], tr[n]);
    }
  }

  /** A quiet gate has exactly the ceiling free iff every slot its shrinks owed
      was met by a returning slot or a grow; it is enough that nothing overtook
      a debt. In any case it has the ceiling plus the leftover debt free. */
  lemma {:induction false} QuietGate(tr: seq<Micro>, steps: seq<Step>, u: nat)
    requires MicroRun(tr, steps) && tr[0] == Start(tr[0].settings, u)
    requires Quiet(tr[|steps|])
    ensures tr[|steps|].free == tr[|steps|].capacity + tr[|steps|].debt
    ensures (forall i :: 0 <= i < |steps| ==> !Overtakes(tr[i], steps[i])) ==>
              tr[|steps|].debt == 0 && tr[|steps|].free == tr[|steps|].capacity
    ensures tr[|steps|].free == tr[|steps|].capacity <==> Owed(tr, steps, |steps|) == Paid(tr, steps, |steps|)
  {
    DebtIsOwedLessPaid(tr, steps, u, |steps|);
    EveryInterleavingBalances(tr, steps, u, |steps|);
    if forall i :: 0 <= i < |steps| ==> !Overtakes(tr[i], steps[i]) {
      NothingOvertook(tr, steps, u, |steps|);
    }
  }

  lemma {:induction false} NothingOvertook(tr: seq<Micro>, steps: seq<Step>, u: nat, n: nat)
    requires MicroRun(tr, steps) && tr[0] == Start(tr[0].settings, u) && n < |tr|
    requires forall i :: 0 <= i < n ==> !Overtakes(tr[i], steps[i])
    ensures OwedIsOut(tr[n])
  {
    if n > 0 {
      NothingOvertook(tr, steps, u, n - 1);
      EveryInterleavingBalances(tr, steps, u, n - 1);
      OwedStaysOutIff(tr[n - 1], steps[n - 1], tr[n]);
    }
  }

  lemma PermitReturns(m: Micro) returns (gone: Micro, back: Micro)
    requires m.held > 0 && m.debt == 0 && m.returning == 0 && m.waiting == 0
    ensures Next(m, DropTry, gone) && Next(gone, DropReturn, back)
    ensures back == m.(held := m.held - 1, free := m.free + 1)
  {
    gone := m.(held := m.held - 1, returning := 1);
    back := m.(held := m.held - 1, free := m.free + 1);
  }

  lemma DebtAfterReturns(m: Micro) returns (owed: Micro, done: Micro)
    requires m == Micro(TWO_SLOTS, 2, 0, 0, 0, 0, 0, 0, 0, 2, 0, 2, ShrinkForgot(2, 0), Door(0, 0, 0))
    ensures Next(m, Owe, owed) && Next(owed, StoreHalved, done)
    ensures Quiet(done) && done.capacity == 1 && done.free == 2
  {
    owed := m.(debt := 1, pc := ShrinkOwed(2));
    done := m.(debt := 1, capacity := 1, pc := Idle);
  }

  /** The race is real: both permits return between `forget_permits` and the
      debt being raised, and a gate with ceiling one rests with two free. */
  lemma ALateDebtLeavesSpareSlots() returns (tr: seq<Micro>, steps: seq<Step>, m: Micro)
    ensures Reaches(Start(TWO_SLOTS, 0), tr, steps, m)
    ensures Quiet(m) && m.capacity == 1 && m.free == 2
  {
    var s0, last := Start(TWO_SLOTS, 0), Start(TWO_SLOTS, 0);
    tr, steps, last := ShrinkStartsUnderLoad();
    var s1, s2 := PermitReturns(last);
    var s3, s4 := PermitReturns(s2);
    var s5, s6 := DebtAfterReturns(s4);
    tr, steps := Extend(s0, tr, steps, last, DropTry, s1);
    tr, steps := Extend(s0, tr, steps, s1, DropReturn, s2);
    tr, steps := Extend(s0, tr, steps, s2, DropTry, s3);
    tr, steps := Extend(s0, tr, steps, s3, DropReturn, s4);
    tr, steps := Extend(s0, tr, steps, s4, Owe, s5);
    tr, steps := Extend(s0, tr, steps, s5, StoreHalved, s6);
    m := s6;
  }

  // ----- uninterrupted, the actions add up to the whole operation -------

  /** A gate with nothing in transit, seen as a whole-operation state. */
  ghost function Whole(m: Micro): GateState {
    GateState(m.settings, m.free, m.held, m.seeded, m.capacity, m.debt, m.waiting, m.admitted, 0, 0, None)
  }

  ghost predicate Settled(m: Micro) {
    m.pc.Idle? && m.granted == m.returning == m.seedTaken == m.seedReturning == 0 && m.door == Door(0, 0, 0)
  }

  /** A waiter handed a permit runs. */
  ghost function WakeAll(m: Micro): Micro {
    m.(granted := 0, held := m.held + m.granted, admitted := m.admitted + m.granted)
  }

  lemma UninterruptedShrink(m: Micro)
    requires MicroInv(m) && Settled(m)
    ensures var loaded := Act(m, ShrinkLoad);
            if loaded.pc.Idle? then Whole(loaded) == Shrink(Whole(m))
            else
              var done := Act(Act(Act(loaded, Forget), Owe), StoreHalved);
              Settled(done) && Whole(done) == Shrink(Whole(m))
  {
  }

  lemma UninterruptedGrow(m: Micro)
    requires MicroInv(m) && Settled(m)
    ensures var loaded := Act(m, GrowLoad);
            if loaded.pc.Idle? then Whole(loaded) == Grow(Whole(m))
            else
              var tried := Act(loaded, GrowTry);
              var paid := if tried.pc.GrowUnpaid? then Act(tried, GrowAdd) else tried;
              var done := WakeAll(Act(paid, StoreGrown));
              Settled(done) && Whole(done) == Grow(Whole(m))
  {
  }

  lemma UninterruptedDrop(m: Micro)
    requires MicroInv(m) && Settled(m) && m.held > 0
    ensures var tried := Act(m, DropTry);
            var done := WakeAll(if tried.returning > 0 then Act(tried, DropReturn) else tried);
            Settled(done) && Whole(done) == DropPermit(Whole(m))
  {
  }

  lemma UninterruptedSeedRelease(m: Micro)
    requires MicroInv(m) && Settled(m) && m.seeded > 0
    ensures var tried := Act(Act(m, SeedTake), SeedTry);
            var done := WakeAll(if tried.seedReturning > 0 then Act(tried, SeedReturn) else tried);
            Settled(done) && Whole(done) == ReleaseSeed(Whole(m))
  {
  }

  lemma UninterruptedAdmit(m: Micro)
    requires MicroInv(m) && Settled(m)
    ensures if m.free > 0 then Whole(Act(m, Acquire)) == Admit(Whole(m))
            else
              var missed := Act(m, Miss);
              if m.waiting < m.settings.maxQueued then
                var done := Act(Act(Act(missed, Pass), Enter), Join);
                Settled(done) && Whole(done) == Admit(Whole(m))
              else
                var done := Act(missed, Refuse);
                Settled(done) && Whole(done) == Admit(Whole(m)).(refusedFull := 0)
  {
  }
}
