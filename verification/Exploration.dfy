/** An exploration phase: a child ledger whose cap shrinks live.

    Engines run under `run.m`, a child of the capped ledger `outer`.  Its own cap is the
    headroom at the start of the phase; before every admission it gives up the projected
    cost of the comparison that must follow, re-read from `outer`.  A rollout passes the
    outer gate first, then the inner one, and every response is charged to both. */
module Exploration {
  import opened Options
  import opened Meters
  import opened Multiples
  import C = MeterChains
  import R = RolloutRuns

  /** A rollout that holds an outer slot and waits at the inner gate. */
  datatype Ticket = Ticket(kind: Kind, reserved: real)

  /** The outer side of an admitted rollout. */
  datatype Hold = Hold(reserved: real, seen: bool, gone: bool)

  /** `lastHigh` is the outer ledger's highest validation cost at the latest inner admission. */
  datatype State = State(outer: Meter, run: R.State, tickets: seq<Ticket>, holds: seq<Hold>, lastHigh: real)

  datatype Event =
    | EnterOuter(kind: Kind)
    | EnterInner(ticket: nat)
    | Respond(id: nat, response: Response)
    | FinishOuter(id: nat)
    | FinishInner(id: nat)
    | LeaveInner(id: nat)
    | LeaveOuter(id: nat)
    | ReflectionSpend(response: Response)
    | Check
    | CanStart(category: Category, count: int, following: int, kindOf: Option<Kind>)
    | BeginReflection
    | EndReflection

  /** What the phase withholds for `comparison` validation rollouts. */
  function Reserve(outer: Meter, comparison: nat): real {
    Projection(outer, comparison, Validation)
  }

  /** The state when a phase starts with headroom: the child takes all of it as its cap. */
  function Begin(outer: Meter, concurrency: nat): State
    requires outer.cap.Some?
  {
    var headroom := outer.cap.value - outer.Total();
    State(outer, R.Start(NewMeter(Some(headroom), Some(concurrency))), [], [], 0.0)
  }

  function Step(s: State, e: Event, comparison: nat): State
    requires s.outer.Gated() && s.run.m.Gated()
    ensures var t := Step(s, e, comparison); t.outer.Gated() && t.run.m.Gated()
  {
    var reserve := Reserve(s.outer, comparison);
    match e
    case EnterOuter(kind) =>
      var (m, answer) := TryAdmit(s.outer, 0.0, kind);
      if answer.Admits? then
        s.(outer := Meters.Hold(m, kind, answer.reservation),
           tickets := s.tickets + [Ticket(kind, answer.reservation)])
      else s.(outer := m)
    case EnterInner(t) =>
      if t >= |s.tickets| then s
      else
        var ticket := s.tickets[t];
        var answer := TryAdmit(s.run.m, reserve, ticket.kind).1;
        var run := R.Step(s.run, R.TryStart(ticket.kind, reserve));
        if answer.Admits? then
          s.(run := run, tickets := s.tickets[..t] + s.tickets[t + 1..],
             holds := s.holds + [Hold(ticket.reserved, false, false)],
             lastHigh := s.outer.highest.validation)
        else if answer.Refuses? then
          s.(outer := Release(s.outer, ticket.kind, ticket.reserved), run := run,
             tickets := s.tickets[..t] + s.tickets[t + 1..])
        else s
    case Respond(id, response) =>
      if id < |s.run.flights| && s.run.flights[id].phase.Running? && id < |s.holds| && !s.holds[id].seen then
        s.(run := R.Step(s.run, R.Respond(id, response, reserve)),
           outer := Charge(s.outer, Rollout, response, 0.0))
      else s
    case FinishOuter(id) =>
      if id < |s.holds| && id < |s.run.flights| && !s.holds[id].seen then
        var f := s.run.flights[id];
        s.(outer := Observe(s.outer, Rollout, f.kind, f.requests, f.spent),
           holds := s.holds[id := s.holds[id].(seen := true)])
      else s
    case FinishInner(id) =>
      if id < |s.holds| && s.holds[id].seen then s.(run := R.Step(s.run, R.Finish(id))) else s
    case LeaveInner(id) => s.(run := R.Step(s.run, R.Leave(id)))
    case LeaveOuter(id) =>
      if id < |s.holds| && id < |s.run.flights| && s.run.flights[id].phase.Released? && !s.holds[id].gone then
        s.(outer := Release(s.outer, s.run.flights[id].kind, s.holds[id].reserved),
           holds := s.holds[id := s.holds[id].(gone := true)])
      else s
    case ReflectionSpend(response) =>
      s.(run := R.Step(s.run, R.OtherSpend(Reflection, response, reserve)),
         outer := Charge(s.outer, Reflection, response, 0.0))
    case Check =>
      var outer := CheckLocal(s.outer, 0.0);
      if outer.stop.Some? then s.(outer := outer) else s.(run := R.Step(s.run, R.Check(reserve)))
    case CanStart(category, count, following, kindOf) =>
      // The child's own projection may stop the child; the capped ledger is only probed.
      var (m, fits) := CanStartLocal(s.run.m, reserve, category, count, following, kindOf, true);
      if !fits then s.(run := R.Step(s.run, R.CanStart(category, count, following, kindOf, true, reserve)))
      else
        var (outer, outerFits) := CanStartLocal(s.outer, 0.0, category, count, following, kindOf, false);
        if outerFits then s
        else s.(outer := outer, run := s.run.(m := s.run.m.(stop := StopOr(outer.stop, CostBudgetReached))))
    case BeginReflection =>
      if s.outer.reflecting || s.outer.active.training != 0 || s.outer.active.validation != 0 then s
      else s.(outer := s.outer.(reflecting := true))
    case EndReflection => s.(outer := s.outer.(reflecting := false))
  }

  function Run(s: State, events: seq<Event>, comparison: nat): (end: State)
    requires s.outer.Gated() && s.run.m.Gated()
    ensures end.outer.Gated() && end.run.m.Gated()
    decreases |events|
  {
    if events == [] then s else Run(Step(s, events[0], comparison), events[1..], comparison)
  }

  /** A capped ledger as a phase finds it: nothing in flight, spend below the cap. */
  ghost predicate Ready(outer: Meter) {
    && outer.Gated() && outer.Configured()
    && outer.Total() < outer.cap.value
    && outer.highest.validation >= 0.0
    && (outer.observations.validation == 0 ==> outer.highest.validation == 0.0)
  }

  /** How both ledgers move together; `before` and `cap` belong to the outer one. */
  ghost predicate Coupled(s: State, before: real, cap: real, comparison: nat) {
    && s.outer.cap == Some(cap) && s.outer.maxConcurrent.Some?
    && s.outer.highest.validation >= 0.0
    && (s.outer.observations.validation == 0 ==> s.outer.highest.validation == 0.0)
    && R.Sound(s.run, cap - before)
    && |s.holds| == |s.run.flights|
    && s.outer.Total() == before + s.run.m.Total()
    && (s.run.flights != [] ==> s.run.lastCap == cap - before - Times(comparison, s.lastHigh))
  }

  lemma ReserveIsHigh(outer: Meter, comparison: nat)
    requires outer.highest.validation >= 0.0
    requires outer.observations.validation == 0 ==> outer.highest.validation == 0.0
    ensures Reserve(outer, comparison) == Times(comparison, outer.highest.validation)
    ensures Reserve(outer, comparison) >= 0.0
  {
    TimesIsProduct(comparison, outer.highest.validation);
    TimesGrows(0, comparison, outer.highest.validation);
  }

  /** An inner admission withholds the reserve as it stands. */
  lemma TryStartWithholds(run: R.State, kind: Kind, reserve: real, headroom: real)
    requires R.Sound(run, headroom) && reserve >= 0.0
    ensures var t := R.Step(run, R.TryStart(kind, reserve));
      && R.Sound(t, headroom)
      && t.m.Total() == run.m.Total()
      && (if TryAdmit(run.m, reserve, kind).1.Admits?
          then |t.flights| == |run.flights| + 1 && t.lastCap == headroom - reserve
          else |t.flights| == |run.flights| && t.lastCap == run.lastCap)
  {
    R.StepSound(run, R.TryStart(kind, reserve), headroom);
  }

  lemma EnterInnerCoupled(s: State, t: nat, before: real, cap: real, comparison: nat)
    requires Coupled(s, before, cap, comparison)
    ensures Coupled(Step(s, EnterInner(t), comparison), before, cap, comparison)
  {
    if t < |s.tickets| {
      ReserveIsHigh(s.outer, comparison);
      TryStartWithholds(s.run, s.tickets[t].kind, Reserve(s.outer, comparison), cap - before);
    }
  }

  /** Any other event leaves the last admission's cap, and the number of rollouts, alone. */
  lemma OtherEventsKeepLast(run: R.State, e: R.Event, headroom: real)
    requires R.Sound(run, headroom) && !e.TryStart?
    ensures var t := R.Step(run, e);
      && R.Sound(t, headroom)
      && |t.flights| == |run.flights| && t.lastCap == run.lastCap
      && t.m.Total() - run.m.Total() ==
         (if e.OtherSpend? then R.PriceOf(e.response)
          else if e.Respond? && e.id < |run.flights| && run.flights[e.id].phase.Running? then R.PriceOf(e.response)
          else 0.0)
  {
    R.StepSound(run, e, headroom);
  }

  lemma RespondCoupled(s: State, e: Event, before: real, cap: real, comparison: nat)
    requires Coupled(s, before, cap, comparison) && (e.Respond? || e.ReflectionSpend?)
    ensures Coupled(Step(s, e, comparison), before, cap, comparison)
  {
    var reserve := Reserve(s.outer, comparison);
    OtherEventsKeepLast(s.run, if e.Respond? then R.Respond(e.id, e.response, reserve)
                               else R.OtherSpend(Reflection, e.response, reserve), cap - before);
  }

  lemma InnerCoupled(s: State, e: Event, before: real, cap: real, comparison: nat)
    requires Coupled(s, before, cap, comparison) && (e.FinishInner? || e.LeaveInner? || e.Check?)
    ensures Coupled(Step(s, e, comparison), before, cap, comparison)
  {
    OtherEventsKeepLast(s.run, if e.FinishInner? then R.Finish(e.id) else if e.LeaveInner? then R.Leave(e.id)
                               else R.Check(Reserve(s.outer, comparison)), cap - before);
  }

  lemma OuterCoupled(s: State, e: Event, before: real, cap: real, comparison: nat)
    requires Coupled(s, before, cap, comparison)
    requires e.EnterOuter? || e.FinishOuter? || e.LeaveOuter? || e.BeginReflection? || e.EndReflection?
    ensures Coupled(Step(s, e, comparison), before, cap, comparison)
  {
  }

  lemma CanStartOnlyStops(m: Meter, reserve: real, category: Category, count: int, following: int,
                          kindOf: Option<Kind>, stops: bool)
    ensures var c := CanStartLocal(m, reserve, category, count, following, kindOf, stops).0; c == m.(stop := c.stop)
  {
  }

  /** A stop of either ledger couples as before. */
  lemma StopsCoupled(s: State, t: State, before: real, cap: real, comparison: nat)
    requires Coupled(s, before, cap, comparison)
    requires t == s.(outer := s.outer.(stop := t.outer.stop), run := s.run.(m := s.run.m.(stop := t.run.m.stop)))
    ensures Coupled(t, before, cap, comparison)
  {
    R.SameGateSound(s.run, t.run, cap - before);
  }

  lemma CanStartCoupled(s: State, e: Event, before: real, cap: real, comparison: nat)
    requires Coupled(s, before, cap, comparison) && e.CanStart?
    ensures Coupled(Step(s, e, comparison), before, cap, comparison)
  {
    CanStartOnlyStops(s.run.m, Reserve(s.outer, comparison), e.category, e.count, e.following, e.kindOf, true);
    CanStartOnlyStops(s.outer, 0.0, e.category, e.count, e.following, e.kindOf, false);
    StopsCoupled(s, Step(s, e, comparison), before, cap, comparison);
  }

  lemma {:induction false} RunCoupled(s: State, events: seq<Event>, before: real, cap: real, comparison: nat)
    requires Coupled(s, before, cap, comparison)
    ensures Coupled(Run(s, events, comparison), before, cap, comparison)
    decreases |events|
  {
    if events != [] {
      var e := events[0];
      if e.EnterInner? {
        EnterInnerCoupled(s, e.ticket, before, cap, comparison);
      } else if e.CanStart? {
        CanStartCoupled(s, e, before, cap, comparison);
      } else if e.Respond? || e.ReflectionSpend? {
        RespondCoupled(s, e, before, cap, comparison);
      } else if e.FinishInner? || e.LeaveInner? || e.Check? {
        InnerCoupled(s, e, before, cap, comparison);
      } else {
        OuterCoupled(s, e, before, cap, comparison);
      }
      RunCoupled(Step(s, e, comparison), events[1..], before, cap, comparison);
    }
  }

  lemma BeginCoupled(outer: Meter, concurrency: nat, comparison: nat)
    requires Ready(outer) && concurrency > 0
    ensures Coupled(Begin(outer, concurrency), outer.Total(), outer.cap.value, comparison)
  {
  }

  lemma PhaseCoupled(outer: Meter, concurrency: nat, events: seq<Event>, comparison: nat)
    requires Ready(outer) && concurrency > 0
    ensures Coupled(Run(Begin(outer, concurrency), events, comparison), outer.Total(), outer.cap.value, comparison)
  {
    BeginCoupled(outer, concurrency, comparison);
    RunCoupled(Begin(outer, concurrency), events, outer.Total(), outer.cap.value, comparison);
  }

  /** The reserve holds.  After any phase that admitted a rollout, the outer spend plus the
      comparison at the highest observed cost is within the outer cap, but for what the
      rollouts in flight at the last inner admission cost above their inner reservations,
      reflections since then, and the rise of the high since then. */
  lemma ReserveHolds(outer: Meter, concurrency: nat, events: seq<Event>, comparison: nat, s: State)
    requires Ready(outer) && concurrency > 0
    requires s == Run(Begin(outer, concurrency), events, comparison)
    ensures |s.run.last| == |s.run.flights|
    ensures s.run.flights != [] ==>
      var high := s.outer.highest.validation;
      s.outer.Total() + comparison as real * high
        <= outer.cap.value + R.Excess(s.run.last, s.run.flights) + s.run.other + comparison as real * (high - s.lastHigh)
  {
    PhaseCoupled(outer, concurrency, events, comparison);
    CoupledBound(s, outer.Total(), outer.cap.value, comparison);
  }

  lemma CoupledBound(s: State, before: real, cap: real, comparison: nat)
    requires Coupled(s, before, cap, comparison)
    ensures |s.run.last| == |s.run.flights|
    ensures s.run.flights != [] ==>
      var high := s.outer.highest.validation;
      s.outer.Total() + comparison as real * high
        <= cap + R.Excess(s.run.last, s.run.flights) + s.run.other + comparison as real * (high - s.lastHigh)
  {
    R.GrowthWithinExcess(s.run.last, s.run.flights);
    TimesIsProduct(comparison, s.lastHigh);
    Rise(comparison as real, s.outer.highest.validation, s.lastHigh);
  }

  lemma Rise(n: real, high: real, before: real)
    ensures n * high == n * before + n * (high - before)
  {
  }

  lemma ProbeIsStop(m: Meter, comparison: nat)
    requires m.Gated() && m.highest.validation >= 0.0
    requires m.observations.validation == 0 ==> m.highest.validation == 0.0
    requires m.Total() + comparison as real * m.highest.validation <= m.cap.value
    ensures ProbeLocal(m, 0.0, comparison, Validation) <==> m.stop.None?
  {
    ReserveIsHigh(m, comparison);
    TimesIsProduct(comparison, m.highest.validation);
  }

  lemma CoupledFits(s: State, before: real, cap: real, comparison: nat)
    requires Coupled(s, before, cap, comparison)
    requires s.run.flights != [] && |s.run.last| == |s.run.flights|
    requires R.Excess(s.run.last, s.run.flights) == 0.0 && s.run.other == 0.0
    requires s.outer.highest.validation == s.lastHigh
    ensures ProbeLocal(s.outer, 0.0, comparison, Validation) <==> s.outer.stop.None?
  {
    CoupledBound(s, before, cap, comparison);
    ProbeIsStop(s.outer, comparison);
  }

  /** With no excess, no reflection spend and no new high since the last admission, the
      follow-up comparison passes its own probe exactly when the phase did not stop the
      capped ledger itself. */
  lemma ComparisonFits(outer: Meter, concurrency: nat, events: seq<Event>, comparison: nat)
    requires Ready(outer) && concurrency > 0
    requires var s := Run(Begin(outer, concurrency), events, comparison);
      && s.run.flights != [] && |s.run.last| == |s.run.flights|
      && R.Excess(s.run.last, s.run.flights) == 0.0 && s.run.other == 0.0
      && s.outer.highest.validation == s.lastHigh
    ensures var s := Run(Begin(outer, concurrency), events, comparison);
      ProbeLocal(s.outer, 0.0, comparison, Validation) <==> s.outer.stop.None?
  {
    PhaseCoupled(outer, concurrency, events, comparison);
    CoupledFits(Run(Begin(outer, concurrency), events, comparison), outer.Total(), outer.cap.value, comparison);
  }

  // ----- the reserve does not keep the capped ledger itself from stopping -----

  /** Six and a half of ten dollars spent: one training rollout at four dollars and a half,
      two validation rollouts at one dollar each. */
  function Lopsided(): Meter {
    NewMeter(Some(10.0), Some(2)).(
      ledger := EMPTY_LEDGER.(rollout := Spend(3, 0, 0, 6.5, 0, 0, 0)),
      rolloutObservations := 3,
      observations := PerKind(1, 2), kindDollars := PerKind(4.5, 2.0), highest := PerKind(4.5, 1.0))
  }

  /** One cached validation rollout comes and goes; then a training rollout asks. */
  function TrainingAsks(): seq<Event> {
    [EnterOuter(Validation)] + ([EnterInner(0)] + ([FinishOuter(0)] + ([FinishInner(0)]
    + ([LeaveInner(0)] + ([LeaveOuter(0)] + ([EnterOuter(Training)] + []))))))
  }

  lemma RunOne(s: State, e: Event, rest: seq<Event>, comparison: nat)
    requires s.outer.Gated() && s.run.m.Gated()
    ensures Run(s, [e] + rest, comparison) == Run(Step(s, e, comparison), rest, comparison)
  {
    assert ([e] + rest)[1..] == rest;
  }

  /** The idle phase after that validation rollout, with both gates free again. */
  ghost predicate Quiet(s: State) {
    && s.outer == Lopsided()
    && s.run.m.Gated()
    && s.run.flights == [R.Flight(Validation, 0.0, 0.0, 0, R.Released)]
    && s.run.last == [R.Flight(Validation, 0.0, 0.0, 0, R.Running)]
    && s.run.other == 0.0 && s.lastHigh == 1.0
  }

  lemma LopsidedAdmits()
    ensures TryAdmit(Lopsided(), 0.0, Validation) == (Lopsided(), Admits(1.0))
  {
    assert Lopsided().Total() == 6.5;
  }

  lemma FreshAdmits(m: Meter, reserve: real)
    requires m.cap.Some? && m.maxConcurrent.Some? && m.stop.None? && !m.reflecting && m.observations.validation == 0
    requires m.ActiveRollouts() == 0 && m.reserved == 0.0 && m.Total() + Max(0.0, reserve) < m.cap.value
    ensures TryAdmit(m, reserve, Validation) == (m, Admits(0.0))
  {
    assert AdmissionLimit(m.maxConcurrent.value, 0, LocalCap(m, reserve).value - m.Total(), m.highest.validation) == 1;
  }

  /** One validation rollout with a dollar reserved waits at a fresh inner gate. */
  ghost predicate AtInnerGate(s: State, outer: Meter) {
    && s.outer == outer && s.outer.Gated()
    && s.outer.highest.validation == 1.0 && s.outer.observations.validation == 2
    && s.run.m.Gated() && s.run.m.stop.None? && !s.run.m.reflecting && s.run.m.observations.validation == 0
    && s.run.m.ActiveRollouts() == 0 && s.run.m.reserved == 0.0 && s.run.m.Total() + 1.0 < s.run.m.cap.value
    && s.run.flights == [] && s.holds == [] && s.tickets == [Ticket(Validation, 1.0)]
  }

  lemma EnteringOuter(s: State)
    requires s == Begin(Lopsided(), 2)
    ensures AtInnerGate(Step(s, EnterOuter(Validation), 1), Meters.Hold(Lopsided(), Validation, 1.0))
  {
    LopsidedAdmits();
    assert s.tickets + [Ticket(Validation, 1.0)] == [Ticket(Validation, 1.0)];
  }

  /** That rollout has passed both gates. */
  ghost predicate Entered(s: State, outer: Meter) {
    && s.outer == outer
    && s.run.m.Gated()
    && s.run.flights == s.run.last == [R.Flight(Validation, 0.0, 0.0, 0, R.Running)]
    && s.holds == [Hold(1.0, false, false)]
    && s.run.other == 0.0 && s.lastHigh == 1.0
  }

  lemma EnteringInner(s: State, outer: Meter)
    requires AtInnerGate(s, outer)
    ensures Entered(Step(s, EnterInner(0), 1), outer)
  {
    assert Reserve(s.outer, 1) == 1.0;
    FreshAdmits(s.run.m, 1.0);
    assert s.holds + [Hold(1.0, false, false)] == [Hold(1.0, false, false)];
  }

  lemma Settling(s: State)
    requires s.outer == Meters.Hold(Lopsided(), Validation, 1.0) && s.run.m.Gated()
    requires s.run.flights == s.run.last == [R.Flight(Validation, 0.0, 0.0, 0, R.Running)]
    requires s.holds == [Hold(1.0, false, false)] && s.run.other == 0.0 && s.lastHigh == 1.0
    ensures var t := Step(Step(s, FinishOuter(0), 1), FinishInner(0), 1);
      && t.outer == s.outer && t.run.m.Gated()
      && t.run.flights == [R.Flight(Validation, 0.0, 0.0, 0, R.Observed)] && t.run.last == s.run.last
      && t.holds == [Hold(1.0, true, false)] && t.run.other == 0.0 && t.lastHigh == 1.0
  {
    var t := Step(s, FinishOuter(0), 1);
    assert t.outer == s.outer;
  }

  lemma LeavesInner(run: R.State)
    requires run.m.Gated() && run.flights == [R.Flight(Validation, 0.0, 0.0, 0, R.Observed)]
    ensures var t := R.Step(run, R.Leave(0));
      && t.flights == [R.Flight(Validation, 0.0, 0.0, 0, R.Released)]
      && t.last == run.last && t.other == run.other
  {
  }

  lemma LeavesOuter(s: State, m: Meter)
    requires s.outer.Gated() && s.run.m.Gated()
    requires s.run.flights == [R.Flight(Validation, 0.0, 0.0, 0, R.Released)] && s.holds == [Hold(1.0, true, false)]
    requires Release(s.outer, Validation, 1.0) == m
    ensures var t := Step(s, LeaveOuter(0), 1); t.outer == m && t.run == s.run && t.lastHigh == s.lastHigh
  {
  }

  lemma HoldThenRelease(m: Meter, kind: Kind, reservation: real)
    ensures Release(Meters.Hold(m, kind, reservation), kind, reservation) == m
  {
  }

  lemma Leaving(s: State)
    requires s.outer == Meters.Hold(Lopsided(), Validation, 1.0) && s.run.m.Gated()
    requires s.run.flights == [R.Flight(Validation, 0.0, 0.0, 0, R.Observed)]
    requires s.run.last == [R.Flight(Validation, 0.0, 0.0, 0, R.Running)]
    requires s.holds == [Hold(1.0, true, false)] && s.run.other == 0.0 && s.lastHigh == 1.0
    ensures Quiet(Step(Step(s, LeaveInner(0), 1), LeaveOuter(0), 1))
  {
    var t := Step(s, LeaveInner(0), 1);
    LeavesInner(s.run);
    assert t.outer == s.outer && t.holds == s.holds;
    HoldThenRelease(Lopsided(), Validation, 1.0);
    LeavesOuter(t, Lopsided());
  }

  lemma RunTraining(s: State)
    requires s.outer.Gated() && s.run.m.Gated()
    ensures Run(s, TrainingAsks(), 1) ==
            Step(Step(Step(Step(Step(Step(Step(s, EnterOuter(Validation), 1), EnterInner(0), 1), FinishOuter(0), 1),
                 FinishInner(0), 1), LeaveInner(0), 1), LeaveOuter(0), 1), EnterOuter(Training), 1)
  {
    var r6: seq<Event> := [EnterOuter(Training)] + [];
    var r5 := [LeaveOuter(0)] + r6;
    var r4 := [LeaveInner(0)] + r5;
    var r3 := [FinishInner(0)] + r4;
    var r2 := [FinishOuter(0)] + r3;
    var r1 := [EnterInner(0)] + r2;
    var s1 := Step(s, EnterOuter(Validation), 1);
    var s2 := Step(s1, EnterInner(0), 1);
    var s3 := Step(s2, FinishOuter(0), 1);
    var s4 := Step(s3, FinishInner(0), 1);
    var s5 := Step(s4, LeaveInner(0), 1);
    var s6 := Step(s5, LeaveOuter(0), 1);
    RunOne(s, EnterOuter(Validation), r1, 1);
    RunOne(s1, EnterInner(0), r2, 1);
    RunOne(s2, FinishOuter(0), r3, 1);
    RunOne(s3, FinishInner(0), r4, 1);
    RunOne(s4, LeaveInner(0), r5, 1);
    RunOne(s5, LeaveOuter(0), r6, 1);
    RunOne(s6, EnterOuter(Training), [], 1);
  }

  lemma QuietThenTraining(s: State)
    requires Quiet(s)
    ensures RefusedUnspent(Step(s, EnterOuter(Training), 1))
  {
    var t := Step(s, EnterOuter(Training), 1);
    assert t.outer.stop == Some(CostBudgetReached);
    assert t.run.flights[1..] == [] && t.run.last[1..] == [];
  }

  /** Nothing was spent and no reservation was exceeded, the comparison of one rollout fits
      the headroom, and still the probe refuses it. */
  ghost predicate RefusedUnspent(s: State) {
    && |s.run.flights| == 1 && |s.run.last| == 1
    && R.Excess(s.run.last, s.run.flights) == 0.0 && s.run.other == 0.0
    && s.outer.highest.validation == s.lastHigh == 1.0
    && s.outer.Total() + 1.0 * s.outer.highest.validation <= 10.0
    && !ProbeLocal(s.outer, 0.0, 1, Validation)
  }

  /** The other kind's high can stop the capped ledger in mid-phase. */
  lemma OtherKindStopsComparison()
    ensures Ready(Lopsided())
    ensures RefusedUnspent(Run(Begin(Lopsided(), 2), TrainingAsks(), 1))
  {
    var s := Begin(Lopsided(), 2);
    EnteringOuter(s);
    EnteringInner(Step(s, EnterOuter(Validation), 1), Meters.Hold(Lopsided(), Validation, 1.0));
    var t := Step(Step(s, EnterOuter(Validation), 1), EnterInner(0), 1);
    Settling(t);
    var u := Step(Step(t, FinishOuter(0), 1), FinishInner(0), 1);
    Leaving(u);
    QuietThenTraining(Step(Step(u, LeaveInner(0), 1), LeaveOuter(0), 1));
    RunTraining(s);
  }

  // ----- a phase is a chain of two ledgers -----

  lemma TwoCheck(inner: Meter, outer: Meter, reserve: real)
    ensures var above := CheckLocal(outer, 0.0);
      C.CheckChain([inner, outer], [reserve, 0.0]).0 ==
      [if above.stop.Some? then inner else CheckLocal(inner, reserve), above]
  {
    assert [inner, outer][1..] == [outer] && [reserve, 0.0][1..] == [0.0];
    assert [outer][1..] == [] && [0.0][1..] == [];
    assert C.CheckChain([], []) == ([], None);
    assert [CheckLocal(outer, 0.0)] + [] == [CheckLocal(outer, 0.0)];
    assert C.CheckChain([outer], [0.0]) == ([CheckLocal(outer, 0.0)], CheckLocal(outer, 0.0).stop);
  }

  lemma TwoRecord(inner: Meter, outer: Meter, reserve: real, category: Category, response: Response)
    ensures C.RecordChain([inner, outer], [reserve, 0.0], category, response).0 ==
            [Charge(inner, category, response, reserve), Charge(outer, category, response, 0.0)]
  {
    assert [inner, outer][1..] == [outer] && [reserve, 0.0][1..] == [0.0];
    assert [outer][1..] == [] && [0.0][1..] == [];
    assert C.RecordChain([outer], [0.0], category, response).0 == [Charge(outer, category, response, 0.0)];
  }

  lemma TwoCanStart(inner: Meter, outer: Meter, reserve: real, category: Category, count: int, following: int, kind: Option<Kind>)
    ensures var (m, here) := CanStartLocal(inner, reserve, category, count, following, kind, true);
      var (above, fits) := CanStartLocal(outer, 0.0, category, count, following, kind, false);
      C.CanStartChain([inner, outer], [reserve, 0.0], category, count, following, kind, true).0 ==
      if !here then [m, outer] else if fits then [m, above]
      else [m.(stop := StopOr(above.stop, CostBudgetReached)), above]
  {
    assert [inner, outer][1..] == [outer] && [reserve, 0.0][1..] == [0.0];
    assert [outer][1..] == [] && [0.0][1..] == [];
    var (above, fits) := CanStartLocal(outer, 0.0, category, count, following, kind, false);
    assert [above] + [] == [above] && C.CanStartChain([], [], category, count, following, kind, false) == ([], true);
    assert C.CanStartChain([outer], [0.0], category, count, following, kind, false) == ([above], fits);
  }

  lemma AcceptedStays(m: Meter, reserve: real, category: Category, count: int, following: int, kind: Option<Kind>, stops: bool)
    ensures var r := CanStartLocal(m, reserve, category, count, following, kind, stops); r.1 ==> r.0 == m
  {
  }

  /** What the ancestry of the phase's ledger does is what a chain of the two ledgers does: a charge
      reaches both, a check and a projection ask both, and a projection stops the phase's own. */
  lemma PhaseFollowsChain(s: State, e: Event, comparison: nat)
    requires s.outer.Gated() && s.run.m.Gated()
    ensures var t, chain, reserves := Step(s, e, comparison), [s.run.m, s.outer], [Reserve(s.outer, comparison), 0.0];
      var after := [t.run.m, t.outer];
      && (e.ReflectionSpend? ==> after == C.RecordChain(chain, reserves, Reflection, e.response).0)
      && (e.Respond? && e.id < |s.run.flights| && s.run.flights[e.id].phase.Running? && e.id < |s.holds| && !s.holds[e.id].seen ==>
            after == C.RecordChain(chain, reserves, Rollout, e.response).0)
      && (e.Check? ==> after == C.CheckChain(chain, reserves).0)
      && (e.CanStart? ==> after == C.CanStartChain(chain, reserves, e.category, e.count, e.following, e.kindOf, true).0)
  {
    var reserve := Reserve(s.outer, comparison);
    match e
    case ReflectionSpend(response) => TwoRecord(s.run.m, s.outer, reserve, Reflection, response);
    case Respond(_, response) => TwoRecord(s.run.m, s.outer, reserve, Rollout, response);
    case Check => TwoCheck(s.run.m, s.outer, reserve);
    case CanStart(category, count, following, kindOf) =>
      TwoCanStart(s.run.m, s.outer, reserve, category, count, following, kindOf);
      AcceptedStays(s.run.m, reserve, category, count, following, kindOf, true);
      AcceptedStays(s.outer, 0.0, category, count, following, kindOf, false);
    case _ =>
  }
}
