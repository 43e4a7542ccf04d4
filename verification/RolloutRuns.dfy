/** Every interleaving of rollouts on one capped ledger.

    A run is a list of atomic events: tries at the gate, responses, the end of a
    step's observation, the release of a slot, checks, projections, reflections.
    `last` remembers the rollouts as they stood just after the latest admission;
    it is history only and no event reads it. */
module RolloutRuns {
  import opened Options
  import opened Meters
  import opened Multiples

  datatype Phase = Running | Observed | Released

  datatype Flight = Flight(kind: Kind, reserved: real, spent: real, requests: nat, phase: Phase) {
    predicate Live() {
      !phase.Released?
    }
  }

  /** `lastTotal` and `lastCap` are the spend and the local cap at the latest admission,
      `other` the dollars charged since then by anything but these rollouts. */
  datatype State = State(m: Meter, flights: seq<Flight>, last: seq<Flight>, lastTotal: real, lastCap: real,
                         other: real)

  datatype Event =
    | TryStart(kind: Kind, reserve: real)
    | Respond(id: nat, response: Response, reserve: real)
    | Finish(id: nat)
    | Leave(id: nat)
    | OtherSpend(category: Category, response: Response, reserve: real)
    | Check(reserve: real)
    | CanStart(category: Category, count: int, following: int, kindOf: Option<Kind>, stops: bool, reserve: real)
    | BeginReflection
    | EndReflection

  function Start(m: Meter): State {
    State(m, [], [], m.Total(), m.Total(), 0.0)
  }

  function PriceOf(response: Response): Dollars {
    if response.price.Some? then response.price.value else 0.0
  }

  function Step(s: State, e: Event): State
    requires s.m.Gated()
    ensures Step(s, e).m.Gated()
  {
    match e
    case TryStart(kind, reserve) =>
      var (m, answer) := TryAdmit(s.m, reserve, kind);
      if answer.Admits? then
        var flights := s.flights + [Flight(kind, answer.reservation, 0.0, 0, Running)];
        State(Hold(m, kind, answer.reservation), flights, flights, m.Total(), LocalCap(m, reserve).value, 0.0)
      else s.(m := m)
    case Respond(id, response, reserve) =>
      if id < |s.flights| && s.flights[id].phase.Running? then
        var f := s.flights[id];
        var paid := f.(spent := f.spent + PriceOf(response), requests := f.requests + 1);
        s.(m := Charge(s.m, Rollout, response, reserve), flights := s.flights[id := paid])
      else s
    case Finish(id) =>
      if id < |s.flights| && s.flights[id].phase.Running? then
        var f := s.flights[id];
        s.(m := Observe(s.m, Rollout, f.kind, f.requests, f.spent),
           flights := s.flights[id := f.(phase := Observed)])
      else s
    case Leave(id) =>
      if id < |s.flights| && s.flights[id].phase.Observed? then
        var f := s.flights[id];
        s.(m := Release(s.m, f.kind, f.reserved), flights := s.flights[id := f.(phase := Released)])
      else s
    case OtherSpend(category, response, reserve) =>
      s.(m := Charge(s.m, category, response, reserve), other := s.other + PriceOf(response))
    case Check(reserve) => s.(m := CheckLocal(s.m, reserve))
    case CanStart(category, count, following, kindOf, stops, reserve) =>
      s.(m := CanStartLocal(s.m, reserve, category, count, following, kindOf, stops).0)
    case BeginReflection =>
      if s.m.reflecting || s.m.active.training != 0 || s.m.active.validation != 0 then s
      else s.(m := s.m.(reflecting := true))
    case EndReflection => s.(m := s.m.(reflecting := false))
  }

  function Run(s: State, events: seq<Event>): (end: State)
    requires s.m.Gated()
    ensures end.m.Gated()
    decreases |events|
  {
    if events == [] then s else Run(Step(s, events[0]), events[1..])
  }

  // ----- sums over rollouts -----

  function ReservedBy(fs: seq<Flight>): real {
    if fs == [] then 0.0 else (if fs[0].Live() then fs[0].reserved else 0.0) + ReservedBy(fs[1..])
  }

  function SpentBy(fs: seq<Flight>): real {
    if fs == [] then 0.0 else fs[0].spent + SpentBy(fs[1..])
  }

  function LiveOf(fs: seq<Flight>, kind: Kind): nat {
    if fs == [] then 0 else (if fs[0].Live() && fs[0].kind == kind then 1 else 0) + LiveOf(fs[1..], kind)
  }

  /** What the rollouts in flight in `last` have since cost above their reservations. */
  function Excess(last: seq<Flight>, now: seq<Flight>): real
    requires |last| == |now|
  {
    if last == [] then 0.0
    else (if last[0].Live() then Max(0.0, now[0].spent - last[0].reserved) else 0.0) + Excess(last[1..], now[1..])
  }

  lemma {:induction false} SumsAppend(fs: seq<Flight>, f: Flight)
    ensures ReservedBy(fs + [f]) == ReservedBy(fs) + (if f.Live() then f.reserved else 0.0)
    ensures SpentBy(fs + [f]) == SpentBy(fs) + f.spent
    ensures LiveOf(fs + [f], Training) == LiveOf(fs, Training) + (if f.Live() && f.kind.Training? then 1 else 0)
    ensures LiveOf(fs + [f], Validation) == LiveOf(fs, Validation) + (if f.Live() && f.kind.Validation? then 1 else 0)
  {
    if fs == [] {
    } else {
      assert (fs + [f])[1..] == fs[1..] + [f];
      SumsAppend(fs[1..], f);
    }
  }

  lemma {:induction false} SumsUpdate(fs: seq<Flight>, i: nat, f: Flight)
    requires i < |fs|
    ensures ReservedBy(fs[i := f]) == ReservedBy(fs) - (if fs[i].Live() then fs[i].reserved else 0.0)
                                      + (if f.Live() then f.reserved else 0.0)
    ensures SpentBy(fs[i := f]) == SpentBy(fs) - fs[i].spent + f.spent
    ensures LiveOf(fs[i := f], Training) ==
            LiveOf(fs, Training) - (if fs[i].Live() && fs[i].kind.Training? then 1 else 0)
            + (if f.Live() && f.kind.Training? then 1 else 0)
    ensures LiveOf(fs[i := f], Validation) ==
            LiveOf(fs, Validation) - (if fs[i].Live() && fs[i].kind.Validation? then 1 else 0)
            + (if f.Live() && f.kind.Validation? then 1 else 0)
  {
    if i == 0 {
      assert fs[i := f][1..] == fs[1..];
    } else {
      assert fs[i := f][1..] == fs[1..][i - 1 := f];
      SumsUpdate(fs[1..], i - 1, f);
    }
  }

  lemma {:induction false} NothingLive(fs: seq<Flight>)
    requires LiveOf(fs, Training) == 0 && LiveOf(fs, Validation) == 0
    ensures ReservedBy(fs) == 0.0
    ensures forall i :: 0 <= i < |fs| ==> !fs[i].Live()
  {
    if fs == [] {
    } else {
      assert !fs[0].Live();
      NothingLive(fs[1..]);
    }
  }

  /** Growth since `last`, less the reservations held then, is at most the excess. */
  lemma {:induction false} GrowthWithinExcess(last: seq<Flight>, now: seq<Flight>)
    requires |last| == |now|
    requires forall i :: 0 <= i < |last| ==> last[i].spent >= 0.0
    requires forall i :: 0 <= i < |last| && !last[i].Live() ==> now[i].spent == last[i].spent
    ensures SpentBy(now) - SpentBy(last) - ReservedBy(last) <= Excess(last, now)
    ensures Excess(last, now) >= 0.0
  {
    if last == [] {
    } else {
      GrowthWithinExcess(last[1..], now[1..]);
    }
  }

  lemma {:induction false} ExcessAtMost(last: seq<Flight>, now: seq<Flight>, each: real)
    requires |last| == |now| && each >= 0.0
    requires forall i :: 0 <= i < |last| && last[i].Live() ==> now[i].spent - last[i].reserved <= each
    ensures Excess(last, now) <= Times(LiveOf(last, Training) + LiveOf(last, Validation), each)
  {
    if last == [] {
    } else {
      ExcessAtMost(last[1..], now[1..], each);
    }
  }

  // ----- the books: what every event keeps -----

  function SlotLimit(m: Meter, kind: Kind): nat
    requires m.Gated()
  {
    var ramp := if m.maxConcurrent.value <= m.observations.Get(kind) then m.maxConcurrent.value
                else m.observations.Get(kind);
    if ramp < 1 then 1 else ramp
  }

  ghost predicate Books(s: State) {
    && s.m.Gated()
    && s.m.Configured()
    && s.m.reserved == ReservedBy(s.flights)
    && s.m.active == PerKind(LiveOf(s.flights, Training), LiveOf(s.flights, Validation))
    && s.m.active.training <= SlotLimit(s.m, Training)
    && s.m.active.validation <= SlotLimit(s.m, Validation)
    && s.m.ActiveRollouts() <= s.m.maxConcurrent.value
    && (s.m.reflecting ==> s.m.ActiveRollouts() == 0)
    && (forall i :: 0 <= i < |s.flights| ==> s.flights[i].spent >= 0.0 && s.flights[i].reserved >= 0.0)
    && s.m.highest.training >= 0.0 && s.m.highest.validation >= 0.0
  }

  /** How the state stands to the latest admission. */
  ghost predicate SinceLast(s: State, cap: real) {
    && s.m.Gated()
    && |s.last| == |s.flights|
    && (forall i :: 0 <= i < |s.last| ==>
          && s.last[i].spent >= 0.0
          && s.last[i].reserved == s.flights[i].reserved
          && (!s.last[i].Live() ==> s.flights[i] == s.last[i])
          && (s.flights[i].Live() ==> s.last[i].Live()))
    && s.lastCap <= cap
    && s.lastTotal + ReservedBy(s.last) <= s.lastCap
    && s.other >= 0.0
    && s.m.Total() == s.lastTotal + SpentBy(s.flights) - SpentBy(s.last) + s.other
    && LiveOf(s.last, Training) + LiveOf(s.last, Validation) <= s.m.maxConcurrent.value
  }

  ghost predicate Sound(s: State, cap: real) {
    Books(s) && s.m.cap == Some(cap) && SinceLast(s, cap)
  }

  lemma TryStartBooks(s: State, e: Event)
    requires Books(s) && e.TryStart?
    ensures Books(Step(s, e))
  {
    var (m, answer) := TryAdmit(s.m, e.reserve, e.kind);
    if answer.Admits? {
      SumsAppend(s.flights, Flight(e.kind, answer.reservation, 0.0, 0, Running));
    }
  }

  lemma TryStartSinceLast(s: State, e: Event, cap: real)
    requires Sound(s, cap) && e.TryStart?
    ensures SinceLast(Step(s, e), cap)
  {
    var (m, answer) := TryAdmit(s.m, e.reserve, e.kind);
    if answer.Admits? {
      SumsAppend(s.flights, Flight(e.kind, answer.reservation, 0.0, 0, Running));
      TryStartBooks(s, e);
    }
  }

  /** An observation changes no slot and no reservation, and never lowers a slot limit. */
  lemma ObserveWidens(m: Meter, kind: Kind, requests: nat, dollars: real)
    requires m.Gated() && m.highest.training >= 0.0 && m.highest.validation >= 0.0
    ensures var o := Observe(m, Rollout, kind, requests, dollars);
      && o == m.(rolloutObservations := o.rolloutObservations, observations := o.observations,
                 kindDollars := o.kindDollars, highest := o.highest)
      && SlotLimit(m, Training) <= SlotLimit(o, Training) && SlotLimit(m, Validation) <= SlotLimit(o, Validation)
      && o.highest.training >= 0.0 && o.highest.validation >= 0.0
  {
  }

  lemma FinishBooks(s: State, id: nat)
    requires Books(s) && id < |s.flights| && s.flights[id].phase.Running?
    ensures Books(Step(s, Finish(id)))
  {
    var f := s.flights[id];
    ObserveWidens(s.m, f.kind, f.requests, f.spent);
    SumsUpdate(s.flights, id, f.(phase := Observed));
  }

  lemma LeaveBooks(s: State, id: nat)
    requires Books(s) && id < |s.flights| && s.flights[id].phase.Observed?
    ensures Books(Step(s, Leave(id)))
  {
    SumsUpdate(s.flights, id, s.flights[id].(phase := Released));
  }

  lemma SettleBooks(s: State, e: Event)
    requires Books(s) && (e.Finish? || e.Leave?)
    ensures Books(Step(s, e))
  {
    if e.id < |s.flights| {
      if e.Finish? && s.flights[e.id].phase.Running? {
        FinishBooks(s, e.id);
      } else if e.Leave? && s.flights[e.id].phase.Observed? {
        LeaveBooks(s, e.id);
      }
    }
  }

  lemma SettleSinceLast(s: State, e: Event, cap: real)
    requires Sound(s, cap) && (e.Finish? || e.Leave?)
    ensures SinceLast(Step(s, e), cap)
  {
    if e.id < |s.flights| {
      var f := s.flights[e.id];
      SumsUpdate(s.flights, e.id, f.(phase := if e.Finish? then Observed else Released));
    }
  }

  /** Headroom net of the live reserve and of what is reserved for rollouts in flight. */
  function Headroom(m: Meter, reserve: real): real
    requires m.cap.Some?
  {
    m.cap.value - Max(0.0, reserve) - (m.ledger.reflection.dollars + m.ledger.rollout.dollars) - m.reserved
  }

  /** One more rollout of the kind fits the headroom at the kind's highest cost. */
  predicate OneFits(m: Meter, reserve: real, kind: Kind)
    requires m.cap.Some?
  {
    Headroom(m, reserve) > 0.0 && (m.observations.Get(kind) > 0 ==> m.highest.Get(kind) <= Headroom(m, reserve))
  }

  /** Beside others it needs a ramped slot that is free, and headroom for all ramped slots at the
      kind's highest cost. */
  predicate SlotFree(m: Meter, reserve: real, kind: Kind)
    requires m.Gated()
  {
    m.ActiveRollouts() < SlotLimit(m, kind) && Headroom(m, reserve) >= SlotLimit(m, kind) as real * m.highest.Get(kind)
  }

  lemma LimitIsRamp(m: Meter, kind: Kind, remaining: real)
    requires m.Gated()
    ensures var limit := AdmissionLimit(m.maxConcurrent.value, m.observations.Get(kind), remaining, m.highest.Get(kind));
      limit == if remaining >= SlotLimit(m, kind) as real * m.highest.Get(kind) then SlotLimit(m, kind) else 1
  {
  }

  /** When the gate admits, refuses and waits; what it reserves; and that it changes nothing but
      the stop of a ledger that refuses. */
  lemma AdmitsExactly(m: Meter, reserve: real, kind: Kind)
    requires m.Gated() && m.active.training >= 0 && m.active.validation >= 0
    ensures var (after, answer) := TryAdmit(m, reserve, kind);
      && (answer.Admits? <==>
            && m.stop.None? && !m.reflecting && OneFits(m, reserve, kind)
            && (m.ActiveRollouts() == 0 || SlotFree(m, reserve, kind)))
      && (answer.Refuses? <==>
            m.stop.Some? || (!m.reflecting && m.ActiveRollouts() == 0 && !OneFits(m, reserve, kind)))
      && (answer.Admits? ==> answer.reservation == if m.observations.Get(kind) > 0 then m.highest.Get(kind) else 0.0)
      && after == if answer.Refuses? && m.stop.None? then m.(stop := Some(CostBudgetReached)) else m
  {
    LimitIsRamp(m, kind, Headroom(m, reserve));
    assert Headroom(m, reserve) == LocalCap(m, reserve).value - m.Total() - m.reserved;
  }

  /** The fields that admission reads and writes, but for the barrier. */
  predicate SameGate(a: Meter, b: Meter) {
    && a.cap == b.cap && a.maxConcurrent == b.maxConcurrent
    && a.observations == b.observations && a.highest == b.highest
    && a.active == b.active && a.reserved == b.reserved
  }

  lemma ChargeKeepsGate(m: Meter, category: Category, response: Response, reserve: real)
    ensures var c := Charge(m, category, response, reserve);
      && SameGate(m, c) && c.reflecting == m.reflecting
      && c.Total() == m.Total() + PriceOf(response)
  {
  }

  /** Payment changes neither phases nor reservations. */
  lemma PaidBooks(s: State, t: State, id: nat, f: Flight)
    requires Books(s) && SameGate(s.m, t.m) && t.m.reflecting == s.m.reflecting
    requires id < |s.flights| && t.flights == s.flights[id := f]
    requires f == s.flights[id].(spent := f.spent, requests := f.requests) && f.spent >= 0.0
    ensures Books(t)
  {
    SumsUpdate(s.flights, id, f);
  }

  lemma PaidSinceLast(s: State, t: State, id: nat, f: Flight, cap: real)
    requires SinceLast(s, cap) && SameGate(s.m, t.m)
    requires id < |s.flights| && t.flights == s.flights[id := f] && s.flights[id].Live()
    requires f == s.flights[id].(spent := f.spent, requests := f.requests)
    requires t.m.Total() == s.m.Total() + f.spent - s.flights[id].spent
    requires t.last == s.last && t.lastTotal == s.lastTotal && t.lastCap == s.lastCap && t.other == s.other
    ensures SinceLast(t, cap)
  {
    SumsUpdate(s.flights, id, f);
  }

  lemma RespondSound(s: State, e: Event, cap: real)
    requires Sound(s, cap) && e.Respond?
    ensures Sound(Step(s, e), cap)
  {
    if e.id < |s.flights| && s.flights[e.id].phase.Running? {
      var f := s.flights[e.id];
      var paid := f.(spent := f.spent + PriceOf(e.response), requests := f.requests + 1);
      ChargeKeepsGate(s.m, Rollout, e.response, e.reserve);
      PaidBooks(s, Step(s, e), e.id, paid);
      PaidSinceLast(s, Step(s, e), e.id, paid, cap);
    }
  }

  /** Spending elsewhere, checks and reflections leave the rollouts alone. */
  lemma SameGateSound(s: State, t: State, cap: real)
    requires Sound(s, cap) && SameGate(s.m, t.m) && (t.m.reflecting ==> s.m.ActiveRollouts() == 0)
    requires t == s.(m := t.m, other := t.other) && t.other >= s.other
    requires t.m.Total() == s.m.Total() + (t.other - s.other)
    ensures Sound(t, cap)
  {
  }

  lemma QuietSound(s: State, e: Event, cap: real)
    requires Sound(s, cap) && (e.OtherSpend? || e.Check? || e.CanStart? || e.BeginReflection? || e.EndReflection?)
    ensures Sound(Step(s, e), cap)
  {
    if e.OtherSpend? {
      ChargeKeepsGate(s.m, e.category, e.response, e.reserve);
    }
    SameGateSound(s, Step(s, e), cap);
  }

  lemma StepSound(s: State, e: Event, cap: real)
    requires Sound(s, cap)
    ensures Sound(Step(s, e), cap)
  {
    match e
    case TryStart(_, _) => TryStartBooks(s, e); TryStartSinceLast(s, e, cap);
    case Respond(_, _, _) => RespondSound(s, e, cap);
    case Finish(_) => SettleBooks(s, e); SettleSinceLast(s, e, cap);
    case Leave(_) => SettleBooks(s, e); SettleSinceLast(s, e, cap);
    case _ => QuietSound(s, e, cap);
  }

  lemma {:induction false} RunSound(s: State, events: seq<Event>, cap: real)
    requires Sound(s, cap)
    ensures Sound(Run(s, events), cap)
    decreases |events|
  {
    if events != [] {
      StepSound(s, events[0], cap);
      RunSound(Step(s, events[0]), events[1..], cap);
    }
  }

  lemma {:induction false} RunKeepsGate(s: State, events: seq<Event>)
    requires s.m.Gated()
    ensures Run(s, events).m.cap == s.m.cap && Run(s, events).m.maxConcurrent == s.m.maxConcurrent
    decreases |events|
  {
    if events != [] {
      RunKeepsGate(Step(s, events[0]), events[1..]);
    }
  }

  /** The overshoot bound.  Whatever the interleaving, reservations are exactly those
      of the rollouts in flight, slots ramp with observations, and total spend stays
      within the cap plus what the rollouts in flight just after the last admission
      cost above their reservations, plus spend that no rollout gate saw. */
  lemma OvershootBound(cap: real, maxConcurrent: nat, events: seq<Event>)
    requires cap > 0.0 && maxConcurrent > 0
    ensures var s := Run(Start(NewMeter(Some(cap), Some(maxConcurrent))), events);
      && s.m.reserved == ReservedBy(s.flights)
      && s.m.active.training == LiveOf(s.flights, Training) <= SlotLimit(s.m, Training)
      && s.m.active.validation == LiveOf(s.flights, Validation) <= SlotLimit(s.m, Validation)
      && LiveOf(s.flights, Training) + LiveOf(s.flights, Validation) <= maxConcurrent
      && |s.last| == |s.flights|
      && s.lastCap <= cap
      && s.m.Total() <= s.lastCap + Excess(s.last, s.flights) + s.other
      && LiveOf(s.last, Training) + LiveOf(s.last, Validation) <= maxConcurrent
  {
    var s0 := Start(NewMeter(Some(cap), Some(maxConcurrent)));
    assert Sound(s0, cap);
    RunSound(s0, events, cap);
    RunKeepsGate(s0, events);
    var s := Run(s0, events);
    GrowthWithinExcess(s.last, s.flights);
  }

  /** With at most `maxConcurrent` rollouts in flight, the overshoot is at most that many
      times the largest cost of one of them above its reservation. */
  lemma OvershootPerSlot(cap: real, maxConcurrent: nat, events: seq<Event>, each: real)
    requires cap > 0.0 && maxConcurrent > 0 && each >= 0.0
    requires var s := Run(Start(NewMeter(Some(cap), Some(maxConcurrent))), events);
      && |s.last| == |s.flights|
      && forall i :: 0 <= i < |s.last| && s.last[i].Live() ==> s.flights[i].spent - s.last[i].reserved <= each
    ensures var s := Run(Start(NewMeter(Some(cap), Some(maxConcurrent))), events);
      s.m.Total() <= cap + maxConcurrent as real * each + s.other
  {
    OvershootBound(cap, maxConcurrent, events);
    var s := Run(Start(NewMeter(Some(cap), Some(maxConcurrent))), events);
    ExcessAtMost(s.last, s.flights, each);
    TimesGrows(LiveOf(s.last, Training) + LiveOf(s.last, Validation), maxConcurrent, each);
    TimesIsProduct(maxConcurrent, each);
  }

  function Flying(s: State): nat {
    LiveOf(s.flights, Training) + LiveOf(s.flights, Validation)
  }

  /** What is left for one more rollout. */
  function Room(s: State, cap: real, reserve: real): real {
    cap - Max(0.0, reserve) - s.m.Total() - ReservedBy(s.flights)
  }

  /** No stop and no reflection, room for the kind's highest cost, and, beside others in flight,
      a free ramped slot and room for all ramped slots at that cost. */
  predicate MayStart(s: State, cap: real, kind: Kind, reserve: real)
    requires s.m.Gated()
  {
    var high, slots := s.m.highest.Get(kind), SlotLimit(s.m, kind);
    var room := Room(s, cap, reserve);
    && s.m.stop.None? && !s.m.reflecting && room > 0.0
    && (s.m.observations.Get(kind) > 0 ==> high <= room)
    && (Flying(s) == 0 || (Flying(s) < slots && room >= slots as real * high))
  }

  /** The same in terms of the ledger's own counts. */
  lemma MayStartInBooks(s: State, cap: real, kind: Kind, reserve: real)
    requires Books(s) && s.m.cap == Some(cap)
    ensures MayStart(s, cap, kind, reserve) <==>
            s.m.stop.None? && !s.m.reflecting && OneFits(s.m, reserve, kind)
            && (s.m.ActiveRollouts() == 0 || SlotFree(s.m, reserve, kind))
  {
    assert Headroom(s.m, reserve) == Room(s, cap, reserve);
  }

  /** Over every run, a rollout starts exactly when it may, and reserves its kind's highest cost. */
  lemma StartsExactly(cap: real, maxConcurrent: nat, events: seq<Event>, kind: Kind, reserve: real)
    requires cap > 0.0 && maxConcurrent > 0
    ensures var s := Run(Start(NewMeter(Some(cap), Some(maxConcurrent))), events);
      var reserved := if s.m.observations.Get(kind) > 0 then s.m.highest.Get(kind) else 0.0;
      Step(s, TryStart(kind, reserve)).flights ==
      s.flights + if MayStart(s, cap, kind, reserve) then [Flight(kind, reserved, 0.0, 0, Running)] else []
  {
    var s0 := Start(NewMeter(Some(cap), Some(maxConcurrent)));
    assert Sound(s0, cap);
    RunSound(s0, events, cap);
    var s := Run(s0, events);
    MayStartInBooks(s, cap, kind, reserve);
    AdmitsExactly(s.m, reserve, kind);
  }

  // ----- the narrower bound of the class documentation -----

  /** The same sum over the rollouts still in flight now. */
  function ExcessInFlight(now: seq<Flight>): real {
    if now == [] then 0.0
    else (if now[0].Live() then Max(0.0, now[0].spent - now[0].reserved) else 0.0) + ExcessInFlight(now[1..])
  }

  lemma {:induction false} ExcessLeftInFlight(last: seq<Flight>, now: seq<Flight>)
    requires |last| == |now|
    requires forall i :: 0 <= i < |last| ==> last[i].reserved == now[i].reserved
                                             && (now[i].Live() ==> last[i].Live())
    ensures ExcessInFlight(now) <= Excess(last, now)
    ensures Excess(last, now) == ExcessInFlight(now) <==>
            forall i :: 0 <= i < |last| && last[i].Live() && !now[i].Live() ==> now[i].spent <= now[i].reserved
  {
    if last == [] {
    } else {
      ExcessLeftInFlight(last[1..], now[1..]);
      assert forall i :: 0 <= i < |last| - 1 ==> last[1..][i] == last[i + 1] && now[1..][i] == now[i + 1];
      assert forall i :: 1 <= i < |last| ==> last[i] == last[1..][i - 1] && now[i] == now[1..][i - 1];
    }
  }

  /** The documented bound names the rollouts in flight when the run stops.  The bound
      proved above reduces to it exactly when no rollout of the last admission has
      already settled above its reservation; then it holds. */
  lemma DocumentedBound(cap: real, maxConcurrent: nat, events: seq<Event>)
    requires cap > 0.0 && maxConcurrent > 0
    ensures var s := Run(Start(NewMeter(Some(cap), Some(maxConcurrent))), events);
      && |s.last| == |s.flights|
      && (Excess(s.last, s.flights) == ExcessInFlight(s.flights) <==>
          forall i :: 0 <= i < |s.last| && s.last[i].Live() && !s.flights[i].Live()
                      ==> s.flights[i].spent <= s.flights[i].reserved)
      && ((forall i :: 0 <= i < |s.last| && s.last[i].Live() && !s.flights[i].Live()
                       ==> s.flights[i].spent <= s.flights[i].reserved)
          ==> s.m.Total() <= cap + ExcessInFlight(s.flights) + s.other)
  {
    OvershootBound(cap, maxConcurrent, events);
    var s0 := Start(NewMeter(Some(cap), Some(maxConcurrent)));
    assert Sound(s0, cap);
    RunSound(s0, events, cap);
    var s := Run(s0, events);
    ExcessLeftInFlight(s.last, s.flights);
  }

  function Paid(price: Dollars): Response {
    Response(0, 0, Some(price))
  }

  /** One rollout, from its admission to its release, that costs `price`. */
  function Alone(id: nat, price: Dollars): seq<Event> {
    [TryStart(Training, 0.0), Respond(id, Paid(price), 0.0), Finish(id), Leave(id)]
  }

  /** One of two concurrent rollouts settles far above its reservation; then the other stops the run. */
  function Overlapping(): seq<Event> {
    [TryStart(Training, 0.0), TryStart(Training, 0.0),
     Respond(2, Paid(7.5), 0.0), Finish(2), Leave(2), Respond(3, Paid(1.0), 0.0)]
  }

  /** Two cheap rollouts first, which raise the slots to two. */
  function SettledExcess(): seq<Event> {
    Alone(0, 1.0) + (Alone(1, 1.0) + Overlapping())
  }

  lemma {:induction false} RunAppend(s: State, a: seq<Event>, b: seq<Event>)
    requires s.m.Gated()
    ensures Run(s, a + b) == Run(Run(s, a), b)
    decreases |a|
  {
    if a == [] {
      assert a + b == b;
    } else {
      assert (a + b)[1..] == a[1..] + b;
      RunAppend(Step(s, a[0]), a[1..], b);
    }
  }

  lemma RunOne(s: State, e: Event, rest: seq<Event>)
    requires s.m.Gated()
    ensures Run(s, [e] + rest) == Run(Step(s, e), rest)
  {
    assert ([e] + rest)[1..] == rest;
  }

  lemma RunFour(s: State, a: Event, b: Event, c: Event, d: Event)
    requires s.m.Gated()
    ensures Run(s, [a, b, c, d]) == Step(Step(Step(Step(s, a), b), c), d)
  {
    assert [a, b, c, d] == [a] + ([b] + ([c] + ([d] + [])));
    RunOne(s, a, [b] + ([c] + ([d] + [])));
    RunOne(Step(s, a), b, [c] + ([d] + []));
    RunOne(Step(Step(s, a), b), c, [d] + []);
    RunOne(Step(Step(Step(s, a), b), c), d, []);
  }

  /** An idle, unstopped gate under a cap of ten dollars and two slots. */
  predicate Idle(s: State) {
    && s.m.cap == Some(10.0) && s.m.maxConcurrent == Some(2)
    && s.m.stop.None? && !s.m.reflecting
    && s.m.active == PerKind(0, 0) && s.m.reserved == 0.0
    && s.m.highest.training <= 1.0
    && s.m.Total() == s.m.observations.training as real <= 2.0
  }

  lemma AloneRuns(s: State)
    requires Idle(s) && s.m.observations.training < 2
    ensures var t := Run(s, Alone(|s.flights|, 1.0));
      && Idle(t)
      && t.m.observations.training == s.m.observations.training + 1
      && t.m.highest.training == 1.0
      && |t.flights| == |s.flights| + 1 && t.flights[..|s.flights|] == s.flights
      && !t.flights[|s.flights|].Live()
  {
    var id := |s.flights|;
    var e0, e1, e2, e3 := TryStart(Training, 0.0), Respond(id, Paid(1.0), 0.0), Finish(id), Leave(id);
    RunFour(s, e0, e1, e2, e3);
    var s1 := Step(s, e0);
    assert s1.flights[..id] == s.flights && s1.flights[id].phase.Running? && s1.m.active == PerKind(1, 0);
    var s2 := Step(s1, e1);
    var s3 := Step(s2, e2);
    var s4 := Step(s3, e3);
  }

  /** Two rollouts in flight, a dollar reserved for each. */
  lemma BothStart(s: State)
    requires Idle(s) && s.m.observations.training == 2 && s.m.highest.training == 1.0
    ensures var t := Step(Step(s, TryStart(Training, 0.0)), TryStart(Training, 0.0));
      && t.m == s.m.(active := PerKind(2, 0), reserved := 2.0)
      && t.flights == s.flights + [Flight(Training, 1.0, 0.0, 0, Running), Flight(Training, 1.0, 0.0, 0, Running)]
      && t.other == 0.0
  {
    var e := TryStart(Training, 0.0);
    var s1 := Step(s, e);
    assert s1.m == s.m.(active := PerKind(1, 0), reserved := 1.0);
    assert s1.flights == s.flights + [Flight(Training, 1.0, 0.0, 0, Running)];
    var s2 := Step(s1, e);
    assert s2.flights == s1.flights + [Flight(Training, 1.0, 0.0, 0, Running)];
  }

  /** One of the two pays far above its reservation and settles. */
  lemma OneSettles(s: State)
    requires s.m.Gated() && s.m.cap == Some(10.0) && s.m.stop.None? && s.m.active == PerKind(2, 0)
    requires s.m.Total() == 2.0 && s.other == 0.0
    requires |s.flights| == 4 && !s.flights[0].Live() && !s.flights[1].Live()
    requires s.flights[2] == s.flights[3] == Flight(Training, 1.0, 0.0, 0, Running)
    ensures var t := Step(Step(Step(s, Respond(2, Paid(7.5), 0.0)), Finish(2)), Leave(2));
      && t.m.cap == Some(10.0) && t.m.stop.None? && t.m.active == PerKind(1, 0)
      && t.m.Total() == 9.5 && t.other == 0.0
      && |t.flights| == 4 && (forall i :: 0 <= i < 3 ==> !t.flights[i].Live())
      && t.flights[3] == Flight(Training, 1.0, 0.0, 0, Running)
  {
    var paid := Step(s, Respond(2, Paid(7.5), 0.0));
    assert paid.m.Total() == 9.5 && paid.m.stop.None?;
  }

  /** The other pays what it reserved, and stops the run. */
  lemma OtherStops(s: State)
    requires s.m.Gated() && s.m.cap == Some(10.0) && s.m.stop.None? && s.m.active == PerKind(1, 0)
    requires s.m.Total() == 9.5
    requires |s.flights| == 4 && s.flights[3] == Flight(Training, 1.0, 0.0, 0, Running)
    ensures var t := Step(s, Respond(3, Paid(1.0), 0.0));
      && t.m.stop == Some(CostBudgetReached) && t.m.active == PerKind(1, 0) && t.m.Total() == 10.5
      && t.other == s.other
      && t.flights == s.flights[3 := Flight(Training, 1.0, 1.0, 1, Running)]
  {
  }

  lemma OneSettlesThenOther(s: State)
    requires s.m.Gated() && s.m.cap == Some(10.0) && s.m.stop.None? && s.m.active == PerKind(2, 0)
    requires s.m.Total() == 2.0 && s.other == 0.0
    requires |s.flights| == 4 && !s.flights[0].Live() && !s.flights[1].Live()
    requires s.flights[2] == s.flights[3] == Flight(Training, 1.0, 0.0, 0, Running)
    ensures var t := Run(s, [Respond(2, Paid(7.5), 0.0), Finish(2), Leave(2), Respond(3, Paid(1.0), 0.0)]);
      && t.m.stop == Some(CostBudgetReached)
      && t.m.ActiveRollouts() == 1 && |t.flights| == 4
      && (forall i :: 0 <= i < 3 ==> !t.flights[i].Live())
      && t.flights[3].Live() && t.flights[3].spent == t.flights[3].reserved
      && t.other == 0.0
      && t.m.Total() == 10.5
  {
    var e2, e3, e4, e5 := Respond(2, Paid(7.5), 0.0), Finish(2), Leave(2), Respond(3, Paid(1.0), 0.0);
    RunFour(s, e2, e3, e4, e5);
    OneSettles(s);
    OtherStops(Step(Step(Step(s, e2), e3), e4));
  }

  lemma SettledExcessOvershoots(s: State)
    requires Idle(s) && s.m.observations.training == 2 && s.m.highest.training == 1.0
    requires |s.flights| == 2 && !s.flights[0].Live() && !s.flights[1].Live()
    ensures var t := Run(s, Overlapping());
      && t.m.stop == Some(CostBudgetReached)
      && t.m.ActiveRollouts() == 1 && |t.flights| == 4
      && (forall i :: 0 <= i < 3 ==> !t.flights[i].Live())
      && t.flights[3].Live() && t.flights[3].spent == t.flights[3].reserved
      && t.other == 0.0
      && t.m.Total() == 10.5
  {
    var e := TryStart(Training, 0.0);
    var rest := [Respond(2, Paid(7.5), 0.0), Finish(2), Leave(2), Respond(3, Paid(1.0), 0.0)];
    assert Overlapping() == [e] + ([e] + rest);
    RunOne(s, e, [e] + rest);
    RunOne(Step(s, e), e, rest);
    BothStart(s);
    OneSettlesThenOther(Step(Step(s, e), e));
  }

  lemma {:induction false} NoExcessInFlight(now: seq<Flight>)
    requires forall i :: 0 <= i < |now| && now[i].Live() ==> now[i].spent <= now[i].reserved
    ensures ExcessInFlight(now) == 0.0
  {
    if now != [] {
      assert forall i :: 0 <= i < |now[1..]| ==> now[1..][i] == now[i + 1];
      NoExcessInFlight(now[1..]);
    }
  }

  /** A stop over ten dollars while the only rollout in flight cost what it reserved. */
  ghost predicate StoppedOverCap(t: State) {
    && t.m.stop == Some(CostBudgetReached)
    && |t.flights| == 4 && t.flights[3].Live() && t.flights[3].spent == t.flights[3].reserved
    && t.m.ActiveRollouts() == 1
    && t.other == 0.0
    && t.m.Total() > 10.0 + ExcessInFlight(t.flights)
  }

  lemma RunAppendTwice(s: State, a: seq<Event>, b: seq<Event>, c: seq<Event>)
    requires s.m.Gated()
    ensures Run(s, a + (b + c)) == Run(Run(Run(s, a), b), c)
  {
    RunAppend(s, a, b + c);
    RunAppend(Run(s, a), b, c);
  }

  lemma OverCap(t: State)
    requires t.m.stop == Some(CostBudgetReached) && t.m.ActiveRollouts() == 1 && |t.flights| == 4
    requires forall i :: 0 <= i < 3 ==> !t.flights[i].Live()
    requires t.flights[3].Live() && t.flights[3].spent == t.flights[3].reserved
    requires t.other == 0.0 && t.m.Total() == 10.5
    ensures StoppedOverCap(t)
  {
    NoExcessInFlight(t.flights);
  }

  lemma OverlappingStops(s: State)
    requires Idle(s) && s.m.observations.training == 2 && s.m.highest.training == 1.0
    requires |s.flights| == 2 && !s.flights[0].Live() && !s.flights[1].Live()
    ensures StoppedOverCap(Run(s, Overlapping()))
  {
    SettledExcessOvershoots(s);
    OverCap(Run(s, Overlapping()));
  }

  lemma TwoCheapOnesFirst(s: State)
    requires Idle(s) && s.m.observations.training == 0 && s.flights == []
    ensures var t := Run(Run(s, Alone(0, 1.0)), Alone(1, 1.0));
      && Idle(t) && t.m.observations.training == 2 && t.m.highest.training == 1.0
      && |t.flights| == 2 && !t.flights[0].Live() && !t.flights[1].Live()
  {
    AloneRuns(s);
    var s1 := Run(s, Alone(0, 1.0));
    AloneRuns(s1);
    var s2 := Run(s1, Alone(1, 1.0));
    assert s2.flights[0] == s2.flights[..1][0];
  }

  lemma CheapThenOverlapping(s: State)
    requires Idle(s) && s.m.observations.training == 0 && s.flights == []
    ensures StoppedOverCap(Run(s, SettledExcess()))
  {
    TwoCheapOnesFirst(s);
    OverlappingStops(Run(Run(s, Alone(0, 1.0)), Alone(1, 1.0)));
    RunAppendTwice(s, Alone(0, 1.0), Alone(1, 1.0), Overlapping());
  }

  /** So the documented bound is too strong: this run stops half a dollar over the cap
      with one rollout in flight, and that rollout cost what it reserved. */
  lemma DocumentedBoundFails()
    ensures StoppedOverCap(Run(Start(NewMeter(Some(10.0), Some(2))), SettledExcess()))
  {
    CheapThenOverlapping(Start(NewMeter(Some(10.0), Some(2))));
  }
}
