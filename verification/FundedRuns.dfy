/** A batch that fits at the highest observed cost finishes.

    When spend plus `n` rollouts at the kind's highest observed cost stay strictly
    below the cap, nothing is in flight and no rollout costs more than that high,
    no interleaving of those `n` rollouts is ever stopped. */
module FundedRuns {
  import opened Options
  import opened Meters
  import opened Multiples
  import opened RolloutRuns

  /** The batch: how many rollouts of which kind, the high they keep to, the spend at
      the start, and the largest live reserve the gate may withhold meanwhile. */
  datatype Batch = Batch(kind: Kind, n: nat, high: real, before: real, reserve: real)

  function Room(m: Meter, b: Batch): real
    requires m.Gated()
  {
    LocalCap(m, b.reserve).value
  }

  ghost predicate FundedStart(m: Meter, b: Batch) {
    && m.Gated() && m.Configured()
    && m.stop.None? && !m.reflecting
    && m.active == PerKind(0, 0) && m.reserved == 0.0
    && b.high == m.highest.Get(b.kind) && m.highest.training >= 0.0 && m.highest.validation >= 0.0
    && b.before == m.Total()
    && b.before + b.n as real * b.high < Room(m, b)
  }

  /** The events of the batch's own rollouts, none of which costs more than the high. */
  predicate OfBatch(s: State, e: Event, b: Batch) {
    match e
    case TryStart(kind, reserve) => kind == b.kind && reserve <= b.reserve && |s.flights| < b.n
    case Respond(id, response, reserve) =>
      && reserve <= b.reserve && response.price.Some?
      && (id < |s.flights| && s.flights[id].phase.Running? ==> s.flights[id].spent + PriceOf(response) <= b.high)
    case Finish(_) => true
    case Leave(_) => true
    case Check(reserve) => reserve <= b.reserve
    case _ => false
  }

  predicate BatchRun(s: State, events: seq<Event>, b: Batch)
    requires s.m.Gated()
    decreases |events|
  {
    events == [] || (OfBatch(s, events[0], b) && BatchRun(Step(s, events[0]), events[1..], b))
  }

  ghost predicate OnTrack(s: State, b: Batch) {
    && Books(s)
    && s.m.stop.None? && !s.m.reflecting
    && s.m.highest.Get(b.kind) == b.high
    && |s.flights| <= b.n
    && (forall i :: 0 <= i < |s.flights| ==> s.flights[i].kind == b.kind && s.flights[i].spent <= b.high)
    && s.m.Total() == b.before + SpentBy(s.flights)
    && b.before + Times(b.n, b.high) < Room(s.m, b)
  }

  lemma {:induction false} SpentAtMost(fs: seq<Flight>, high: real)
    requires forall i :: 0 <= i < |fs| ==> fs[i].spent <= high
    ensures SpentBy(fs) <= Times(|fs|, high)
  {
    if fs != [] {
      assert forall i :: 0 <= i < |fs[1..]| ==> fs[1..][i] == fs[i + 1];
      SpentAtMost(fs[1..], high);
    }
  }

  /** Spend stays below what any check allows, with one high to spare for each rollout to come. */
  lemma BelowRoom(s: State, b: Batch)
    requires OnTrack(s, b) && b.high >= 0.0
    ensures s.m.Total() < Room(s.m, b)
    ensures |s.flights| < b.n ==> s.m.Total() + b.high < Room(s.m, b)
  {
    SpentAtMost(s.flights, b.high);
    TimesGrows(|s.flights|, b.n, b.high);
    if |s.flights| < b.n {
      TimesGrows(|s.flights| + 1, b.n, b.high);
    }
  }

  /** With nothing in flight the next rollout of the batch is admitted at once. */
  lemma NextIsAdmitted(s: State, b: Batch, reserve: real)
    requires OnTrack(s, b) && b.high >= 0.0 && reserve <= b.reserve && |s.flights| < b.n
    requires s.m.active == PerKind(0, 0)
    ensures TryAdmit(s.m, reserve, b.kind).1.Admits?
  {
    BelowRoom(s, b);
    NothingLive(s.flights);
  }

  lemma TryStartOnTrack(s: State, e: Event, b: Batch)
    requires OnTrack(s, b) && b.high >= 0.0 && OfBatch(s, e, b) && e.TryStart?
    ensures OnTrack(Step(s, e), b)
  {
    TryStartBooks(s, e);
    if s.m.active == PerKind(0, 0) {
      NextIsAdmitted(s, b, e.reserve);
    }
    var (m, answer) := TryAdmit(s.m, e.reserve, e.kind);
    if answer.Admits? {
      SumsAppend(s.flights, Flight(e.kind, answer.reservation, 0.0, 0, Running));
    }
  }

  lemma RespondOnTrack(s: State, e: Event, b: Batch)
    requires OnTrack(s, b) && b.high >= 0.0 && OfBatch(s, e, b) && e.Respond?
    ensures OnTrack(Step(s, e), b)
  {
    if e.id < |s.flights| && s.flights[e.id].phase.Running? {
      var f := s.flights[e.id];
      var paid := f.(spent := f.spent + PriceOf(e.response), requests := f.requests + 1);
      ChargeKeepsGate(s.m, Rollout, e.response, e.reserve);
      PaidBooks(s, Step(s, e), e.id, paid);
      SumsUpdate(s.flights, e.id, paid);
      var after := s.flights[e.id := paid];
      SpentAtMost(after, b.high);
      TimesGrows(|after|, b.n, b.high);
    }
  }

  lemma SettleOnTrack(s: State, e: Event, b: Batch)
    requires OnTrack(s, b) && b.high >= 0.0 && (e.Finish? || e.Leave?)
    ensures OnTrack(Step(s, e), b)
  {
    SettleBooks(s, e);
    if e.id < |s.flights| {
      var f := s.flights[e.id];
      SumsUpdate(s.flights, e.id, f.(phase := if e.Finish? then Observed else Released));
    }
  }

  lemma {:induction false} StaysOnTrack(s: State, events: seq<Event>, b: Batch)
    requires OnTrack(s, b) && b.high >= 0.0 && BatchRun(s, events, b)
    ensures OnTrack(Run(s, events), b)
    decreases |events|
  {
    if events != [] {
      var e := events[0];
      match e {
        case TryStart(_, _) => TryStartOnTrack(s, e, b);
        case Respond(_, _, _) => RespondOnTrack(s, e, b);
        case Finish(_) => SettleOnTrack(s, e, b);
        case Leave(_) => SettleOnTrack(s, e, b);
        case Check(_) => BelowRoom(s, b);
        case _ =>
      }
      StaysOnTrack(Step(s, e), events[1..], b);
    }
  }

  /** A funded batch finishes: after any interleaving of its events the gate has no stop
      reason, a check passes, and whenever nothing is in flight the next rollout is admitted. */
  lemma FundedBatchFinishes(m: Meter, events: seq<Event>, b: Batch)
    requires FundedStart(m, b) && BatchRun(Start(m), events, b)
    ensures var s := Run(Start(m), events);
      && s.m.stop.None?
      && CheckLocal(s.m, b.reserve).stop.None?
      && (s.m.ActiveRollouts() == 0 && |s.flights| < b.n ==> TryAdmit(s.m, b.reserve, b.kind).1.Admits?)
  {
    TimesIsProduct(b.n, b.high);
    StaysOnTrack(Start(m), events, b);
    var s := Run(Start(m), events);
    BelowRoom(s, b);
    if s.m.ActiveRollouts() == 0 && |s.flights| < b.n {
      NextIsAdmitted(s, b, b.reserve);
    }
  }

  // ----- the batch projection never exceeds the probe -----

  predicate MeanBelowHigh(m: Meter, kind: Kind) {
    && m.highest.Get(kind) >= 0.0
    && m.kindDollars.Get(kind) <= Times(m.observations.Get(kind), m.highest.Get(kind))
  }

  lemma ObserveKeepsMeanBelowHigh(m: Meter, of: Kind, requests: nat, cost: real, kind: Kind)
    requires MeanBelowHigh(m, kind)
    ensures MeanBelowHigh(Observe(m, Rollout, of, requests, cost), kind)
  {
    if of == kind {
      TimesMoreEach(m.observations.Get(kind), m.highest.Get(kind), Max(m.highest.Get(kind), cost));
    }
  }

  lemma {:induction false} RunKeepsMeanBelowHigh(s: State, events: seq<Event>, kind: Kind)
    requires s.m.Gated() && MeanBelowHigh(s.m, kind)
    ensures MeanBelowHigh(Run(s, events).m, kind)
    decreases |events|
  {
    if events != [] {
      StepKeepsMeanBelowHigh(s, events[0], kind);
      RunKeepsMeanBelowHigh(Step(s, events[0]), events[1..], kind);
    }
  }

  lemma StepKeepsMeanBelowHigh(s: State, e: Event, kind: Kind)
    requires s.m.Gated() && MeanBelowHigh(s.m, kind)
    ensures Step(s, e).m.Gated() && MeanBelowHigh(Step(s, e).m, kind)
  {
    if e.Finish? && e.id < |s.flights| {
      var f := s.flights[e.id];
      ObserveKeepsMeanBelowHigh(s.m, f.kind, f.requests, f.spent, kind);
    }
  }

  lemma NotAbove(a: real, b: real, n: real)
    requires n > 0.0 && a * n <= n * b
    ensures a <= b
  {
    if a > b {
      PositiveProduct(a - b, n);
      assert false;
    }
  }

  lemma PositiveProduct(a: real, b: real)
    requires a > 0.0 && b > 0.0
    ensures a * b > 0.0
  {
  }

  lemma MeanTimesCount(dollars: real, n: nat, high: real, count: nat)
    requires n > 0 && dollars <= n as real * high
    ensures dollars / n as real * count as real <= count as real * high
  {
    var mean := dollars / n as real;
    assert mean * n as real == dollars;
    NotAbove(mean, high, n as real);
    assert (high - mean) * count as real >= 0.0;
  }

  lemma MeanWithinProjection(m: Meter, kind: Kind, count: nat)
    requires MeanBelowHigh(m, kind)
    ensures MeanProjection(m, Rollout, count, 0, Some(kind)) <= Projection(m, count, kind)
  {
    if m.observations.Get(kind) > 0 {
      TimesIsProduct(m.observations.Get(kind), m.highest.Get(kind));
      MeanTimesCount(m.kindDollars.Get(kind), m.observations.Get(kind), m.highest.Get(kind), count);
    }
  }

  lemma ProbeCoversMean(m: Meter, kind: Kind, count: nat, reserve: real, stops: bool)
    requires m.Gated()
    requires MeanProjection(m, Rollout, count, 0, Some(kind)) <= Projection(m, count, kind)
    requires ProbeLocal(m, reserve, count, kind) && m.Total() < LocalCap(m, reserve).value
    ensures CanStartLocal(m, reserve, Rollout, count, 0, Some(kind), stops) == (m, true)
  {
  }

  /** On every ledger a run can reach, a batch projected at the running mean fits whenever the
      probe at the highest cost does, so a probed batch is not refused by its own projection. */
  lemma ProbedBatchCanStart(cap: real, maxConcurrent: nat, events: seq<Event>, kind: Kind, count: nat, reserve: real,
                            stops: bool)
    requires cap > 0.0 && maxConcurrent > 0
    ensures var m := Run(Start(NewMeter(Some(cap), Some(maxConcurrent))), events).m;
      && MeanProjection(m, Rollout, count, 0, Some(kind)) <= Projection(m, count, kind)
      && (ProbeLocal(m, reserve, count, kind) && m.Total() < LocalCap(m, reserve).value
          ==> CanStartLocal(m, reserve, Rollout, count, 0, Some(kind), stops) == (m, true))
  {
    var s := Start(NewMeter(Some(cap), Some(maxConcurrent)));
    RunKeepsMeanBelowHigh(s, events, kind);
    var m := Run(s, events).m;
    MeanWithinProjection(m, kind, count);
    if ProbeLocal(m, reserve, count, kind) && m.Total() < LocalCap(m, reserve).value {
      ProbeCoversMean(m, kind, count, reserve, stops);
    }
  }
}
