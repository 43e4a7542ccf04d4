/** The dollar meter as an object, proved against the chain functions. */
module SpendMeters {
  import opened Options
  import opened Meters
  import opened MeterChains

  class SpendMeter {
    const parent: SpendMeter?
    const maxTokenCost: Option<real>
    const maxConcurrent: Option<nat>
    var reflectionUsage: Spend
    var rolloutUsage: Spend
    var reflectionObservations: nat
    var rolloutObservations: nat
    var kindObservations: PerKind<nat>
    var kindDollars: PerKind<real>
    var kindHighest: PerKind<real>
    var active: PerKind<int>
    var reserved: real
    var reflectionActive: bool
    var stopReason: Option<StopReason>

    /** This meter and all its ancestors. */
    ghost const Repr: set<SpendMeter>

    ghost predicate Valid()
      decreases Repr
    {
      && this in Repr
      && (parent == null ==> Repr == {this})
      && (parent != null ==> this !in parent.Repr && parent.Repr < Repr && Repr == {this} + parent.Repr
                             && parent.Valid())
    }

    /** The fields of this meter, as a value. */
    function State(): Meter
      reads this
    {
      Meter(maxTokenCost, maxConcurrent, Ledger(reflectionUsage, rolloutUsage), reflectionObservations,
            rolloutObservations, kindObservations, kindDollars, kindHighest, active, reserved, reflectionActive,
            stopReason)
    }

    /** This meter and its ancestors, nearest first. */
    ghost function Chain(): (chain: seq<Meter>)
      requires Valid()
      reads Repr
      ensures |chain| >= 1 && chain[0] == State()
      decreases Repr
    {
      [State()] + (if parent == null then [] else parent.Chain())
    }

    /** The source raises ValueError for a cap or a concurrency that is not positive. */
    static predicate Accepts(maxTokenCost: Option<real>, maxConcurrent: Option<nat>) {
      (maxTokenCost.Some? ==> maxTokenCost.value > 0.0) && (maxConcurrent.Some? ==> maxConcurrent.value > 0)
    }

    constructor (maxTokenCost: Option<real>, maxConcurrent: Option<nat>, parent: SpendMeter?)
      requires Accepts(maxTokenCost, maxConcurrent)
      requires parent != null ==> parent.Valid()
      ensures Valid() && this.parent == parent
      ensures State() == NewMeter(maxTokenCost, maxConcurrent) && State().Configured()
      ensures Repr == {this} + (if parent == null then {} else parent.Repr)
    {
      this.parent := parent;
      this.maxTokenCost := maxTokenCost;
      this.maxConcurrent := maxConcurrent;
      reflectionUsage, rolloutUsage := NO_SPEND, NO_SPEND;
      reflectionObservations, rolloutObservations := 0, 0;
      kindObservations, kindDollars, kindHighest := PerKind(0, 0), PerKind(0.0, 0.0), PerKind(0.0, 0.0);
      active, reserved, reflectionActive, stopReason := PerKind(0, 0), 0.0, false, None;
      Repr := {this} + (if parent == null then {} else parent.Repr);
    }

    /** The constructor as callers see it: nothing is made of a cap or a concurrency that is refused. */
    static method Create(maxTokenCost: Option<real>, maxConcurrent: Option<nat>, parent: SpendMeter?)
      returns (meter: SpendMeter?)
      requires parent != null ==> parent.Valid()
      ensures meter == null <==>
              (maxTokenCost.Some? && maxTokenCost.value <= 0.0) || (maxConcurrent.Some? && maxConcurrent.value == 0)
      ensures meter != null ==>
                && fresh(meter) && meter.Valid() && meter.parent == parent
                && meter.State() == NewMeter(maxTokenCost, maxConcurrent) && meter.State().Configured()
    {
      meter := null;
      if Accepts(maxTokenCost, maxConcurrent) {
        meter := new SpendMeter(maxTokenCost, maxConcurrent, parent);
      }
    }

    method ProbeRollouts(count: int, kind: Kind, reserves: seq<real>) returns (fits: bool)
      requires Valid() && Reserves(Chain(), reserves)
      ensures fits == ProbeChain(Chain(), reserves, count, kind)
      decreases Repr
    {
      if stopReason.Some? {
        return false;
      }
      var cap := LocalCap(State(), reserves[0]);
      if cap.Some? && State().Total() + Projection(State(), count, kind) > cap.value {
        return false;
      }
      if parent != null {
        fits := parent.ProbeRollouts(count, kind, reserves[1..]);
      } else {
        fits := true;
      }
    }

    /** Returns the stop that the source raises, if any. */
    method Check(reserves: seq<real>) returns (raised: Option<StopReason>)
      requires Valid() && Reserves(Chain(), reserves)
      modifies Repr
      ensures (Chain(), raised) == old(CheckChain(Chain(), reserves))
      decreases Repr
    {
      if parent != null {
        raised := parent.Check(reserves[1..]);
        if raised.Some? {
          return;
        }
      }
      var cap := LocalCap(State(), reserves[0]);
      if cap.Some? && State().Total() >= cap.value {
        stopReason := StopOr(stopReason, CostBudgetReached);
      }
      raised := stopReason;
    }

    /** The part of recording that happens on this ledger, before the response is forwarded. */
    method ChargeLocal(category: Category, response: Response, reserve: real)
      modifies this
      ensures State() == old(Charge(State(), category, response, reserve))
    {
      if category.Reflection? {
        reflectionUsage := reflectionUsage.Plus(response.Usage());
      } else {
        rolloutUsage := rolloutUsage.Plus(response.Usage());
      }
      if response.price.None? {
        if maxTokenCost.Some? {
          stopReason := Some(CannotPrice);
        }
      } else {
        var cap := LocalCap(State(), reserve);
        if cap.Some? && State().Total() > cap.value {
          stopReason := StopOr(stopReason, CostBudgetReached);
        }
      }
    }

    method RecordPriced(category: Category, response: Response, reserves: seq<real>)
      returns (raised: Option<StopReason>)
      requires Valid() && Reserves(Chain(), reserves)
      modifies Repr
      ensures (Chain(), raised) == old(RecordChain(Chain(), reserves, category, response))
      decreases Repr
    {
      ChargeLocal(category, response, reserves[0]);
      raised := None;
      if parent != null {
        raised := parent.RecordPriced(category, response, reserves[1..]);
      }
      if raised.None? {
        raised := stopReason;
      }
    }

    /** The part of a projection that concerns this meter only. */
    method CanStartHere(category: Category, count: int, following: int, kind: Option<Kind>, stopOnProjection: bool,
                        reserve: real) returns (fits: bool)
      modifies this
      ensures (State(), fits) == old(CanStartLocal(State(), reserve, category, count, following, kind, stopOnProjection))
    {
      if stopReason.Some? {
        return false;
      }
      var cap := LocalCap(State(), reserve);
      if cap.Some? {
        if State().Total() >= cap.value {
          stopReason := Some(CostBudgetReached);
          return false;
        }
        if State().Total() + MeanProjection(State(), category, count, following, kind) > cap.value {
          if stopOnProjection {
            stopReason := Some(CostBudgetReached);
          }
          return false;
        }
      }
      return true;
    }

    method CanStart(category: Category, count: int, following: int, kind: Option<Kind>, stopOnProjection: bool,
                    reserves: seq<real>) returns (fits: bool)
      requires Valid() && Reserves(Chain(), reserves)
      modifies Repr
      ensures (Chain(), fits) == old(CanStartChain(Chain(), reserves, category, count, following, kind, stopOnProjection))
      decreases Repr
    {
      CanStartOf(State(), if parent == null then [] else parent.Chain(), reserves, category, count, following, kind,
                 stopOnProjection);
      var here := CanStartHere(category, count, following, kind, stopOnProjection, reserves[0]);
      if !here {
        return false;
      }
      if parent != null {
        var above := parent.CanStart(category, count, following, kind, false, reserves[1..]);
        if !above {
          if stopOnProjection {
            stopReason := StopOr(parent.stopReason, CostBudgetReached);
          }
          return false;
        }
      }
      return true;
    }

    method ObserveLocal(category: Category, kind: Kind, requests: nat, dollars: real)
      modifies this
      ensures State() == old(Observe(State(), category, kind, requests, dollars))
    {
      if requests > 0 {
        if category.Reflection? {
          reflectionObservations := reflectionObservations + 1;
        } else {
          rolloutObservations := rolloutObservations + 1;
          kindObservations := kindObservations.Set(kind, kindObservations.Get(kind) + 1);
          kindDollars := kindDollars.Set(kind, kindDollars.Get(kind) + dollars);
          kindHighest := kindHighest.Set(kind, Max(kindHighest.Get(kind), dollars));
        }
      }
    }

    /** The end of a step: the parent's observation ends first. */
    method ObserveStep(category: Category, kind: Kind, requests: nat, dollars: real)
      requires Valid()
      modifies Repr
      ensures Chain() == old(ObserveChain(Chain(), category, kind, requests, dollars))
      decreases Repr
    {
      if parent != null {
        parent.ObserveStep(category, kind, requests, dollars);
      }
      ObserveLocal(category, kind, requests, dollars);
    }

    method TryAdmitRollout(kind: Kind, reserve: real) returns (answer: Admission)
      requires State().Gated()
      modifies this
      ensures (State(), answer) == old(TryAdmit(State(), reserve, kind))
    {
      if stopReason.Some? {
        return Refuses;
      }
      if reflectionActive {
        return Waits;
      }
      var remaining := LocalCap(State(), reserve).value - State().Total() - reserved;
      var observations, highest := kindObservations.Get(kind), kindHighest.Get(kind);
      var limit := AdmissionLimit(maxConcurrent.value, observations, remaining, highest);
      if active.training + active.validation >= limit {
        return Waits;
      }
      var projection := if observations > 0 then highest else 0.0;
      if remaining <= 0.0 || projection > remaining {
        if active.training != 0 || active.validation != 0 {
          return Waits;
        }
        stopReason := Some(CostBudgetReached);
        return Refuses;
      }
      return Admits(projection);
    }

    /** Try the gate once and take the slot when it is granted; a None reservation is not held. */
    method AdmitLocal(kind: Kind, reserve: real) returns (answer: Admission)
      modifies this
      ensures !old(State()).Gated() ==> State() == old(State()) && answer == Admits(0.0)
      ensures old(State()).Gated() ==>
                var (m, a) := old(TryAdmit(State(), reserve, kind));
                answer == a && State() == if a.Admits? then Hold(m, kind, a.reservation) else m
    {
      if maxTokenCost.None? || maxConcurrent.None? {
        return Admits(0.0);
      }
      answer := TryAdmitRollout(kind, reserve);
      if answer.Admits? {
        active := active.Set(kind, active.Get(kind) + 1);
        reserved := reserved + answer.reservation;
      }
    }

    method ReleaseLocal(kind: Kind, reservation: real)
      modifies this
      ensures State() == if old(State()).Gated() then old(Release(State(), kind, reservation)) else old(State())
    {
      if maxTokenCost.Some? && maxConcurrent.Some? {
        active := active.Set(kind, active.Get(kind) - 1);
        reserved := reserved - reservation;
      }
    }
  }
}
