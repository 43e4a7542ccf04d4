/** One dollar ledger with its admission gate, as a value.

    `Meter` holds the fields that `SpendMeter` updates; each function below is
    the effect of one method on one ledger.  The class in SpendMeter.dfy is
    proved to follow these functions, and the theorems about runs, phases and
    trees are stated about them.

    A live reserve is a number passed in: the source calls `self._reserve()`
    afresh on every check, so each call site may see a different value. */
module Meters {
  import opened Options

  type Dollars = x: real | 0.0 <= x witness 0.0

  datatype Kind = Training | Validation
  datatype Category = Reflection | Rollout
  datatype StopReason = CostBudgetReached | CannotPrice

  /** A table with one entry for each rollout kind. */
  datatype PerKind<T> = PerKind(training: T, validation: T) {
    function Get(kind: Kind): T {
      if kind.Training? then training else validation
    }

    function Set(kind: Kind, value: T): PerKind<T> {
      if kind.Training? then this.(training := value) else this.(validation := value)
    }
  }

  /** Aggregate usage: dollars include only responses with a known price. */
  datatype Spend = Spend(requests: nat, inputTokens: nat, outputTokens: nat, dollars: real,
                         unpricedRequests: nat, unpricedInput: nat, unpricedOutput: nat) {
    function Plus(other: Spend): Spend {
      Spend(requests + other.requests, inputTokens + other.inputTokens,
            outputTokens + other.outputTokens, dollars + other.dollars,
            unpricedRequests + other.unpricedRequests, unpricedInput + other.unpricedInput,
            unpricedOutput + other.unpricedOutput)
    }
  }

  const NO_SPEND := Spend(0, 0, 0, 0.0, 0, 0, 0)

  /** One model response; `price` is None when it cannot be priced. */
  datatype Response = Response(inputTokens: nat, outputTokens: nat, price: Option<Dollars>) {
    /** What this response adds to an aggregate. */
    function Usage(): Spend {
      match price
      case Some(d) => Spend(1, inputTokens, outputTokens, d, 0, 0, 0)
      case None => Spend(1, inputTokens, outputTokens, 0.0, 1, inputTokens, outputTokens)
    }
  }

  datatype Ledger = Ledger(reflection: Spend, rollout: Spend) {
    function Total(): real {
      reflection.dollars + rollout.dollars
    }

    function Of(category: Category): Spend {
      if category.Reflection? then reflection else rollout
    }

    function Add(category: Category, usage: Spend): Ledger {
      if category.Reflection? then this.(reflection := reflection.Plus(usage))
      else this.(rollout := rollout.Plus(usage))
    }

    function Plus(other: Ledger): Ledger {
      Ledger(reflection.Plus(other.reflection), rollout.Plus(other.rollout))
    }
  }

  const EMPTY_LEDGER := Ledger(NO_SPEND, NO_SPEND)

  datatype Meter = Meter(
    cap: Option<real>,
    maxConcurrent: Option<nat>,
    ledger: Ledger,
    reflectionObservations: nat,
    rolloutObservations: nat,
    observations: PerKind<nat>,
    kindDollars: PerKind<real>,
    highest: PerKind<real>,
    active: PerKind<int>,
    reserved: real,
    reflecting: bool,
    stop: Option<StopReason>)
  {
    function Total(): real {
      ledger.Total()
    }

    /** What the constructor accepts. */
    predicate Configured() {
      (cap.Some? ==> cap.value > 0.0) && (maxConcurrent.Some? ==> maxConcurrent.value > 0)
    }

    /** Admission is enforced only with both a cap and a concurrency. */
    predicate Gated() {
      cap.Some? && maxConcurrent.Some?
    }

    function ActiveRollouts(): int {
      active.training + active.validation
    }
  }

  function NewMeter(cap: Option<real>, maxConcurrent: Option<nat>): Meter {
    Meter(cap, maxConcurrent, EMPTY_LEDGER, 0, 0, PerKind(0, 0), PerKind(0.0, 0.0),
          PerKind(0.0, 0.0), PerKind(0, 0), 0.0, false, None)
  }

  function Max(a: real, b: real): real {
    if a >= b then a else b
  }

  /** The cap net of the live reserve. */
  function LocalCap(m: Meter, reserve: real): Option<real> {
    if m.cap.None? then None else Some(m.cap.value - Max(0.0, reserve))
  }

  function StopOr(stop: Option<StopReason>, reason: StopReason): Option<StopReason> {
    if stop.Some? then stop else Some(reason)
  }

  /** In-flight slots a kind may fill under a cap. */
  function AdmissionLimit(maxConcurrent: nat, observations: nat, remaining: real, highest: real): nat {
    var ramp := if maxConcurrent <= observations then maxConcurrent else observations;
    var limit := if ramp < 1 then 1 else ramp;
    if observations > 0 && limit > 1 && remaining < limit as real * highest then 1 else limit
  }

  /** A count of rollouts projected at the kind's highest observed cost. */
  function Projection(m: Meter, count: int, kind: Kind): real {
    if count <= 0 || m.observations.Get(kind) == 0 then 0.0
    else count as real * m.highest.Get(kind)
  }

  /** The part of a headroom probe that one ledger decides. */
  predicate ProbeLocal(m: Meter, reserve: real, count: int, kind: Kind) {
    var cap := LocalCap(m, reserve);
    m.stop.None? && !(cap.Some? && m.Total() + Projection(m, count, kind) > cap.value)
  }

  /** The local part of a check before paid work. */
  function CheckLocal(m: Meter, reserve: real): Meter {
    var cap := LocalCap(m, reserve);
    if cap.Some? && m.Total() >= cap.value then m.(stop := StopOr(m.stop, CostBudgetReached)) else m
  }

  /** Charge one response to one ledger, before it is forwarded. */
  function Charge(m: Meter, category: Category, response: Response, reserve: real): Meter {
    var charged := m.(ledger := m.ledger.Add(category, response.Usage()));
    match response.price
    case None => if m.cap.Some? then charged.(stop := Some(CannotPrice)) else charged
    case Some(_) =>
      var cap := LocalCap(charged, reserve);
      if cap.Some? && charged.Total() > cap.value then charged.(stop := StopOr(m.stop, CostBudgetReached))
      else charged
  }

  /** The running-mean projection of a batch, with its follow-up training rollouts. */
  function MeanProjection(m: Meter, category: Category, count: int, following: int, kind: Option<Kind>): real {
    var batch :=
      if category.Rollout? && kind.Some? then
        if m.observations.Get(kind.value) > 0 then
          m.kindDollars.Get(kind.value) / m.observations.Get(kind.value) as real * count as real
        else 0.0
      else
        var seen := if category.Reflection? then m.reflectionObservations else m.rolloutObservations;
        if seen > 0 then m.ledger.Of(category).dollars / seen as real * count as real else 0.0;
    if following != 0 && m.observations.training > 0 then
      batch + m.kindDollars.training / m.observations.training as real * following as real
    else batch
  }

  /** The local half of `_can_start`: the new ledger, and whether the batch may go on
      to ask the parent. */
  function CanStartLocal(m: Meter, reserve: real, category: Category, count: int, following: int,
                         kind: Option<Kind>, stopOnProjection: bool): (Meter, bool) {
    var cap := LocalCap(m, reserve);
    if m.stop.Some? then (m, false)
    else if cap.Some? && m.Total() >= cap.value then (m.(stop := Some(CostBudgetReached)), false)
    else if cap.Some? && m.Total() + MeanProjection(m, category, count, following, kind) > cap.value then
      (if stopOnProjection then m.(stop := Some(CostBudgetReached)) else m, false)
    else (m, true)
  }

  /** What a gate says to one rollout that asks to start. */
  datatype Admission = Waits | Admits(reservation: real) | Refuses

  /** One try at the gate of a capped ledger: the new ledger and the answer. */
  function TryAdmit(m: Meter, reserve: real, kind: Kind): (Meter, Admission)
    requires m.Gated()
  {
    if m.stop.Some? then (m, Refuses)
    else if m.reflecting then (m, Waits)
    else
      var remaining := LocalCap(m, reserve).value - m.Total() - m.reserved;
      var limit := AdmissionLimit(m.maxConcurrent.value, m.observations.Get(kind), remaining, m.highest.Get(kind));
      if m.ActiveRollouts() >= limit then (m, Waits)
      else
        var projection := if m.observations.Get(kind) > 0 then m.highest.Get(kind) else 0.0;
        if remaining <= 0.0 || projection > remaining then
          if m.active.training != 0 || m.active.validation != 0 then (m, Waits)
          else (m.(stop := Some(CostBudgetReached)), Refuses)
        else (m, Admits(projection))
  }

  /** Take the slot and the reservation that an admission granted. */
  function Hold(m: Meter, kind: Kind, reservation: real): Meter {
    m.(active := m.active.Set(kind, m.active.Get(kind) + 1), reserved := m.reserved + reservation)
  }

  /** Give a slot and its reservation back. */
  function Release(m: Meter, kind: Kind, reservation: real): Meter {
    m.(active := m.active.Set(kind, m.active.Get(kind) - 1), reserved := m.reserved - reservation)
  }

  /** Observe a complete step; a step with no response stays out of the projections. */
  function Observe(m: Meter, category: Category, kind: Kind, requests: nat, dollars: real): Meter {
    if requests == 0 then m
    else if category.Reflection? then m.(reflectionObservations := m.reflectionObservations + 1)
    else
      m.(rolloutObservations := m.rolloutObservations + 1,
         observations := m.observations.Set(kind, m.observations.Get(kind) + 1),
         kindDollars := m.kindDollars.Set(kind, m.kindDollars.Get(kind) + dollars),
         highest := m.highest.Set(kind, Max(m.highest.Get(kind), dollars)))
  }
}
