/** A ledger together with its ancestors, nearest first.

    A child forwards every priced response and every observed step to its parent and must
    pass its parent's checks; these functions are those methods over the whole ancestry. */
module MeterChains {
  import opened Options
  import opened Meters

  /** Live reserves, one for each ledger of the chain. */
  predicate Reserves(chain: seq<Meter>, reserves: seq<real>) {
    |reserves| == |chain|
  }

  function ProbeChain(chain: seq<Meter>, reserves: seq<real>, count: int, kind: Kind): bool
    requires Reserves(chain, reserves)
  {
    chain == [] || (ProbeLocal(chain[0], reserves[0], count, kind) && ProbeChain(chain[1..], reserves[1..], count, kind))
  }

  /** Check the ancestors first; the first stop found is raised. */
  function CheckChain(chain: seq<Meter>, reserves: seq<real>): (r: (seq<Meter>, Option<StopReason>))
    requires Reserves(chain, reserves)
    ensures |r.0| == |chain|
  {
    if chain == [] then ([], None)
    else
      var (above, raised) := CheckChain(chain[1..], reserves[1..]);
      if raised.Some? then ([chain[0]] + above, raised)
      else
        var m := CheckLocal(chain[0], reserves[0]);
        ([m] + above, m.stop)
  }

  /** Charge a response here, forward it even when the local cap broke, then raise. */
  function RecordChain(chain: seq<Meter>, reserves: seq<real>, category: Category, response: Response)
    : (r: (seq<Meter>, Option<StopReason>))
    requires Reserves(chain, reserves)
    ensures |r.0| == |chain|
  {
    if chain == [] then ([], None)
    else
      var m := Charge(chain[0], category, response, reserves[0]);
      var (above, raised) := RecordChain(chain[1..], reserves[1..], category, response);
      ([m] + above, if raised.Some? then raised else m.stop)
  }

  function ObserveChain(chain: seq<Meter>, category: Category, kind: Kind, requests: nat, dollars: real)
    : (r: seq<Meter>)
    ensures |r| == |chain|
  {
    if chain == [] then []
    else [Observe(chain[0], category, kind, requests, dollars)]
         + ObserveChain(chain[1..], category, kind, requests, dollars)
  }

  /** A projected batch must fit here and in every ancestor. */
  function CanStartChain(chain: seq<Meter>, reserves: seq<real>, category: Category, count: int, following: int,
                         kind: Option<Kind>, stopOnProjection: bool): (r: (seq<Meter>, bool))
    requires Reserves(chain, reserves)
    ensures |r.0| == |chain|
  {
    if chain == [] then ([], true)
    else
      var (m, here) := CanStartLocal(chain[0], reserves[0], category, count, following, kind, stopOnProjection);
      if !here then ([m] + chain[1..], false)
      else
        var (above, fits) := CanStartChain(chain[1..], reserves[1..], category, count, following, kind, false);
        if fits then ([m] + above, true)
        else if stopOnProjection then ([m.(stop := StopOr(above[0].stop, CostBudgetReached))] + above, false)
        else ([m] + above, false)
  }

  // ----- what the chain functions promise -----

  /** Charging the head of a chain, and its ancestors. */
  lemma RecordSplits(chain: seq<Meter>, reserves: seq<real>, category: Category, response: Response)
    requires Reserves(chain, reserves) && chain != []
    ensures var r := RecordChain(chain, reserves, category, response);
      var above := RecordChain(chain[1..], reserves[1..], category, response);
      && r.0[0] == Charge(chain[0], category, response, reserves[0])
      && r.0[1..] == above.0
      && (r.1.Some? <==> above.1.Some? || r.0[0].stop.Some?)
  {
  }

  lemma ChargeStopsOnItsOwnCap(m: Meter, category: Category, response: Response, reserve: real)
    ensures var c := Charge(m, category, response, reserve);
      && c.ledger == m.ledger.Add(category, response.Usage())
      && (c.stop != m.stop ==> m.cap.Some? && (response.price.None? || c.Total() > LocalCap(m, reserve).value))
  {
  }

  lemma {:induction false} RecordCharges(chain: seq<Meter>, reserves: seq<real>, category: Category,
                                         response: Response, i: nat)
    requires Reserves(chain, reserves) && i < |chain|
    ensures RecordChain(chain, reserves, category, response).0[i] == Charge(chain[i], category, response, reserves[i])
  {
    RecordSplits(chain, reserves, category, response);
    if i > 0 {
      RecordCharges(chain[1..], reserves[1..], category, response, i - 1);
      assert RecordChain(chain, reserves, category, response).0[i] ==
             RecordChain(chain, reserves, category, response).0[1..][i - 1];
    }
  }

  lemma {:induction false} RecordRaises(chain: seq<Meter>, reserves: seq<real>, category: Category, response: Response)
    requires Reserves(chain, reserves)
    ensures var r := RecordChain(chain, reserves, category, response);
      r.1.Some? <==> exists i :: 0 <= i < |chain| && r.0[i].stop.Some?
  {
    if chain != [] {
      RecordSplits(chain, reserves, category, response);
      RecordRaises(chain[1..], reserves[1..], category, response);
      SomeStopSplits(RecordChain(chain, reserves, category, response).0);
    }
  }

  lemma SomeStopSplits(ms: seq<Meter>)
    requires ms != []
    ensures (exists i :: 0 <= i < |ms| && ms[i].stop.Some?) <==>
            ms[0].stop.Some? || exists i :: 0 <= i < |ms[1..]| && ms[1..][i].stop.Some?
  {
    if i :| 0 <= i < |ms| && ms[i].stop.Some? {
      assert i > 0 ==> ms[1..][i - 1].stop.Some?;
    }
    if i :| 0 <= i < |ms[1..]| && ms[1..][i].stop.Some? {
      assert ms[i + 1].stop.Some?;
    }
  }

  /** Every ledger of the ancestry is charged the same usage, raised or not; and a ledger
      newly stops only on its own cap: by exceeding it, or by an unpriced response. */
  lemma RecordReachesAll(chain: seq<Meter>, reserves: seq<real>, category: Category, response: Response)
    requires Reserves(chain, reserves)
    ensures var r := RecordChain(chain, reserves, category, response);
      && (forall i :: 0 <= i < |chain| ==>
            && r.0[i] == Charge(chain[i], category, response, reserves[i])
            && r.0[i].ledger == chain[i].ledger.Add(category, response.Usage())
            && (r.0[i].stop != chain[i].stop ==>
                  chain[i].cap.Some? && (response.price.None?
                                         || r.0[i].Total() > LocalCap(chain[i], reserves[i]).value)))
      && (r.1.Some? <==> exists i :: 0 <= i < |chain| && r.0[i].stop.Some?)
  {
    var r := RecordChain(chain, reserves, category, response);
    forall i | 0 <= i < |chain|
      ensures r.0[i] == Charge(chain[i], category, response, reserves[i])
      ensures r.0[i].ledger == chain[i].ledger.Add(category, response.Usage())
      ensures r.0[i].stop != chain[i].stop ==>
                chain[i].cap.Some? && (response.price.None? || r.0[i].Total() > LocalCap(chain[i], reserves[i]).value)
    {
      RecordCharges(chain, reserves, category, response, i);
      ChargeStopsOnItsOwnCap(chain[i], category, response, reserves[i]);
    }
    RecordRaises(chain, reserves, category, response);
  }

  /** A capped ledger must stop on a response that has no price, or that takes its spend over
      the cap net of the reserve. */
  predicate MustStop(m: Meter, response: Response, reserve: real) {
    m.cap.Some? &&
    (response.price.None? ||
     m.ledger.reflection.dollars + m.ledger.rollout.dollars + response.price.value > m.cap.value - Max(0.0, reserve))
  }

  /** The usage of one category after a response: an unpriced one adds no dollars and is counted apart. */
  predicate Counted(before: Spend, after: Spend, response: Response) {
    && after.requests == before.requests + 1
    && after.inputTokens == before.inputTokens + response.inputTokens
    && after.outputTokens == before.outputTokens + response.outputTokens
    && if response.price.Some? then
         && after.dollars == before.dollars + response.price.value
         && after.unpricedRequests == before.unpricedRequests
         && after.unpricedInput == before.unpricedInput && after.unpricedOutput == before.unpricedOutput
       else
         && after.dollars == before.dollars
         && after.unpricedRequests == before.unpricedRequests + 1
         && after.unpricedInput == before.unpricedInput + response.inputTokens
         && after.unpricedOutput == before.unpricedOutput + response.outputTokens
  }

  lemma ChargeExactly(m: Meter, category: Category, response: Response, reserve: real)
    ensures var c := Charge(m, category, response, reserve);
      && c == m.(ledger := c.ledger, stop := c.stop)
      && (if category.Reflection?
          then Counted(m.ledger.reflection, c.ledger.reflection, response) && c.ledger.rollout == m.ledger.rollout
          else Counted(m.ledger.rollout, c.ledger.rollout, response) && c.ledger.reflection == m.ledger.reflection)
      && c.stop == (if !MustStop(m, response, reserve) then m.stop
                    else if response.price.None? then Some(CannotPrice)
                    else if m.stop.Some? then m.stop
                    else Some(CostBudgetReached))
  {
  }

  /** The stop of the outermost stopped ledger. */
  function OutermostStop(ms: seq<Meter>): Option<StopReason> {
    if ms == [] then None else if ms[|ms| - 1].stop.Some? then ms[|ms| - 1].stop else OutermostStop(ms[..|ms| - 1])
  }

  lemma {:induction false} OutermostSplits(ms: seq<Meter>)
    requires ms != []
    ensures OutermostStop(ms) == if OutermostStop(ms[1..]).Some? then OutermostStop(ms[1..]) else ms[0].stop
  {
    if |ms| > 1 && ms[|ms| - 1].stop.None? {
      OutermostSplits(ms[..|ms| - 1]);
      assert ms[..|ms| - 1][1..] == ms[1..][..|ms| - 2];
    }
  }

  lemma {:induction false} RecordRaisesOutermost(chain: seq<Meter>, reserves: seq<real>, category: Category,
                                                 response: Response)
    requires Reserves(chain, reserves)
    ensures var r := RecordChain(chain, reserves, category, response); r.1 == OutermostStop(r.0)
  {
    if chain != [] {
      RecordRaisesOutermost(chain[1..], reserves[1..], category, response);
      RecordSplits(chain, reserves, category, response);
      OutermostSplits(RecordChain(chain, reserves, category, response).0);
    }
  }

  /** What one response does to every ledger of the ancestry, and when and with what recording
      raises: exactly when some ledger was stopped before or must stop now, with the reason of
      the outermost one. */
  lemma RecordExactly(chain: seq<Meter>, reserves: seq<real>, category: Category, response: Response)
    requires Reserves(chain, reserves)
    ensures var r := RecordChain(chain, reserves, category, response);
      && (forall i :: 0 <= i < |chain| ==>
            && r.0[i] == chain[i].(ledger := r.0[i].ledger, stop := r.0[i].stop)
            && (if category.Reflection?
                then Counted(chain[i].ledger.reflection, r.0[i].ledger.reflection, response)
                     && r.0[i].ledger.rollout == chain[i].ledger.rollout
                else Counted(chain[i].ledger.rollout, r.0[i].ledger.rollout, response)
                     && r.0[i].ledger.reflection == chain[i].ledger.reflection)
            && r.0[i].stop == (if !MustStop(chain[i], response, reserves[i]) then chain[i].stop
                               else if response.price.None? then Some(CannotPrice)
                               else if chain[i].stop.Some? then chain[i].stop
                               else Some(CostBudgetReached)))
      && r.1 == OutermostStop(r.0)
      && (r.1.Some? <==> exists i :: 0 <= i < |chain| && (chain[i].stop.Some? || MustStop(chain[i], response, reserves[i])))
  {
    var r := RecordChain(chain, reserves, category, response);
    forall i | 0 <= i < |chain|
      ensures r.0[i] == Charge(chain[i], category, response, reserves[i])
      ensures r.0[i].stop.Some? <==> chain[i].stop.Some? || MustStop(chain[i], response, reserves[i])
    {
      RecordCharges(chain, reserves, category, response, i);
      ChargeExactly(chain[i], category, response, reserves[i]);
    }
    forall i | 0 <= i < |chain|
      ensures r.0[i] == chain[i].(ledger := r.0[i].ledger, stop := r.0[i].stop)
      ensures if category.Reflection?
                then Counted(chain[i].ledger.reflection, r.0[i].ledger.reflection, response)
                     && r.0[i].ledger.rollout == chain[i].ledger.rollout
                else Counted(chain[i].ledger.rollout, r.0[i].ledger.rollout, response)
                     && r.0[i].ledger.reflection == chain[i].ledger.reflection
      ensures r.0[i].stop == (if !MustStop(chain[i], response, reserves[i]) then chain[i].stop
                              else if response.price.None? then Some(CannotPrice)
                              else if chain[i].stop.Some? then chain[i].stop
                              else Some(CostBudgetReached))
    {
      ChargeExactly(chain[i], category, response, reserves[i]);
    }
    RecordRaises(chain, reserves, category, response);
    RecordRaisesOutermost(chain, reserves, category, response);
  }

  // ----- probes and checks -----

  /** `count` rollouts of a kind fit one ledger at the kind's highest cost; before the first
      observation they cost nothing. */
  predicate RoomFor(m: Meter, reserve: real, count: int, kind: Kind) {
    m.cap.Some? ==>
      var spent := m.ledger.reflection.dollars + m.ledger.rollout.dollars;
      var projected := if count > 0 && m.observations.Get(kind) > 0 then count as real * m.highest.Get(kind) else 0.0;
      spent + projected <= m.cap.value - Max(0.0, reserve)
  }

  /** A probe passes exactly when no ledger of the ancestry is stopped and all have room. */
  lemma {:induction false} ProbeSeesEveryAncestor(chain: seq<Meter>, reserves: seq<real>, count: int, kind: Kind)
    requires Reserves(chain, reserves)
    ensures ProbeChain(chain, reserves, count, kind) <==>
            forall i :: 0 <= i < |chain| ==> chain[i].stop.None? && RoomFor(chain[i], reserves[i], count, kind)
  {
    if chain != [] {
      ProbeSeesEveryAncestor(chain[1..], reserves[1..], count, kind);
      assert forall i :: 1 <= i < |chain| ==> chain[i] == chain[1..][i - 1] && reserves[i] == reserves[1..][i - 1];
      assert forall i :: 0 <= i < |chain| - 1 ==> chain[1..][i] == chain[i + 1] && reserves[1..][i] == reserves[i + 1];
    }
  }

  /** Spend is up to the cap net of the reserve. */
  predicate Exhausted(m: Meter, reserve: real) {
    m.cap.Some? && m.ledger.reflection.dollars + m.ledger.rollout.dollars >= m.cap.value - Max(0.0, reserve)
  }

  predicate Open(m: Meter, reserve: real) {
    m.stop.None? && !Exhausted(m, reserve)
  }

  ghost predicate AllOpen(chain: seq<Meter>, reserves: seq<real>)
    requires Reserves(chain, reserves)
  {
    forall i :: 0 <= i < |chain| ==> Open(chain[i], reserves[i])
  }

  lemma AllOpenSplits(chain: seq<Meter>, reserves: seq<real>)
    requires Reserves(chain, reserves) && chain != []
    ensures AllOpen(chain, reserves) <==> Open(chain[0], reserves[0]) && AllOpen(chain[1..], reserves[1..])
  {
    assert forall i :: 1 <= i < |chain| ==> chain[i] == chain[1..][i - 1] && reserves[i] == reserves[1..][i - 1];
    assert forall i :: 0 <= i < |chain| - 1 ==> chain[1..][i] == chain[i + 1] && reserves[1..][i] == reserves[i + 1];
  }

  /** Checking the ancestors, then the head. */
  lemma CheckSplits(chain: seq<Meter>, reserves: seq<real>)
    requires Reserves(chain, reserves) && chain != []
    ensures var r := CheckChain(chain, reserves);
      var above := CheckChain(chain[1..], reserves[1..]);
      && r.0[1..] == above.0
      && (r.1.None? <==> above.1.None? && Open(chain[0], reserves[0]))
      && (r.1.None? ==> r.0[0] == chain[0])
      && r.0[0].ledger == chain[0].ledger
      && (r.0[0].stop != chain[0].stop ==> Exhausted(chain[0], reserves[0]))
  {
  }

  lemma {:induction false} CheckPasses(chain: seq<Meter>, reserves: seq<real>)
    requires Reserves(chain, reserves)
    ensures CheckChain(chain, reserves).1.None? <==> AllOpen(chain, reserves)
    ensures CheckChain(chain, reserves).1.None? ==> CheckChain(chain, reserves).0 == chain
  {
    if chain != [] {
      CheckPasses(chain[1..], reserves[1..]);
      CheckSplits(chain, reserves);
      AllOpenSplits(chain, reserves);
      var r := CheckChain(chain, reserves).0;
      assert r == [r[0]] + r[1..] && chain == [chain[0]] + chain[1..];
    }
  }

  lemma {:induction false} CheckStopsExhausted(chain: seq<Meter>, reserves: seq<real>, i: nat)
    requires Reserves(chain, reserves) && i < |chain|
    ensures var r := CheckChain(chain, reserves).0;
      r[i].ledger == chain[i].ledger && (r[i].stop != chain[i].stop ==> Exhausted(chain[i], reserves[i]))
  {
    CheckSplits(chain, reserves);
    if i > 0 {
      CheckStopsExhausted(chain[1..], reserves[1..], i - 1);
      assert CheckChain(chain, reserves).0[i] == CheckChain(chain, reserves).0[1..][i - 1];
    }
  }

  /** A check passes exactly when no ledger of the ancestry is stopped or exhausted. */
  lemma CheckSeesEveryAncestor(chain: seq<Meter>, reserves: seq<real>)
    requires Reserves(chain, reserves)
    ensures var r := CheckChain(chain, reserves);
      && (r.1.None? <==> forall i :: 0 <= i < |chain| ==> chain[i].stop.None? && !Exhausted(chain[i], reserves[i]))
      && (r.1.None? ==> r.0 == chain)
      && (forall i :: 0 <= i < |chain| ==>
            r.0[i].ledger == chain[i].ledger
            && (r.0[i].stop != chain[i].stop ==> Exhausted(chain[i], reserves[i])))
  {
    CheckPasses(chain, reserves);
    forall i | 0 <= i < |chain|
      ensures CheckChain(chain, reserves).0[i].ledger == chain[i].ledger
      ensures CheckChain(chain, reserves).0[i].stop != chain[i].stop ==> Exhausted(chain[i], reserves[i])
    {
      CheckStopsExhausted(chain, reserves, i);
    }
  }

  /** A projection over a chain that is given as a ledger and its ancestors. */
  lemma CanStartOf(m: Meter, above: seq<Meter>, reserves: seq<real>, category: Category, count: int,
                   following: int, kind: Option<Kind>, stops: bool)
    requires Reserves([m] + above, reserves)
    ensures var r := CanStartChain([m] + above, reserves, category, count, following, kind, stops);
      var here := CanStartLocal(m, reserves[0], category, count, following, kind, stops);
      var rest := CanStartChain(above, reserves[1..], category, count, following, kind, false);
      r == if !here.1 then ([here.0] + above, false)
           else if rest.1 then ([here.0] + rest.0, true)
           else if stops then ([here.0.(stop := StopOr(rest.0[0].stop, CostBudgetReached))] + rest.0, false)
           else ([here.0] + rest.0, false)
  {
    assert ([m] + above)[1..] == above;
  }

  /** The head of the chain may only stop; the rest is as it was, or as the parent left it. */
  lemma CanStartSplits(chain: seq<Meter>, reserves: seq<real>, category: Category, count: int,
                       following: int, kind: Option<Kind>, stops: bool)
    requires Reserves(chain, reserves) && chain != []
    ensures var r := CanStartChain(chain, reserves, category, count, following, kind, stops);
      var above := CanStartChain(chain[1..], reserves[1..], category, count, following, kind, false);
      && r.0[0] == chain[0].(stop := r.0[0].stop)
      && (r.0[1..] == chain[1..] || r.0[1..] == above.0)
      && (stops && !r.1 ==> r.0[0].stop.Some?)
      && (r.1 ==> chain[0].stop.None? && r.0[0] == chain[0] && above.1 && r.0[1..] == above.0)
      && (!stops && r.0[0].stop != chain[0].stop ==> Exhausted(chain[0], reserves[0]))
  {
  }

  /** What a projected batch asks of one ledger. */
  predicate MayBatch(m: Meter, reserve: real, category: Category, count: int, following: int, kind: Option<Kind>) {
    m.stop.None? &&
    (m.cap.Some? ==>
       var spent, room := m.ledger.reflection.dollars + m.ledger.rollout.dollars, m.cap.value - Max(0.0, reserve);
       spent < room && spent + MeanProjection(m, category, count, following, kind) <= room)
  }

  /** A projection is accepted exactly when every ledger of the ancestry may take the batch. */
  lemma {:induction false} CanStartExactly(chain: seq<Meter>, reserves: seq<real>, category: Category, count: int,
                                           following: int, kind: Option<Kind>, stops: bool)
    requires Reserves(chain, reserves)
    ensures CanStartChain(chain, reserves, category, count, following, kind, stops).1 <==>
            forall i :: 0 <= i < |chain| ==> MayBatch(chain[i], reserves[i], category, count, following, kind)
  {
    if chain != [] {
      CanStartExactly(chain[1..], reserves[1..], category, count, following, kind, false);
      CanStartOf(chain[0], chain[1..], reserves, category, count, following, kind, stops);
      assert chain == [chain[0]] + chain[1..];
      assert forall i :: 1 <= i < |chain| ==> chain[i] == chain[1..][i - 1] && reserves[i] == reserves[1..][i - 1];
      assert forall i :: 0 <= i < |chain| - 1 ==> chain[1..][i] == chain[i + 1] && reserves[1..][i] == reserves[i + 1];
    }
  }

  /** The dollars and observations that a batch's mean is taken over. */
  function MeanOver(m: Meter, category: Category, kind: Option<Kind>): (real, nat) {
    match category
    case Reflection => (m.ledger.reflection.dollars, m.reflectionObservations)
    case Rollout =>
      match kind
      case None => (m.ledger.rollout.dollars, m.rolloutObservations)
      case Some(Training) => (m.kindDollars.training, m.observations.training)
      case Some(Validation) => (m.kindDollars.validation, m.observations.validation)
  }

  /** `projected` rollouts or reflections cost as much each as those observed did on average. */
  predicate AtTheMean(projected: real, count: int, dollars: real, observations: nat) {
    if observations == 0 then projected == 0.0 else projected * observations as real == dollars * count as real
  }

  lemma MeanTimes(dollars: real, seen: nat, count: int)
    requires seen > 0
    ensures dollars / seen as real * count as real * seen as real == dollars * count as real
  {
    var mean := dollars / seen as real;
    assert mean * seen as real == dollars;
    assert mean * count as real * seen as real == mean * seen as real * count as real;
  }

  function Share(dollars: real, seen: nat, count: int): real {
    if seen == 0 then 0.0 else dollars / seen as real * count as real
  }

  lemma ShareIsMean(dollars: real, seen: nat, count: int)
    ensures AtTheMean(Share(dollars, seen, count), count, dollars, seen)
  {
    if seen > 0 {
      MeanTimes(dollars, seen, count);
    }
  }

  lemma ProjectionShares(m: Meter, category: Category, count: int, following: int, kind: Option<Kind>)
    ensures MeanProjection(m, category, count, following, kind) ==
            Share(MeanOver(m, category, kind).0, MeanOver(m, category, kind).1, count)
            + if following == 0 then 0.0 else Share(m.kindDollars.training, m.observations.training, following)
  {
  }

  lemma NoShare(dollars: real, seen: nat)
    ensures Share(dollars, seen, 0) == 0.0
  {
  }

  /** The batch is projected at the mean of its own kind, or of its category, and the rollouts
      that follow at the mean of training; what was never observed costs nothing. */
  lemma ProjectsAtMeans(m: Meter, category: Category, count: int, following: int, kind: Option<Kind>)
    ensures var whole := MeanProjection(m, category, count, following, kind);
      var batch := MeanProjection(m, category, count, 0, kind);
      && AtTheMean(batch, count, MeanOver(m, category, kind).0, MeanOver(m, category, kind).1)
      && AtTheMean(whole - batch, following, m.kindDollars.training, m.observations.training)
  {
    ProjectionShares(m, category, count, following, kind);
    ProjectionShares(m, category, count, 0, kind);
    ShareIsMean(MeanOver(m, category, kind).0, MeanOver(m, category, kind).1, count);
    ShareIsMean(m.kindDollars.training, m.observations.training, following);
    NoShare(m.kindDollars.training, m.observations.training);
  }

  /** A projection that is refused, at the child or at an ancestor, leaves every ancestor's
      stop alone, except one that is exhausted already. */
  lemma {:induction false} RefusalStaysLocal(chain: seq<Meter>, reserves: seq<real>, category: Category, count: int,
                                             following: int, kind: Option<Kind>, stops: bool)
    requires Reserves(chain, reserves)
    ensures var r := CanStartChain(chain, reserves, category, count, following, kind, stops);
      && (forall i :: (if stops then 1 else 0) <= i < |chain| && r.0[i].stop != chain[i].stop ==>
            Exhausted(chain[i], reserves[i]))
      && (forall i :: 0 <= i < |chain| ==> r.0[i].ledger == chain[i].ledger)
      && (stops && !r.1 && chain != [] ==> r.0[0].stop.Some?)
      && (r.1 ==> r.0 == chain && forall i :: 0 <= i < |chain| ==> chain[i].stop.None?)
  {
    if chain != [] {
      var r := CanStartChain(chain, reserves, category, count, following, kind, stops).0;
      var above := CanStartChain(chain[1..], reserves[1..], category, count, following, kind, false);
      RefusalStaysLocal(chain[1..], reserves[1..], category, count, following, kind, false);
      CanStartSplits(chain, reserves, category, count, following, kind, stops);
      TailsExtend(r, chain, reserves, above.0, above.1);
    }
  }

  /** Facts about tails, put back behind their heads. */
  lemma TailsExtend(r: seq<Meter>, chain: seq<Meter>, reserves: seq<real>, above: seq<Meter>, fits: bool)
    requires chain != [] && Reserves(chain, reserves) && |r| == |chain| && |above| == |chain| - 1
    requires r[1..] == chain[1..] || r[1..] == above
    requires forall i :: 0 <= i < |above| && above[i].stop != chain[1..][i].stop ==>
               Exhausted(chain[1..][i], reserves[1..][i])
    requires forall i :: 0 <= i < |above| ==> above[i].ledger == chain[1..][i].ledger
    requires fits ==> above == chain[1..] && forall i :: 0 <= i < |above| ==> chain[1..][i].stop.None?
    ensures forall i :: 1 <= i < |chain| && r[i].stop != chain[i].stop ==> Exhausted(chain[i], reserves[i])
    ensures forall i :: 1 <= i < |chain| ==> r[i].ledger == chain[i].ledger
    ensures fits && r[0] == chain[0] ==> r == chain
    ensures fits ==> forall i :: 1 <= i < |chain| ==> chain[i].stop.None?
  {
    assert forall i :: 1 <= i < |chain| ==>
      chain[i] == chain[1..][i - 1] && reserves[i] == reserves[1..][i - 1] && r[i] == r[1..][i - 1];
    assert r == [r[0]] + r[1..] && chain == [chain[0]] + chain[1..];
  }
}
