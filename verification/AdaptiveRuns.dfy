/** The adaptive sequential loop: bounded slices that switch engine after an observed plateau. */
module AdaptiveRuns {
  import opened Multiples
  import opened Options
  import opened Incumbents

  datatype Plan = Plan(sizes: seq<nat>, max: int, margin: real, patience: int, minPerEngine: int,
                       maxSwitches: Option<int>, cycle: bool, maxSlices: Option<int>, requested: Option<int>,
                       cases: nat)
  {
    predicate Valid() {
      && sizes != [] && patience >= 1 && minPerEngine >= 1 && margin >= 0.0 && max > 0
      && (maxSwitches.Some? ==> maxSwitches.value >= 0)
      && forall i :: 0 <= i < |sizes| ==> sizes[i] > 0
    }
  }

  /** One completed slice; `plateau` says that the engine's turn ended with it. */
  datatype Phase = Phase(engine: nat, granted: nat, used: nat, improved: bool, plateau: bool)

  // ----- the state as a function of the phases so far -----

  /** `index`: the turns that ended. */
  function Turn(phases: seq<Phase>): nat {
    if phases == [] then 0
    else Turn(phases[..|phases| - 1]) + if phases[|phases| - 1].plateau then 1 else 0
  }

  /** `plateau_rounds`: slices of this turn since the last improvement. */
  function Stalled(phases: seq<Phase>): nat {
    if phases == [] then 0
    else
      var last := phases[|phases| - 1];
      if last.plateau || last.improved then 0 else Stalled(phases[..|phases| - 1]) + 1
  }

  /** `calls_for_engine`: calls used in this turn. */
  function Calls(phases: seq<Phase>): nat {
    if phases == [] then 0
    else
      var last := phases[|phases| - 1];
      if last.plateau then 0 else Calls(phases[..|phases| - 1]) + last.used
  }

  function Left(max: nat, phases: seq<Phase>): int {
    if phases == [] then max else Left(max, phases[..|phases| - 1]) - phases[|phases| - 1].used
  }

  /** The slice after `phases`, when `held` is the incumbent, `left` calls remain and it is evaluated as `e`. */
  function NextPhase(p: Plan, w: World, phases: seq<Phase>, left: nat, held: Held, e: Evaluation): Phase
    requires p.sizes != []
  {
    var engine := Turn(phases) % |p.sizes|;
    var granted := Min(p.sizes[engine], left);
    var used := Consumed(w, |phases|, granted);
    var improved := Adopts(held.e, e, MoreThan(p.margin));
    var stalled := if improved then 0 else Stalled(phases) + 1;
    Phase(engine, granted, used, improved,
          used == 0 || (stalled >= p.patience && Calls(phases) + used >= p.minPerEngine))
  }

  ghost predicate Follows(p: Plan, w: World, phases: seq<Phase>, seen: seq<Evaluation>, i: nat)
    requires i < |phases| && i < |seen| && p.sizes != [] && p.max > 0
  {
    && Left(p.max, phases[..i]) >= 0
    && phases[i] == NextPhase(p, w, phases[..i], Left(p.max, phases[..i]),
                              After(SeedHeld(w.seed), seen[..i], MoreThan(p.margin)), seen[i])
    && w.evaluation(i).Completed? && seen[i] == w.evaluation(i).e
  }

  /** Every slice follows from the ones before it. */
  ghost predicate Faithful(p: Plan, w: World, phases: seq<Phase>, seen: seq<Evaluation>)
    requires p.sizes != [] && p.max > 0
  {
    |phases| == |seen| && forall i {:trigger phases[i]} :: 0 <= i < |phases| ==> Follows(p, w, phases, seen, i)
  }

  // ----- what the phases mean -----

  /** The last `n` slices belong to one turn and none of them improved. */
  ghost predicate PlateauOf(phases: seq<Phase>, n: nat) {
    n <= |phases| &&
    forall i :: |phases| - n <= i < |phases| ==> !phases[i].improved && (i < |phases| - 1 ==> !phases[i].plateau)
  }

  lemma {:induction false} StalledMeans(phases: seq<Phase>)
    ensures Stalled(phases) <= |phases|
    ensures forall i :: |phases| - Stalled(phases) <= i < |phases| ==> !phases[i].improved && !phases[i].plateau
  {
    if phases != [] {
      var earlier := phases[..|phases| - 1];
      StalledMeans(earlier);
      assert forall i :: 0 <= i < |earlier| ==> earlier[i] == phases[i];
    }
  }

  /** An engine's turn ends only when its slice spent nothing, or after `patience` slices of that
      engine in a row without an improvement. */
  lemma SwitchNeedsPlateau(p: Plan, w: World, phases: seq<Phase>, seen: seq<Evaluation>, i: nat)
    requires p.Valid() && Faithful(p, w, phases, seen) && i < |phases| && phases[i].plateau
    ensures phases[i].used == 0 || PlateauOf(phases[..i + 1], p.patience)
  {
    assert Follows(p, w, phases, seen, i);
    if phases[i].used != 0 {
      assert !phases[i].improved && Stalled(phases[..i]) + 1 >= p.patience;
      PlateauGrows(phases[..i], phases[i], p.patience);
      assert phases[..i + 1] == phases[..i] + [phases[i]];
    }
  }

  lemma PlateauGrows(phases: seq<Phase>, last: Phase, n: nat)
    requires !last.improved && 1 <= n <= Stalled(phases) + 1
    ensures PlateauOf(phases + [last], n)
  {
    StalledMeans(phases);
    assert forall i :: 0 <= i < |phases| ==> (phases + [last])[i] == phases[i];
  }

  lemma EngineIsTurn(p: Plan, w: World, phases: seq<Phase>, seen: seq<Evaluation>, i: nat)
    requires p.Valid() && Faithful(p, w, phases, seen) && i < |phases|
    ensures phases[i].engine == Turn(phases[..i]) % |p.sizes|
  {
    var phase := phases[i];
    assert Follows(p, w, phases, seen, i);
  }

  lemma {:induction false} TurnsAdvance(phases: seq<Phase>, i: nat, j: nat)
    requires i <= j <= |phases| && forall k :: i <= k < j ==> !phases[k].plateau
    ensures Turn(phases[..i]) == Turn(phases[..j])
    decreases j
  {
    if i < j {
      TurnsAdvance(phases, i, j - 1);
      assert phases[..j][..j - 1] == phases[..j - 1];
    }
  }

  /** Between two plateaus one engine runs. */
  lemma OneTurn(p: Plan, w: World, phases: seq<Phase>, seen: seq<Evaluation>, i: nat, j: nat)
    requires p.Valid() && Faithful(p, w, phases, seen) && i <= j < |phases|
    requires forall k :: i <= k < j ==> !phases[k].plateau
    ensures phases[i].engine == phases[j].engine
  {
    EngineIsTurn(p, w, phases, seen, i);
    EngineIsTurn(p, w, phases, seen, j);
    TurnsAdvance(phases, i, j);
  }

  // ----- the loop -----

  datatype Ending = Halted | Unfunded | TooSmall | Unaffordable | Cut | SwitchesSpent

  function Smallest(sizes: seq<nat>): (r: nat)
    requires sizes != []
    ensures r in sizes && forall i :: 0 <= i < |sizes| ==> r <= sizes[i]
  {
    if |sizes| == 1 then sizes[0]
    else
      var rest := Smallest(sizes[1..]);
      assert forall i :: 1 <= i < |sizes| ==> sizes[i] == sizes[1..][i - 1];
      Min(sizes[0], rest)
  }

  function SliceLimit(p: Plan): int
    requires p.sizes != [] && forall i :: 0 <= i < |p.sizes| ==> p.sizes[i] > 0
  {
    if p.maxSlices.Some? && p.maxSlices.value != 0 then p.maxSlices.value
    else
      var affordable := p.max / Smallest(p.sizes);
      if affordable < 1 then 1 else affordable
  }

  lemma CountsOneMore(phases: seq<Phase>, phase: Phase, max: nat)
    ensures Turn(phases + [phase]) == Turn(phases) + (if phase.plateau then 1 else 0)
    ensures Stalled(phases + [phase]) == (if phase.plateau || phase.improved then 0 else Stalled(phases) + 1)
    ensures Calls(phases + [phase]) == (if phase.plateau then 0 else Calls(phases) + phase.used)
    ensures Left(max, phases + [phase]) == Left(max, phases) - phase.used
  {
    assert (phases + [phase])[..|phases|] == phases;
  }

  lemma FollowsStays(p: Plan, w: World, phases: seq<Phase>, seen: seq<Evaluation>, phase: Phase, e: Evaluation, i: nat)
    requires p.sizes != [] && p.max > 0 && i < |phases| == |seen| && Follows(p, w, phases, seen, i)
    ensures Follows(p, w, phases + [phase], seen + [e], i)
  {
    assert (phases + [phase])[..i] == phases[..i] && (seen + [e])[..i] == seen[..i];
  }

  lemma FollowsLast(p: Plan, w: World, phases: seq<Phase>, seen: seq<Evaluation>, left: nat, held: Held)
    requires p.sizes != [] && p.max > 0 && |phases| == |seen|
    requires left == Left(p.max, phases) && held == After(SeedHeld(w.seed), seen, MoreThan(p.margin))
    requires w.evaluation(|phases|).Completed?
    ensures var e := w.evaluation(|phases|).e;
      Follows(p, w, phases + [NextPhase(p, w, phases, left, held, e)], seen + [e], |phases|)
  {
    var e := w.evaluation(|phases|).e;
    var phase := NextPhase(p, w, phases, left, held, e);
    assert (phases + [phase])[..|phases|] == phases && (seen + [e])[..|seen|] == seen;
  }

  lemma PhaseOneMore(p: Plan, w: World, phases: seq<Phase>, seen: seq<Evaluation>, left: nat, held: Held)
    requires p.sizes != [] && p.max > 0 && Faithful(p, w, phases, seen)
    requires left == Left(p.max, phases) && held == After(SeedHeld(w.seed), seen, MoreThan(p.margin))
    requires w.evaluation(|phases|).Completed?
    ensures var e := w.evaluation(|phases|).e;
      Faithful(p, w, phases + [NextPhase(p, w, phases, left, held, e)], seen + [e])
  {
    var e := w.evaluation(|phases|).e;
    var phase := NextPhase(p, w, phases, left, held, e);
    forall i | 0 <= i < |phases| + 1 ensures Follows(p, w, phases + [phase], seen + [e], i) {
      if i < |phases| {
        assert phases[i] == (phases + [phase])[i];
        FollowsStays(p, w, phases, seen, phase, e, i);
      } else {
        FollowsLast(p, w, phases, seen, left, held);
      }
    }
  }

  predicate MayContinue(p: Plan, w: World, limit: int, slices: nat, turn: nat, left: nat) {
    !w.stopped(slices) && left > 0 && slices < limit && (p.cycle || turn < |p.sizes|)
  }

  /** The switches counted: a plateau that only ended the loop is not one. */
  function Switches(phases: seq<Phase>, ending: Ending): int {
    if ending.SwitchesSpent? then Turn(phases) - 1 else Turn(phases)
  }

  function NextGrant(p: Plan, left: nat, turn: nat): nat
    requires p.sizes != []
  {
    Min(p.sizes[turn % |p.sizes|], left)
  }

  datatype Attempt = Stop(ending: Ending) | Go(e: Evaluation)

  /** Slice `i`, up to its evaluation. */
  function AttemptAt(p: Plan, w: World, i: nat, left: nat, turn: nat): Attempt
    requires p.sizes != []
  {
    if !w.fitsBefore(i) then Stop(Ending.Unfunded)
    else if NextGrant(p, left, turn) < p.minPerEngine then Stop(TooSmall)
    else if !w.fitsAfter(i) then Stop(Ending.Unaffordable)
    else match w.evaluation(i) case Interrupted(_) => Stop(Ending.Cut) case Completed(e) => Go(e)
  }

  predicate EngineRan(ending: Ending) {
    ending.Unaffordable? || ending.Cut?
  }

  /** What the comparison of slice `i` is charged, if it is held. */
  function Compared(w: World, i: nat, attempt: Attempt, cases: nat): (r: nat)
    ensures r <= cases
  {
    if attempt.Go? || attempt.ending.Cut? then Charge(w.evaluation(i), cases) else 0
  }

  /** Slice `i` was allowed to start, could be funded, and was evaluated. */
  ghost predicate Ran(p: Plan, w: World, limit: int, phases: seq<Phase>, i: nat)
    requires p.sizes != [] && p.max > 0 && i < |phases|
  {
    var left, turn := Left(p.max, phases[..i]), Turn(phases[..i]);
    left >= 0 && MayContinue(p, w, limit, i, turn, left) && AttemptAt(p, w, i, left, turn).Go?
  }

  ghost predicate AllRan(p: Plan, w: World, limit: int, phases: seq<Phase>)
    requires p.sizes != [] && p.max > 0
  {
    forall i {:trigger phases[i]} :: 0 <= i < |phases| ==> Ran(p, w, limit, phases, i)
  }

  lemma RanOneMore(p: Plan, w: World, limit: int, phases: seq<Phase>, phase: Phase)
    requires p.sizes != [] && p.max > 0 && AllRan(p, w, limit, phases) && Left(p.max, phases) >= 0
    requires MayContinue(p, w, limit, |phases|, Turn(phases), Left(p.max, phases))
    requires AttemptAt(p, w, |phases|, Left(p.max, phases), Turn(phases)).Go?
    ensures AllRan(p, w, limit, phases + [phase])
  {
    var longer := phases + [phase];
    assert longer[..|phases|] == phases;
    forall i | 0 <= i < |longer| ensures Ran(p, w, limit, longer, i) {
      if i < |phases| {
        assert Ran(p, w, limit, phases, i) by { assert phases[i] == longer[i]; }
        assert longer[..i] == phases[..i];
      }
    }
  }

  /** Why no further slice completed. */
  ghost predicate EndsWith(p: Plan, w: World, limit: int, phases: seq<Phase>, left: int, ending: Ending)
    requires p.sizes != []
  {
    var i, turn := |phases|, Turn(phases);
    left >= 0 &&
    match ending
    case Halted => !MayContinue(p, w, limit, i, turn, left)
    case SwitchesSpent => phases != [] && phases[i - 1].plateau && p.maxSwitches.Some? && turn == p.maxSwitches.value + 1
    case _ => MayContinue(p, w, limit, i, turn, left) && AttemptAt(p, w, i, left, turn) == Stop(ending)
  }

  /** The plateau bookkeeping of one slice; `spent` when a switch is due and none is left. */
  method Judge(p: Plan, turnBefore: nat, granted: nat, used: nat, improved: bool, stalledBefore: nat, callsBefore: nat)
    returns (phase: Phase, turn: nat, stalled: nat, calls: nat, spent: bool)
    requires p.Valid()
    ensures var rounds := if improved then 0 else stalledBefore + 1;
      && phase == Phase(turnBefore % |p.sizes|, granted, used, improved,
                        used == 0 || (rounds >= p.patience && callsBefore + used >= p.minPerEngine))
      && (spent <==> phase.plateau && p.maxSwitches.Some? && turnBefore >= p.maxSwitches.value)
      && turn == (if phase.plateau && !spent then turnBefore + 1 else turnBefore)
      && (!spent ==> stalled == (if phase.plateau then 0 else rounds))
      && (!spent ==> calls == (if phase.plateau then 0 else callsBefore + used))
  {
    turn, spent := turnBefore, false;
    stalled := if improved then 0 else stalledBefore + 1;
    var noProgress := used == 0;
    calls := callsBefore + used;
    if noProgress && stalled < p.patience {
      stalled := p.patience;
    }
    var switch := stalled >= p.patience && (calls >= p.minPerEngine || noProgress);
    phase := Phase(turnBefore % |p.sizes|, granted, used, improved, switch);
    if switch {
      if p.maxSwitches.Some? && turnBefore >= p.maxSwitches.value {
        spent := true;
      } else {
        turn, stalled, calls := turnBefore + 1, 0, 0;
      }
    }
  }

  /** Runs slice `i`: the engine, then the comparison. */
  method RunSlice(p: Plan, w: World, i: nat, left: nat, turn: nat, callsBefore: nat, comparisonLimit: int)
    returns (attempt: Attempt, used: nat, calls: nat)
    requires p.Valid() && callsBefore + p.cases <= comparisonLimit
    ensures attempt == AttemptAt(p, w, i, left, turn)
    ensures used == (if attempt.Stop? && !EngineRan(attempt.ending) then 0 else Consumed(w, i, NextGrant(p, left, turn)))
    ensures calls == callsBefore + Compared(w, i, attempt, p.cases)
  {
    used, calls := 0, callsBefore;
    if !w.fitsBefore(i) {
      return Stop(Ending.Unfunded), used, calls;
    }
    var granted := NextGrant(p, left, turn);
    if granted < p.minPerEngine {
      return Stop(TooSmall), used, calls;
    }
    used := Consumed(w, i, granted);
    if !w.fitsAfter(i) {
      return Stop(Ending.Unaffordable), used, calls;
    }
    var observed := w.evaluation(i);
    assert calls + Charge(observed, p.cases) <= comparisonLimit;  // the comparison budget is never exhausted
    calls := calls + Charge(observed, p.cases);
    attempt := if observed.Completed? then Go(observed.e) else Stop(Ending.Cut);
  }

  /** The loop's variables. */
  datatype Run = Run(held: Held, seen: seq<Evaluation>, phases: seq<Phase>, handed: seq<Handed>, turn: nat,
                     stalled: nat, calls: nat, left: int, comparisonCalls: nat)

  /** Every variable is the function of the phases it should be. */
  ghost predicate Kept(p: Plan, w: World, limit: nat, r: Run)
    requires p.Valid()
  {
    && Faithful(p, w, r.phases, r.seen) && |r.phases| <= limit && AllRan(p, w, limit, r.phases)
    && r.held == After(SeedHeld(w.seed), r.seen, MoreThan(p.margin))
    && HandedInOrder(w, r.seen, MoreThan(p.margin), r.handed) && |r.handed| == |r.seen|
    && r.turn == Turn(r.phases) && r.stalled == Stalled(r.phases) && r.calls == Calls(r.phases)
    && r.left == Left(p.max, r.phases) && r.left >= 0
    && r.comparisonCalls == Charge(w.seed, p.cases) + Cost(p.cases, |r.phases|)
  }

  lemma HandOverKept(p: Plan, w: World, limit: nat, r: Run)
    requires p.Valid() && Kept(p, w, limit, r)
    ensures HandedInOrder(w, r.seen, MoreThan(p.margin), r.handed + [HandedOf(r.held, w.seed)])
  {
    HandOver(w, r.seen, MoreThan(p.margin), r.handed);
  }

  /** The state after a completed slice. */
  function Recorded(p: Plan, w: World, r: Run, phase: Phase, e: Evaluation, comparisonCalls: nat): Run {
    Run(if phase.improved then Held(|r.seen|, e) else r.held, r.seen + [e], r.phases + [phase],
        r.handed + [HandedOf(r.held, w.seed)], if phase.plateau then r.turn + 1 else r.turn,
        if phase.plateau || phase.improved then 0 else r.stalled + 1, if phase.plateau then 0 else r.calls + phase.used,
        r.left - phase.used, comparisonCalls)
  }

  predicate SwitchesLeft(p: Plan, turn: nat) {
    p.maxSwitches.Some? ==> turn <= p.maxSwitches.value
  }

  lemma RecordedIsKept(p: Plan, w: World, limit: nat, r: Run, comparisonCalls: nat)
    requires p.Valid() && Kept(p, w, limit, r) && MayContinue(p, w, limit, |r.phases|, r.turn, r.left)
    requires AttemptAt(p, w, |r.phases|, r.left, r.turn).Go? && comparisonCalls == r.comparisonCalls + p.cases
    ensures var e := w.evaluation(|r.phases|).e;
      var phase := NextPhase(p, w, r.phases, r.left, r.held, e);
      var next := Recorded(p, w, r, phase, e, comparisonCalls);
      Kept(p, w, limit, next)
  {
    var e := w.evaluation(|r.phases|).e;
    var phase := NextPhase(p, w, r.phases, r.left, r.held, e);
    PhaseOneMore(p, w, r.phases, r.seen, r.left, r.held);
    RanOneMore(p, w, limit, r.phases, phase);
    CountsOneMore(r.phases, phase, p.max);
    SeenIsKept(p, w, limit, r, e);
  }

  /** What was seen and handed out, and the incumbent, after one more evaluation. */
  lemma SeenIsKept(p: Plan, w: World, limit: nat, r: Run, e: Evaluation)
    requires p.Valid() && Kept(p, w, limit, r)
    ensures var handed := r.handed + [HandedOf(r.held, w.seed)];
      && HandedInOrder(w, r.seen + [e], MoreThan(p.margin), handed) && |handed| == |r.seen + [e]|
      && After(SeedHeld(w.seed), r.seen + [e], MoreThan(p.margin)) ==
         if Adopts(r.held.e, e, MoreThan(p.margin)) then Held(|r.seen|, e) else r.held
  {
    HandOverKept(p, w, limit, r);
    SeeOneMore(w, r.seen, MoreThan(p.margin), r.handed + [HandedOf(r.held, w.seed)], e);
    AfterOneMore(SeedHeld(w.seed), r.seen, e, MoreThan(p.margin));
  }

  /** How a run ends. */
  ghost predicate Final(p: Plan, w: World, limit: nat, r: Run, ending: Ending)
    requires p.Valid()
  {
    && Faithful(p, w, r.phases, r.seen) && |r.phases| <= limit && AllRan(p, w, limit, r.phases)
    && r.held == After(SeedHeld(w.seed), r.seen, MoreThan(p.margin))
    && HandedInOrder(w, r.seen, MoreThan(p.margin), r.handed)
    && |r.handed| == (if EngineRan(ending) then |r.seen| + 1 else |r.seen|)
    && EndsWith(p, w, limit, r.phases, Left(p.max, r.phases), ending)
    && r.turn == Switches(r.phases, ending) && SwitchesLeft(p, r.turn)
    && r.left == Left(p.max, r.phases) - (if EngineRan(ending) then
         Consumed(w, |r.phases|, NextGrant(p, Left(p.max, r.phases), Turn(r.phases))) else 0)
    && 0 <= r.left <= p.max
    && r.comparisonCalls == Charge(w.seed, p.cases) + Cost(p.cases, |r.phases|)
                            + if ending.Cut? then Charge(w.evaluation(|r.phases|), p.cases) else 0
  }

  lemma {:induction false} LeftAtMost(max: nat, phases: seq<Phase>)
    ensures Left(max, phases) <= max
  {
    if phases != [] {
      LeftAtMost(max, phases[..|phases| - 1]);
    }
  }

  /** The state when a slice stops before its evaluation. */
  function Stopped(w: World, r: Run, ending: Ending, used: nat, comparisonCalls: nat): Run {
    r.(left := r.left - used, comparisonCalls := comparisonCalls,
       handed := if EngineRan(ending) then r.handed + [HandedOf(r.held, w.seed)] else r.handed)
  }

  lemma StoppedIsFinal(p: Plan, w: World, limit: nat, r: Run, ending: Ending, used: nat, comparisonCalls: nat)
    requires p.Valid() && Kept(p, w, limit, r) && SwitchesLeft(p, r.turn)
    requires MayContinue(p, w, limit, |r.phases|, r.turn, r.left)
    requires AttemptAt(p, w, |r.phases|, r.left, r.turn) == Stop(ending)
    requires used == if EngineRan(ending) then Consumed(w, |r.phases|, NextGrant(p, r.left, r.turn)) else 0
    requires comparisonCalls == r.comparisonCalls + Compared(w, |r.phases|, Stop(ending), p.cases)
    ensures Final(p, w, limit, Stopped(w, r, ending, used, comparisonCalls), ending)
  {
    var end := Stopped(w, r, ending, used, comparisonCalls);
    LeftAtMost(p.max, r.phases);
    assert HandedInOrder(w, r.seen, MoreThan(p.margin), end.handed) by {
      HandOverKept(p, w, limit, r);
    }
    StopEnds(p, w, limit, r.phases, r.left, ending);
  }

  lemma StopEnds(p: Plan, w: World, limit: nat, phases: seq<Phase>, left: nat, ending: Ending)
    requires p.sizes != [] && MayContinue(p, w, limit, |phases|, Turn(phases), left)
    requires AttemptAt(p, w, |phases|, left, Turn(phases)) == Stop(ending)
    ensures EndsWith(p, w, limit, phases, left, ending) && !ending.SwitchesSpent? && !ending.Halted?
  {
  }

  lemma SpentEnds(p: Plan, w: World, limit: int, phases: seq<Phase>, left: int)
    requires p.sizes != [] && phases != [] && phases[|phases| - 1].plateau && left >= 0
    requires p.maxSwitches.Some? && Turn(phases) == p.maxSwitches.value + 1
    ensures EndsWith(p, w, limit, phases, left, SwitchesSpent)
  {
  }

  lemma SpentIsFinal(p: Plan, w: World, limit: nat, r: Run, end: Run)
    requires p.Valid() && Kept(p, w, limit, r) && r.phases != [] && r.phases[|r.phases| - 1].plateau
    requires p.maxSwitches.Some? && r.turn == p.maxSwitches.value + 1
    requires end == r.(turn := r.turn - 1, stalled := end.stalled, calls := end.calls)
    ensures Final(p, w, limit, end, SwitchesSpent)
  {
    LeftAtMost(p.max, r.phases);
    SpentEnds(p, w, limit, r.phases, Left(p.max, r.phases));
  }

  /** Records a completed slice and decides whether to switch. */
  method Complete(p: Plan, w: World, r: Run, used: nat, e: Evaluation, comparisonCalls: nat)
    returns (next: Run, spent: bool)
    requires p.Valid() && r.left >= 0 && used == Consumed(w, |r.phases|, NextGrant(p, r.left, r.turn))
    requires r.turn == Turn(r.phases) && r.stalled == Stalled(r.phases) && r.calls == Calls(r.phases)
    ensures var phase := NextPhase(p, w, r.phases, r.left, r.held, e);
      var recorded := Recorded(p, w, r, phase, e, comparisonCalls);
      && (spent <==> phase.plateau && p.maxSwitches.Some? && r.turn >= p.maxSwitches.value)
      && next == if spent then recorded.(turn := r.turn, stalled := next.stalled, calls := next.calls) else recorded
  {
    var improved := Adopts(r.held.e, e, MoreThan(p.margin));
    var phase, turn, stalled, calls;
    phase, turn, stalled, calls, spent :=
      Judge(p, r.turn, NextGrant(p, r.left, r.turn), used, improved, r.stalled, r.calls);
    next := Run(if improved then Held(|r.seen|, e) else r.held, r.seen + [e], r.phases + [phase],
                r.handed + [HandedOf(r.held, w.seed)], turn, stalled, calls, r.left - used, comparisonCalls);
  }

  lemma SpentFits(p: Plan, w: World, limit: nat, r: Run, next: Run, comparisonCalls: nat)
    requires p.Valid() && Kept(p, w, limit, r) && SwitchesLeft(p, r.turn)
    requires MayContinue(p, w, limit, |r.phases|, r.turn, r.left) && AttemptAt(p, w, |r.phases|, r.left, r.turn).Go?
    requires comparisonCalls == r.comparisonCalls + p.cases
    requires var e := w.evaluation(|r.phases|).e;
      var phase := NextPhase(p, w, r.phases, r.left, r.held, e);
      && phase.plateau && p.maxSwitches.Some? && r.turn >= p.maxSwitches.value
      && next == Recorded(p, w, r, phase, e, comparisonCalls).(turn := r.turn, stalled := next.stalled, calls := next.calls)
    ensures Final(p, w, limit, next, SwitchesSpent)
  {
    var e := w.evaluation(|r.phases|).e;
    var recorded := Recorded(p, w, r, NextPhase(p, w, r.phases, r.left, r.held, e), e, comparisonCalls);
    RecordedIsKept(p, w, limit, r, comparisonCalls);
    SpentIsFinal(p, w, limit, recorded, next);
  }

  /** Records a completed slice; the loop ends when its switches are spent. */
  method Finish(p: Plan, w: World, limit: nat, r: Run, used: nat, comparisonCalls: nat)
    returns (next: Run, ending: Option<Ending>)
    requires p.Valid() && Kept(p, w, limit, r) && SwitchesLeft(p, r.turn)
    requires MayContinue(p, w, limit, |r.phases|, r.turn, r.left) && AttemptAt(p, w, |r.phases|, r.left, r.turn).Go?
    requires used == Consumed(w, |r.phases|, NextGrant(p, r.left, r.turn))
    requires comparisonCalls == r.comparisonCalls + p.cases
    ensures ending.None? ==> Kept(p, w, limit, next) && SwitchesLeft(p, next.turn) && |next.phases| == |r.phases| + 1
    ensures ending.Some? ==> Final(p, w, limit, next, ending.value)
  {
    var spent;
    next, spent := Complete(p, w, r, used, w.evaluation(|r.phases|).e, comparisonCalls);
    if spent {
      SpentFits(p, w, limit, r, next, comparisonCalls);
      ending := Some(SwitchesSpent);
    } else {
      RecordedIsKept(p, w, limit, r, comparisonCalls);
      ending := None;
    }
  }

  /** One turn of the loop. */
  method Advance(p: Plan, w: World, limit: nat, r: Run, comparisonLimit: int)
    returns (next: Run, ending: Option<Ending>)
    requires p.Valid() && Kept(p, w, limit, r) && SwitchesLeft(p, r.turn)
    requires MayContinue(p, w, limit, |r.phases|, r.turn, r.left) && Cost(p.cases, limit + 1) <= comparisonLimit
    ensures ending.None? ==> Kept(p, w, limit, next) && SwitchesLeft(p, next.turn) && |next.phases| == |r.phases| + 1
    ensures ending.Some? ==> Final(p, w, limit, next, ending.value)
  {
    CostGrows(p.cases, |r.phases| + 2, limit + 1);
    assert Cost(p.cases, |r.phases| + 2) == p.cases + Cost(p.cases, |r.phases| + 1);
    var attempt, used, comparisonCalls :=
      RunSlice(p, w, |r.phases|, r.left, r.turn, r.comparisonCalls, comparisonLimit);
    if attempt.Stop? {
      StoppedIsFinal(p, w, limit, r, attempt.ending, used, comparisonCalls);
      next, ending := Stopped(w, r, attempt.ending, used, comparisonCalls), Some(attempt.ending);
    } else {
      next, ending := Finish(p, w, limit, r, used, comparisonCalls);
    }
  }

  method Slices(p: Plan, w: World, limit: nat, comparisonLimit: int) returns (r: Run, ending: Ending)
    requires p.Valid() && Cost(p.cases, limit + 1) <= comparisonLimit
    ensures Final(p, w, limit, r, ending)
  {
    r := Run(SeedHeld(w.seed), [], [], [], 0, 0, 0, p.max, Charge(w.seed, p.cases));
    while MayContinue(p, w, limit, |r.phases|, r.turn, r.left)
      invariant Kept(p, w, limit, r) && SwitchesLeft(p, r.turn)
      decreases limit - |r.phases|
    {
      var next, ended := Advance(p, w, limit, r, comparisonLimit);
      r := next;
      if ended.Some? {
        ending := ended.value;
        return;
      }
    }
    LeftAtMost(p.max, r.phases);
    ending := Ending.Halted;
  }

  datatype Adaptive =
    | Fault(error: Error)
    | Refused
    | Ended(run: Run, ending: Ending, limit: int, comparisonLimit: int)

  function ArgumentError(p: Plan): (r: Option<Error>)
    requires forall i :: 0 <= i < |p.sizes| ==> p.sizes[i] > 0
    ensures r.None? ==> p.Valid() && SliceLimit(p) >= 1 && ComparisonLimit(p) >= p.cases * (SliceLimit(p) + 1)
  {
    if p.sizes == [] then Some(NoConfigs)
    else if p.patience < 1 || p.minPerEngine < 1 then Some(BadPatience)
    else if p.margin < 0.0 then Some(BadPlateau)
    else if p.maxSwitches.Some? && p.maxSwitches.value < 0 then Some(BadSwitches)
    else if p.maxSlices.Some? && p.maxSlices.value < 1 then Some(BadSlices)
    else if p.max <= 0 then Some(BadBudget)
    else if p.requested.Some? && p.requested.value < p.cases * (SliceLimit(p) + 1) then Some(ComparisonTooSmall)
    else if ComparisonLimit(p) <= 0 then Some(BadBudget)
    else None
  }

  /** `comparison_metric_calls or cap` */
  function ComparisonLimit(p: Plan): int
    requires p.sizes != [] && forall i :: 0 <= i < |p.sizes| ==> p.sizes[i] > 0
  {
    if p.requested.Some? && p.requested.value != 0 then p.requested.value else p.cases * (SliceLimit(p) + 1)
  }

  method OptimizeAdaptive(p: Plan, w: World) returns (r: Adaptive)
    requires forall i :: 0 <= i < |p.sizes| ==> p.sizes[i] > 0
    ensures r.Fault? <==> ArgumentError(p).Some?
    ensures r.Fault? ==> r.error == ArgumentError(p).value
    ensures r.Refused? <==> ArgumentError(p).None? && !w.seedFits
    ensures r.Ended? ==> p.Valid() && r.limit == SliceLimit(p) >= 1 && r.comparisonLimit == ComparisonLimit(p) &&
                         Final(p, w, r.limit, r.run, r.ending)
  {
    var argument := ArgumentError(p);
    if argument.Some? {
      return Adaptive.Fault(argument.value);
    }
    if !w.seedFits {
      return Adaptive.Refused;
    }
    var limit := SliceLimit(p);
    CostIsProduct(p.cases, limit + 1);
    var run, ending := Slices(p, w, limit, ComparisonLimit(p));
    r := Adaptive.Ended(run, ending, limit, ComparisonLimit(p));
  }

  lemma ComparisonsPaid(p: Plan, w: World, limit: nat, r: Run, ending: Ending)
    requires p.Valid() && Final(p, w, limit, r, ending)
    ensures |r.handed| <= limit && r.comparisonCalls <= Cost(p.cases, limit + 1)
  {
    EnginesWithin(p, w, limit, r, ending);
    AllFunded(p.cases, Charge(w.seed, p.cases), |r.phases|,
              if ending.Cut? then Charge(w.evaluation(|r.phases|), p.cases) else 0, limit);
  }

  lemma EnginesWithin(p: Plan, w: World, limit: nat, r: Run, ending: Ending)
    requires p.Valid() && Final(p, w, limit, r, ending)
    ensures |r.handed| <= limit && (EngineRan(ending) ==> |r.phases| < limit)
  {
    assert EndsWith(p, w, limit, r.phases, Left(p.max, r.phases), ending);
  }

  /** The comparison calls: the seed's, one evaluation for every completed slice, and an interrupted
      one if it was charged. */
  lemma ComparisonsExactly(p: Plan, w: World, limit: nat, r: Run, ending: Ending)
    requires p.Valid() && Final(p, w, limit, r, ending)
    ensures var i := |r.phases|;
      r.comparisonCalls == (if w.seed.Completed? || w.seed.charged then p.cases else 0) + Cost(p.cases, i)
        + if ending.Cut? && w.evaluation(i).Interrupted? && w.evaluation(i).charged then p.cases else 0
  {
    assert EndsWith(p, w, limit, r.phases, Left(p.max, r.phases), ending);
  }

  /** Every adaptive run ends within the threshold of the best selectable score seen, within its
      slices and switches, and with its comparisons paid for. */
  lemma AdaptiveEnds(p: Plan, w: World, limit: nat, r: Run, ending: Ending)
    requires p.Valid() && Final(p, w, limit, r, ending)
    ensures |r.phases| == |r.seen| <= |r.handed| <= limit && (p.maxSwitches.Some? ==> r.turn <= p.maxSwitches.value)
    ensures r.comparisonCalls <= p.cases * (limit + 1)
    ensures r.held.e.selectable <==>
            (w.seed.Completed? && w.seed.e.selectable) || exists i :: 0 <= i < |r.seen| && r.seen[i].selectable
    ensures forall i :: 0 <= i < |r.seen| && r.seen[i].selectable ==> r.seen[i].score <= r.held.e.score + p.margin
    ensures w.seed.Completed? && w.seed.e.selectable ==> w.seed.e.score <= r.held.e.score
    ensures if r.held.index == -1 then w.seed.Completed? ==> r.held.e == w.seed.e
            else 0 <= r.held.index < |r.seen| && r.held.e == r.seen[r.held.index]
  {
    CostIsProduct(p.cases, limit + 1);
    ComparisonsPaid(p, w, limit, r, ending);
    NearBest(SeedHeld(w.seed), r.seen, p.margin);
    HeldIsReal(SeedHeld(w.seed), r.seen, MoreThan(p.margin));
  }

  // ----- every slice and every ending, in sums over the slices before -----

  function UsedIn(phases: seq<Phase>): nat {
    if phases == [] then 0 else phases[0].used + UsedIn(phases[1..])
  }

  function PlateausIn(phases: seq<Phase>): nat {
    if phases == [] then 0 else (if phases[0].plateau then 1 else 0) + PlateausIn(phases[1..])
  }

  lemma {:induction false} SumsOneMore(phases: seq<Phase>, phase: Phase)
    ensures UsedIn(phases + [phase]) == UsedIn(phases) + phase.used
    ensures PlateausIn(phases + [phase]) == PlateausIn(phases) + if phase.plateau then 1 else 0
  {
    if phases == [] {
      assert [] + [phase] == [phase] && [phase][1..] == [];
    } else {
      assert (phases + [phase])[1..] == phases[1..] + [phase];
      SumsOneMore(phases[1..], phase);
    }
  }

  lemma {:induction false} LeftIsRest(max: nat, phases: seq<Phase>)
    ensures Left(max, phases) == max - UsedIn(phases) && Turn(phases) == PlateausIn(phases)
  {
    if phases != [] {
      var earlier, last := phases[..|phases| - 1], phases[|phases| - 1];
      LeftIsRest(max, earlier);
      SumsOneMore(earlier, last);
      assert phases == earlier + [last];
    }
  }

  /** The current turn began with slice `k`. */
  ghost predicate TurnFrom(phases: seq<Phase>, k: nat) {
    k <= |phases| && (k == 0 || phases[k - 1].plateau) && forall i :: k <= i < |phases| ==> !phases[i].plateau
  }

  lemma {:induction false} TurnSums(phases: seq<Phase>, k: nat, n: nat)
    requires TurnFrom(phases, k)
    ensures Calls(phases) == UsedIn(phases[k..])
    ensures Stalled(phases) >= n <==> n <= |phases| - k && forall i :: |phases| - n <= i < |phases| ==> !phases[i].improved
    decreases |phases|
  {
    if k == |phases| {
      assert phases[k..] == [];
    } else {
      var earlier, last := phases[..|phases| - 1], phases[|phases| - 1];
      TurnSums(earlier, k, if n == 0 then 0 else n - 1);
      SumsOneMore(earlier[k..], last);
      assert phases[k..] == earlier[k..] + [last];
      assert forall i :: 0 <= i < |earlier| ==> earlier[i] == phases[i];
    }
  }

  /** A slice runs on the engine whose turn it is, with the smaller of its size and the calls
      left, and improves exactly on a score clearly above the incumbent's. */
  lemma PhaseExactly(p: Plan, w: World, phases: seq<Phase>, left: nat, held: Held, e: Evaluation)
    requires p.Valid()
    ensures var phase, turn := NextPhase(p, w, phases, left, held, e), PlateausIn(phases);
      && phase.engine == turn % |p.sizes|
      && phase.granted == (if p.sizes[phase.engine] <= left then p.sizes[phase.engine] else left)
      && phase.used == (if w.used(|phases|, phase.granted) <= phase.granted then w.used(|phases|, phase.granted)
                        else phase.granted)
      && (phase.improved <==> e.selectable && (!held.e.selectable || e.score > held.e.score + p.margin))
  {
    LeftIsRest(p.max, phases);
  }

  /** It ends its turn exactly when it spends nothing, or when the last `patience` slices of the
      turn did not improve and the turn spent its minimum. */
  lemma PlateauExactly(p: Plan, w: World, phases: seq<Phase>, left: nat, held: Held, e: Evaluation, k: nat)
    requires p.Valid() && TurnFrom(phases, k)
    ensures var phase := NextPhase(p, w, phases, left, held, e);
      phase.plateau <==>
        || phase.used == 0
        || (!phase.improved && k + p.patience <= |phases| + 1
            && (forall j :: |phases| + 1 - p.patience <= j < |phases| ==> !phases[j].improved)
            && UsedIn(phases[k..]) + phase.used >= p.minPerEngine)
  {
    TurnSums(phases, k, p.patience - 1);
  }

  lemma RanExactly(p: Plan, w: World, limit: int, phases: seq<Phase>, i: nat)
    requires p.Valid() && i < |phases| && Ran(p, w, limit, phases, i)
    ensures var left, turn := p.max - UsedIn(phases[..i]), PlateausIn(phases[..i]);
      && left == Left(p.max, phases[..i]) && turn == Turn(phases[..i])
      && i < limit && !w.stopped(i) && w.fitsBefore(i) && w.fitsAfter(i) && w.evaluation(i).Completed?
      && left > 0 && (p.cycle || turn < |p.sizes|) && NextGrant(p, left, turn) >= p.minPerEngine
  {
    LeftIsRest(p.max, phases[..i]);
  }

  lemma FollowsExactly(p: Plan, w: World, phases: seq<Phase>, seen: seq<Evaluation>, i: nat, left: nat)
    requires p.Valid() && i < |phases| && i < |seen| && Follows(p, w, phases, seen, i) && left == Left(p.max, phases[..i])
    ensures phases[i] == NextPhase(p, w, phases[..i], left, After(SeedHeld(w.seed), seen[..i], MoreThan(p.margin)), seen[i])
    ensures phases[i].granted == NextGrant(p, left, Turn(phases[..i])) && w.evaluation(i) == Completed(seen[i])
  {
  }

  /** What every slice of a run was: it was allowed and funded, and follows from the slices
      before it as the two lemmas above say. */
  lemma SliceExactly(p: Plan, w: World, limit: nat, r: Run, ending: Ending, i: nat)
    requires p.Valid() && Final(p, w, limit, r, ending) && i < |r.phases|
    ensures var left, turn := p.max - UsedIn(r.phases[..i]), PlateausIn(r.phases[..i]);
      && i < limit && !w.stopped(i) && w.fitsBefore(i) && w.fitsAfter(i)
      && left > 0 && (p.cycle || turn < |p.sizes|)
      && |r.seen| == |r.phases| && w.evaluation(i) == Completed(r.seen[i])
      && r.phases[i].granted >= p.minPerEngine
      && r.phases[i] == NextPhase(p, w, r.phases[..i], left, After(SeedHeld(w.seed), r.seen[..i], MoreThan(p.margin)), r.seen[i])
  {
    SliceRan(p, w, limit, r, ending, i);
    RanExactly(p, w, limit, r.phases, i);
    FollowsExactly(p, w, r.phases, r.seen, i, p.max - UsedIn(r.phases[..i]));
  }

  lemma SliceRan(p: Plan, w: World, limit: nat, r: Run, ending: Ending, i: nat)
    requires p.Valid() && Final(p, w, limit, r, ending) && i < |r.phases|
    ensures |r.seen| == |r.phases| && Follows(p, w, r.phases, r.seen, i) && Ran(p, w, limit, r.phases, i)
  {
    assert Faithful(p, w, r.phases, r.seen);
    var phase := r.phases[i];
  }

  /** Why a run ended, whichever way it did. */
  lemma EndingExactly(p: Plan, w: World, limit: nat, r: Run, ending: Ending)
    requires p.Valid() && Final(p, w, limit, r, ending)
    ensures var i, left, turn := |r.phases|, p.max - UsedIn(r.phases), PlateausIn(r.phases);
      var size := p.sizes[turn % |p.sizes|];
      var granted := if size <= left then size else left;
      var may := !w.stopped(i) && left > 0 && i < limit && (p.cycle || turn < |p.sizes|);
      match ending
      case Halted => !may
      case SwitchesSpent =>
        i > 0 && r.phases[i - 1].plateau && p.maxSwitches.Some? && turn == p.maxSwitches.value + 1
      case Unfunded => may && !w.fitsBefore(i)
      case TooSmall => may && w.fitsBefore(i) && granted < p.minPerEngine
      case Unaffordable => may && w.fitsBefore(i) && granted >= p.minPerEngine && !w.fitsAfter(i)
      case Cut => may && w.fitsBefore(i) && granted >= p.minPerEngine && w.fitsAfter(i) && w.evaluation(i).Interrupted?
    ensures r.turn == PlateausIn(r.phases) - if ending.SwitchesSpent? then 1 else 0
    ensures |r.handed| == |r.phases| + if ending.Unaffordable? || ending.Cut? then 1 else 0
  {
    LeftIsRest(p.max, r.phases);
  }

  /** As many slices of size `least` as `max` calls pay for, at least one. */
  predicate PaidSlices(limit: int, least: nat, max: int) {
    limit >= 1 && (limit > 1 ==> limit * least <= max) && max < (limit + 1) * least
  }

  /** The default number of slices: as many of the smallest as the calls pay for, at least one. */
  lemma SliceLimitExactly(p: Plan) returns (i: nat)
    requires p.sizes != [] && (forall i :: 0 <= i < |p.sizes| ==> p.sizes[i] > 0) && p.max >= 0
    ensures p.maxSlices.Some? && p.maxSlices.value > 0 ==> SliceLimit(p) == p.maxSlices.value
    ensures i < |p.sizes| && forall j :: 0 <= j < |p.sizes| ==> p.sizes[i] <= p.sizes[j]
    ensures p.maxSlices.None? ==> PaidSlices(SliceLimit(p), p.sizes[i], p.max)
  {
    var least := Smallest(p.sizes);
    i :| 0 <= i < |p.sizes| && p.sizes[i] == least;
    PaidByDivision(p.max, least);
  }

  lemma PaidByDivision(max: nat, least: nat)
    requires least > 0
    ensures PaidSlices(if max / least < 1 then 1 else max / least, least, max)
  {
    DividedDown(max, least);
  }

  lemma DividedDown(n: nat, d: nat)
    requires d > 0
    ensures n / d * d <= n < (n / d + 1) * d
  {
  }

  /** Which arguments are refused, and with which error; comparisons are funded for every slice
      and the seed. */
  lemma RefusedExactly(p: Plan)
    requires forall i :: 0 <= i < |p.sizes| ==> p.sizes[i] > 0
    ensures p.sizes == [] <==> ArgumentError(p) == Some(NoConfigs)
    ensures p.sizes != [] ==>
      && (ArgumentError(p) == Some(BadPatience) <==> p.patience < 1 || p.minPerEngine < 1)
      && (p.patience >= 1 && p.minPerEngine >= 1 ==>
            && (ArgumentError(p) == Some(BadPlateau) <==> p.margin < 0.0)
            && (p.margin >= 0.0 ==>
                  && (ArgumentError(p) == Some(BadSwitches) <==> p.maxSwitches.Some? && p.maxSwitches.value < 0)
                  && ((p.maxSwitches.Some? ==> p.maxSwitches.value >= 0) ==>
                        (ArgumentError(p) == Some(BadSlices) <==> p.maxSlices.Some? && p.maxSlices.value < 1))))
    ensures ArgumentError(p).None? ==>
              && p.max > 0 && ComparisonLimit(p) > 0
              && (p.requested.Some? ==> p.requested.value >= p.cases * (SliceLimit(p) + 1))
              && ComparisonLimit(p) == if p.requested.Some? && p.requested.value > 0 then p.requested.value
                                       else p.cases * (SliceLimit(p) + 1)
    ensures ArgumentError(p) == Some(BadBudget) ==> p.max <= 0 || ComparisonLimit(p) <= 0
    ensures ArgumentError(p) == Some(ComparisonTooSmall) ==>
              p.max > 0 && p.requested.Some? && p.requested.value < p.cases * (SliceLimit(p) + 1)
  {
  }
}
