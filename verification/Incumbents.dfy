/** The incumbent-keeping loops: sequential stages and adaptive slices.

    Engines, evaluations and cost probes are answers of a `World`; candidates are named by the
    stage that produced them, the seed by -1. */
module Incumbents {
  import opened Multiples
  import opened Options

  datatype Evaluation = Evaluation(score: real, selectable: bool)

  /** An interrupted evaluation may have been charged to the comparison budget. */
  datatype Observation = Interrupted(charged: bool) | Completed(e: Evaluation)

  /** Per stage: whether the cost cap has stopped the run, whether the comparison fits before and
      after the engine, how many calls the engine uses of what it is granted, and the evaluation. */
  datatype World = World(seedFits: bool, seed: Observation, stopped: nat -> bool, fitsBefore: nat -> bool,
                         fitsAfter: nat -> bool, used: (nat, nat) -> nat, evaluation: nat -> Observation)

  /** The incumbent: its stage and its evaluation. */
  datatype Held = Held(index: int, e: Evaluation)

  /** Adopt a score at least as high, or one higher by more than `margin`. */
  datatype Rule = AtLeast | MoreThan(margin: real)

  predicate Adopts(held: Evaluation, e: Evaluation, rule: Rule) {
    e.selectable &&
    (!held.selectable || match rule case AtLeast => e.score >= held.score case MoreThan(margin) => e.score > held.score + margin)
  }

  /** The incumbent after the evaluations `seen`. */
  function After(seed: Held, seen: seq<Evaluation>, rule: Rule): Held {
    if seen == [] then seed
    else
      var held := After(seed, seen[..|seen| - 1], rule);
      var e := seen[|seen| - 1];
      if Adopts(held.e, e, rule) then Held(|seen| - 1, e) else held
  }

  lemma AfterOneMore(seed: Held, seen: seq<Evaluation>, e: Evaluation, rule: Rule)
    ensures var held := After(seed, seen, rule);
      After(seed, seen + [e], rule) == if Adopts(held.e, e, rule) then Held(|seen|, e) else held
  {
    assert (seen + [e])[..|seen|] == seen;
  }

  function SeedHeld(seed: Observation): Held {
    Held(-1, if seed.Completed? then seed.e else Evaluation(0.0, false))
  }

  // ----- what the rules keep -----

  /** The incumbent is the seed or one of the evaluated candidates, with its own evaluation. */
  lemma {:induction false} HeldIsReal(seed: Held, seen: seq<Evaluation>, rule: Rule)
    requires seed.index == -1
    ensures var h := After(seed, seen, rule);
      h == seed || (0 <= h.index < |seen| && h.e == seen[h.index] && h.e.selectable)
  {
    if seen != [] {
      HeldIsReal(seed, seen[..|seen| - 1], rule);
    }
  }

  /** Once the incumbent is selectable it stays so and its score never falls. */
  lemma {:induction false} NeverFalls(seed: Held, seen: seq<Evaluation>, rule: Rule, n: nat)
    requires n <= |seen| && (rule.MoreThan? ==> rule.margin >= 0.0)
    ensures var early, late := After(seed, seen[..n], rule), After(seed, seen, rule);
      early.e.selectable ==> late.e.selectable && late.e.score >= early.e.score
  {
    if n == |seen| {
      assert seen[..n] == seen;
    } else {
      var most := seen[..|seen| - 1];
      NeverFalls(seed, most, rule, n);
      assert most[..n] == seen[..n];
    }
  }

  ghost predicate SomeSelectable(seed: Held, seen: seq<Evaluation>) {
    seed.e.selectable || exists i :: 0 <= i < |seen| && seen[i].selectable
  }

  lemma {:induction false} SelectableIffAny(seed: Held, seen: seq<Evaluation>, rule: Rule)
    ensures After(seed, seen, rule).e.selectable <==> SomeSelectable(seed, seen)
  {
    if seen != [] {
      var most := seen[..|seen| - 1];
      SelectableIffAny(seed, most, rule);
      if SomeSelectable(seed, most) && !seed.e.selectable {
        var i :| 0 <= i < |most| && most[i].selectable;
        assert seen[i].selectable;
      }
      if SomeSelectable(seed, seen) && !seed.e.selectable {
        var i :| 0 <= i < |seen| && seen[i].selectable;
        assert i < |most| ==> most[i].selectable;
      }
    }
  }

  /** With ties adopted, the incumbent is the latest maximum of all selectable evaluations. */
  lemma {:induction false} LatestMaximum(seed: Held, seen: seq<Evaluation>)
    requires seed.index == -1
    ensures var h := After(seed, seen, AtLeast);
      && (h.e.selectable <==> SomeSelectable(seed, seen))
      && (seed.e.selectable ==> seed.e.score <= h.e.score)
      && forall i :: 0 <= i < |seen| && seen[i].selectable ==>
           seen[i].score <= h.e.score && (i > h.index ==> seen[i].score < h.e.score)
  {
    SelectableIffAny(seed, seen, AtLeast);
    if seen != [] {
      var most := seen[..|seen| - 1];
      LatestMaximum(seed, most);
      assert forall i :: 0 <= i < |most| ==> seen[i] == most[i];
      HeldIsReal(seed, most, AtLeast);
    }
  }

  /** With a plateau threshold, the incumbent is within it of every selectable evaluation. */
  lemma {:induction false} NearBest(seed: Held, seen: seq<Evaluation>, margin: real)
    requires margin >= 0.0
    ensures var h := After(seed, seen, MoreThan(margin));
      && (h.e.selectable <==> SomeSelectable(seed, seen))
      && (seed.e.selectable ==> seed.e.score <= h.e.score)
      && forall i :: 0 <= i < |seen| && seen[i].selectable ==> seen[i].score <= h.e.score + margin
  {
    SelectableIffAny(seed, seen, MoreThan(margin));
    if seen != [] {
      var most := seen[..|seen| - 1];
      NearBest(seed, most, margin);
      assert forall i :: 0 <= i < |most| ==> seen[i] == most[i];
    }
  }

  // ----- budgets -----

  function Min(a: int, b: int): int {
    if a <= b then a else b
  }

  /** An engine cannot use more than it is granted. */
  function Consumed(w: World, stage: nat, granted: nat): (r: nat)
    ensures r <= granted
  {
    Min(w.used(stage, granted), granted)
  }

  function Charge(o: Observation, cases: nat): nat {
    if o.Completed? || o.charged then cases else 0
  }

  function Limit(requested: Option<int>, required: int): int {
    if requested.Some? then requested.value else required
  }

  /** What an engine starts from: the incumbent, and its evaluation unless the seed's was interrupted. */
  datatype Handed = Handed(seed: int, known: Option<Evaluation>)

  function HandedOf(held: Held, seed: Observation): Handed {
    Handed(held.index, if held.index == -1 && seed.Interrupted? then None else Some(held.e))
  }

  // ----- sequential stages -----

  datatype Error = NoConfigs | BadBudget | ComparisonTooSmall | BadPatience | BadPlateau | BadSwitches | BadSlices

  datatype Sequential =
    | Fault(error: Error)
    | Refused
    | Ended(best: Held, seen: seq<Evaluation>, results: nat, refused: bool, handed: seq<Handed>, calls: nat,
            comparisonLimit: int, comparisonCalls: nat)

  /** Metric calls left before stage `i`, when all earlier stages ran. */
  function Remaining(w: World, sizes: seq<nat>, max: nat, i: nat): (r: nat)
    requires i <= |sizes|
    ensures r <= max
  {
    if i == 0 then max
    else
      var left := Remaining(w, sizes, max, i - 1);
      left - Consumed(w, i - 1, Min(sizes[i - 1], left))
  }

  predicate Starts(w: World, sizes: seq<nat>, max: nat, i: nat)
    requires i <= |sizes|
  {
    !w.stopped(i) && Remaining(w, sizes, max, i) > 0 && w.fitsBefore(i)
  }

  predicate Completes(w: World, sizes: seq<nat>, max: nat, i: nat)
    requires i <= |sizes|
  {
    Starts(w, sizes, max, i) && w.fitsAfter(i) && w.evaluation(i).Completed?
  }

  ghost predicate SequentialEnd(w: World, sizes: seq<nat>, max: nat, r: Sequential)
    requires r.Ended?
  {
    var k := |r.seen|;
    && k <= |sizes|
    && AllComplete(w, sizes, max, r.seen)
    && (k < |sizes| ==> !Completes(w, sizes, max, k))
    && r.best == After(SeedHeld(w.seed), r.seen, AtLeast)
    && r.results == (if k < |sizes| && Starts(w, sizes, max, k) then k + 1 else k)
    && r.calls == max - Remaining(w, sizes, max, r.results)
    && r.refused == (k < |sizes| && !w.stopped(k) && Remaining(w, sizes, max, k) > 0 && !(w.fitsBefore(k) && w.fitsAfter(k)))
    && |r.handed| == r.results
    && HandedInOrder(w, r.seen, AtLeast, r.handed)
  }

  ghost predicate HandedInOrder(w: World, seen: seq<Evaluation>, rule: Rule, handed: seq<Handed>) {
    |handed| <= |seen| + 1 &&
    forall i {:trigger handed[i]} :: 0 <= i < |handed| ==> handed[i] == HandedOf(After(SeedHeld(w.seed), seen[..i], rule), w.seed)
  }

  lemma HandOver(w: World, seen: seq<Evaluation>, rule: Rule, handed: seq<Handed>)
    requires HandedInOrder(w, seen, rule, handed) && |handed| == |seen|
    ensures HandedInOrder(w, seen, rule, handed + [HandedOf(After(SeedHeld(w.seed), seen, rule), w.seed)])
  {
    assert seen[..|seen|] == seen;
  }

  lemma SeeOneMore(w: World, seen: seq<Evaluation>, rule: Rule, handed: seq<Handed>, e: Evaluation)
    requires HandedInOrder(w, seen, rule, handed)
    ensures HandedInOrder(w, seen + [e], rule, handed)
    ensures (seen + [e])[..|seen|] == seen
  {
    assert (seen + [e])[..|seen|] == seen;
    forall i | 0 <= i < |handed|
      ensures handed[i] == HandedOf(After(SeedHeld(w.seed), (seen + [e])[..i], rule), w.seed)
    {
      assert (seen + [e])[..i] == seen[..i];
    }
  }

  ghost predicate AllComplete(w: World, sizes: seq<nat>, max: nat, seen: seq<Evaluation>) {
    |seen| <= |sizes| &&
    forall i {:trigger seen[i]} :: 0 <= i < |seen| ==>
      Completes(w, sizes, max, i) && seen[i] == w.evaluation(i).e
  }

  lemma CompleteOneMore(w: World, sizes: seq<nat>, max: nat, seen: seq<Evaluation>)
    requires AllComplete(w, sizes, max, seen) && |seen| < |sizes| && Completes(w, sizes, max, |seen|)
    ensures AllComplete(w, sizes, max, seen + [w.evaluation(|seen|).e])
  {
    var longer := seen + [w.evaluation(|seen|).e];
    forall i | 0 <= i < |longer| ensures Completes(w, sizes, max, i) && longer[i] == w.evaluation(i).e {
      assert i < |seen| ==> longer[i] == seen[i];
    }
  }

  datatype Ending = Exhausted | Halted | Unfunded | Unaffordable | Cut

  /** Why stage `i` did not complete. */
  function EndingAt(w: World, left: nat, i: nat): Ending
    requires w.stopped(i) || left == 0 || !w.fitsBefore(i) || !w.fitsAfter(i) || w.evaluation(i).Interrupted?
  {
    if w.stopped(i) || left == 0 then Halted
    else if !w.fitsBefore(i) then Unfunded
    else if !w.fitsAfter(i) then Unaffordable
    else Cut
  }

  lemma StageCompleted(w: World, sizes: seq<nat>, max: nat, seen: seq<Evaluation>, handed: seq<Handed>)
    requires AllComplete(w, sizes, max, seen) && |seen| < |sizes| && Completes(w, sizes, max, |seen|)
    requires HandedInOrder(w, seen, AtLeast, handed)
    ensures var e := w.evaluation(|seen|).e;
      var held := After(SeedHeld(w.seed), seen, AtLeast);
      && AllComplete(w, sizes, max, seen + [e]) && HandedInOrder(w, seen + [e], AtLeast, handed)
      && After(SeedHeld(w.seed), seen + [e], AtLeast) == if Adopts(held.e, e, AtLeast) then Held(|seen|, e) else held
  {
    var e := w.evaluation(|seen|).e;
    SeeOneMore(w, seen, AtLeast, handed, e);
    AfterOneMore(SeedHeld(w.seed), seen, e, AtLeast);
    CompleteOneMore(w, sizes, max, seen);
  }

  /** Evaluates what a stage's engine returned; an ending other than `Exhausted` stops the run. */
  method CompareStage(w: World, index: nat, cases: nat, callsBefore: nat, limit: int) returns (ending: Ending, calls: nat)
    requires callsBefore + cases <= limit
    ensures calls == callsBefore + if ending.Unaffordable? then 0 else Charge(w.evaluation(index), cases)
    ensures ending == if !w.fitsAfter(index) then Unaffordable
                      else if w.evaluation(index).Interrupted? then Cut else Exhausted
  {
    if !w.fitsAfter(index) {
      return Unaffordable, callsBefore;
    }
    var observed := w.evaluation(index);
    assert callsBefore + Charge(observed, cases) <= limit;  // the comparison budget is never exhausted
    calls := callsBefore + Charge(observed, cases);
    ending := if observed.Interrupted? then Cut else Exhausted;
  }

  /** The seed's comparison, those of `k` stages and one more cost no more than one of each stage
      and the seed. */
  lemma OneMoreFunded(cases: nat, seed: nat, k: nat, stages: nat)
    requires seed <= cases && k < stages
    ensures seed + Cost(cases, k) + cases <= Cost(cases, stages + 1)
  {
    assert Cost(cases, k + 2) == cases + Cost(cases, k + 1);
    CostGrows(cases, k + 2, stages + 1);
  }

  lemma AllFunded(cases: nat, seed: nat, k: nat, cut: nat, stages: nat)
    requires seed <= cases && cut <= cases && k <= stages && (k == stages ==> cut == 0)
    ensures seed + Cost(cases, k) + cut <= Cost(cases, stages + 1)
  {
    if k < stages {
      OneMoreFunded(cases, seed, k, stages);
    }
  }

  /** The loop's variables after the stages `seen`. */
  ghost predicate StagesSoFar(w: World, sizes: seq<nat>, max: nat, cases: nat, held: Held, seen: seq<Evaluation>,
                              handed: seq<Handed>, left: nat, calls: nat) {
    && AllComplete(w, sizes, max, seen) && held == After(SeedHeld(w.seed), seen, AtLeast)
    && HandedInOrder(w, seen, AtLeast, handed) && |handed| == |seen|
    && left == Remaining(w, sizes, max, |seen|)
    && calls == Charge(w.seed, cases) + Cost(cases, |seen|)
  }

  /** The stages that completed, what was handed out, the calls left and charged, and why the
      loop ended. */
  ghost predicate StagesEnd(w: World, sizes: seq<nat>, max: nat, cases: nat, held: Held, seen: seq<Evaluation>,
                            handed: seq<Handed>, left: nat, ending: Ending, calls: nat) {
    && AllComplete(w, sizes, max, seen) && held == After(SeedHeld(w.seed), seen, AtLeast)
    && (ending.Exhausted? <==> |seen| == |sizes|)
    && (|seen| < |sizes| ==> !Completes(w, sizes, max, |seen|) &&
                             ending == EndingAt(w, Remaining(w, sizes, max, |seen|), |seen|))
    && HandedInOrder(w, seen, AtLeast, handed)
    && |handed| == (if ending.Unaffordable? || ending.Cut? then |seen| + 1 else |seen|) <= |sizes|
    && left == Remaining(w, sizes, max, |handed|)
    && calls == Charge(w.seed, cases) + Cost(cases, |seen|) + if ending.Cut? then Charge(w.evaluation(|seen|), cases) else 0
  }

  lemma NotStarted(w: World, sizes: seq<nat>, max: nat, cases: nat, held: Held, seen: seq<Evaluation>,
                   handed: seq<Handed>, left: nat, calls: nat)
    requires StagesSoFar(w, sizes, max, cases, held, seen, handed, left, calls) && |seen| < |sizes|
    requires w.stopped(|seen|) || left == 0 || !w.fitsBefore(|seen|)
    ensures StagesEnd(w, sizes, max, cases, held, seen, handed, left, EndingAt(w, left, |seen|), calls)
  {
  }

  lemma NotEvaluated(w: World, sizes: seq<nat>, max: nat, cases: nat, held: Held, seen: seq<Evaluation>,
                     handed: seq<Handed>, left: nat, calls: nat)
    requires StagesSoFar(w, sizes, max, cases, held, seen, handed, left, calls) && |seen| < |sizes|
    requires Starts(w, sizes, max, |seen|) && (!w.fitsAfter(|seen|) || w.evaluation(|seen|).Interrupted?)
    ensures var more := handed + [HandedOf(held, w.seed)];
      var ending := EndingAt(w, left, |seen|);
      var charged := if ending.Cut? then Charge(w.evaluation(|seen|), cases) else 0;
      StagesEnd(w, sizes, max, cases, held, seen, more, Remaining(w, sizes, max, |seen| + 1), ending, calls + charged)
  {
    HandOver(w, seen, AtLeast, handed);
  }

  lemma StageAdds(w: World, sizes: seq<nat>, max: nat, cases: nat, held: Held, seen: seq<Evaluation>,
                  handed: seq<Handed>, left: nat, calls: nat)
    requires StagesSoFar(w, sizes, max, cases, held, seen, handed, left, calls) && |seen| < |sizes|
    requires Completes(w, sizes, max, |seen|)
    ensures var e := w.evaluation(|seen|).e;
      var next := if Adopts(held.e, e, AtLeast) then Held(|seen|, e) else held;
      StagesSoFar(w, sizes, max, cases, next, seen + [e], handed + [HandedOf(held, w.seed)],
                  Remaining(w, sizes, max, |seen| + 1), calls + cases)
  {
    HandOver(w, seen, AtLeast, handed);
    StageCompleted(w, sizes, max, seen, handed + [HandedOf(held, w.seed)]);
  }

  lemma AllStages(w: World, sizes: seq<nat>, max: nat, cases: nat, held: Held, seen: seq<Evaluation>,
                  handed: seq<Handed>, left: nat, calls: nat)
    requires StagesSoFar(w, sizes, max, cases, held, seen, handed, left, calls) && |seen| == |sizes|
    ensures StagesEnd(w, sizes, max, cases, held, seen, handed, left, Exhausted, calls)
  {
  }

  /** The stages of `optimize_sequential`, after the seed's evaluation. */
  method Stages(w: World, sizes: seq<nat>, max: nat, cases: nat, limit: int)
    returns (held: Held, seen: seq<Evaluation>, handed: seq<Handed>, left: nat, ending: Ending, comparisonCalls: nat)
    requires forall i :: 0 <= i < |sizes| ==> sizes[i] > 0
    requires Cost(cases, |sizes| + 1) <= limit
    ensures StagesEnd(w, sizes, max, cases, held, seen, handed, left, ending, comparisonCalls)
  {
    comparisonCalls := Charge(w.seed, cases);
    held, left, seen, handed, ending := SeedHeld(w.seed), max, [], [], Exhausted;
    while |seen| < |sizes|
      invariant |seen| <= |sizes| && StagesSoFar(w, sizes, max, cases, held, seen, handed, left, comparisonCalls)
    {
      var index := |seen|;
      if w.stopped(index) || left == 0 || !w.fitsBefore(index) {
        NotStarted(w, sizes, max, cases, held, seen, handed, left, comparisonCalls);
        ending := EndingAt(w, left, index);
        return;
      }
      if Completes(w, sizes, max, index) {
        StageAdds(w, sizes, max, cases, held, seen, handed, left, comparisonCalls);
      } else {
        NotEvaluated(w, sizes, max, cases, held, seen, handed, left, comparisonCalls);
      }
      OneMoreFunded(cases, Charge(w.seed, cases), index, |sizes|);
      handed := handed + [HandedOf(held, w.seed)];
      left := left - Consumed(w, index, Min(sizes[index], left));
      ending, comparisonCalls := CompareStage(w, index, cases, comparisonCalls, limit);
      if !ending.Exhausted? {
        return;
      }
      var e := w.evaluation(index).e;
      seen := seen + [e];
      if Adopts(held.e, e, AtLeast) {
        held := Held(index, e);
      }
    }
    AllStages(w, sizes, max, cases, held, seen, handed, left, comparisonCalls);
    ending := Exhausted;
  }

  method OptimizeSequential(w: World, sizes: seq<nat>, max: int, cases: nat, requested: Option<int>)
    returns (r: Sequential)
    requires forall i :: 0 <= i < |sizes| ==> sizes[i] > 0
    ensures var required := cases * (|sizes| + 1);
      var limit := if requested.Some? then requested.value else required;
      && (r == Fault(NoConfigs) <==> sizes == [])
      && (r == Fault(ComparisonTooSmall) <==> sizes != [] && max > 0 && limit < required)
      && (r == Fault(BadBudget) <==> sizes != [] && (max <= 0 || (limit <= 0 && limit >= required)))
      && (r.Fault? ==> r == Fault(NoConfigs) || r == Fault(ComparisonTooSmall) || r == Fault(BadBudget))
      && (r.Refused? <==> !r.Fault? && !w.seedFits)
      && (r.Ended? ==> r.comparisonLimit == limit)
    ensures r.Ended? ==>
              var k := |r.seen|;
              r.comparisonCalls == (if w.seed.Completed? || w.seed.charged then cases else 0) + Cost(cases, k)
                + if k < |sizes| && Starts(w, sizes, max, k) && w.fitsAfter(k)
                     && (w.evaluation(k).Completed? || w.evaluation(k).charged) then cases else 0
    ensures r.Ended? ==> w.seedFits && max > 0 && SequentialEnd(w, sizes, max, r)
    ensures r.Ended? ==> r.calls <= max && r.comparisonCalls <= cases * (|sizes| + 1) <= r.comparisonLimit
  {
    if sizes == [] {
      return Fault(NoConfigs);
    }
    if max <= 0 {
      return Fault(BadBudget);
    }
    var required := cases * (|sizes| + 1);
    CostIsProduct(cases, |sizes| + 1);
    if requested.Some? && requested.value < required {
      return Fault(ComparisonTooSmall);
    }
    var limit := Limit(requested, required);
    if limit <= 0 {
      return Fault(BadBudget);
    }
    if !w.seedFits {
      return Refused;
    }
    var held, seen, handed, left, ending, comparisonCalls := Stages(w, sizes, max, cases, limit);
    AllFunded(cases, Charge(w.seed, cases), |seen|, if ending.Cut? then Charge(w.evaluation(|seen|), cases) else 0, |sizes|);
    r := Ended(held, seen, |handed|, ending.Unfunded? || ending.Unaffordable?, handed, max - left, limit, comparisonCalls);
  }

  /** Every sequential run ends on the latest maximum of the completed selectable evaluations. */
  lemma SequentialEnds(w: World, sizes: seq<nat>, max: nat, r: Sequential)
    requires r.Ended? && SequentialEnd(w, sizes, max, r)
    ensures r.best.e.selectable <==>
            (w.seed.Completed? && w.seed.e.selectable) || exists i :: 0 <= i < |r.seen| && r.seen[i].selectable
    ensures w.seed.Completed? && w.seed.e.selectable ==> w.seed.e.score <= r.best.e.score
    ensures forall i :: 0 <= i < |r.seen| && r.seen[i].selectable ==>
              r.seen[i].score <= r.best.e.score && (i > r.best.index ==> r.seen[i].score < r.best.e.score)
    ensures if r.best.index == -1 then w.seed.Completed? ==> r.best.e == w.seed.e
            else 0 <= r.best.index < |r.seen| && r.best.e == r.seen[r.best.index]
  {
    LatestMaximum(SeedHeld(w.seed), r.seen);
    HeldIsReal(SeedHeld(w.seed), r.seen, AtLeast);
  }

  /** What an engine is handed is the evaluation of exactly the candidate it starts from, or
      nothing when the seed's evaluation was interrupted. */
  lemma HandedIsItsOwn(w: World, seen: seq<Evaluation>, rule: Rule, handed: seq<Handed>, i: nat)
    requires HandedInOrder(w, seen, rule, handed) && i < |handed|
    ensures handed[i].known.None? ==> handed[i].seed == -1 && w.seed.Interrupted?
    ensures handed[i].known.Some? && handed[i].seed == -1 ==> w.seed.Completed? && handed[i].known.value == w.seed.e
    ensures handed[i].seed != -1 ==>
              0 <= handed[i].seed < i && handed[i].known == Some(seen[handed[i].seed]) && seen[handed[i].seed].selectable
  {
    HeldIsReal(SeedHeld(w.seed), seen[..i], rule);
  }

  /** The calls left before a stage: all at first, and then less what each stage used of the
      smaller of its size and what was left. */
  lemma RemainingExactly(w: World, sizes: seq<nat>, max: nat, i: nat)
    requires i < |sizes|
    ensures Remaining(w, sizes, max, 0) == max
    ensures var left := Remaining(w, sizes, max, i);
      var granted := if sizes[i] <= left then sizes[i] else left;
      left - Remaining(w, sizes, max, i + 1) == if w.used(i, granted) <= granted then w.used(i, granted) else granted
  {
  }

  lemma StageAt(w: World, sizes: seq<nat>, max: nat, seen: seq<Evaluation>, i: nat)
    requires AllComplete(w, sizes, max, seen) && i < |seen|
    ensures i < |sizes| && Completes(w, sizes, max, i) && w.evaluation(i) == Completed(seen[i])
  {
    var e := seen[i];
  }

  /** What a stage that completed was: not stopped, with calls left, and funded before and after
      its engine. */
  ghost predicate RanAt(w: World, sizes: seq<nat>, max: nat, seen: seq<Evaluation>, i: nat)
    requires i < |seen|
  {
    && i < |sizes| && !w.stopped(i) && Remaining(w, sizes, max, i) > 0 && w.fitsBefore(i) && w.fitsAfter(i)
    && w.evaluation(i) == Completed(seen[i])
  }

  lemma EachRan(w: World, sizes: seq<nat>, max: nat, seen: seq<Evaluation>)
    requires AllComplete(w, sizes, max, seen)
    ensures forall i :: 0 <= i < |seen| ==> RanAt(w, sizes, max, seen, i)
  {
    forall i | 0 <= i < |seen| ensures RanAt(w, sizes, max, seen, i) {
      StageAt(w, sizes, max, seen, i);
    }
  }

  /** What the stages of a run were and why no further one completed: each completed stage was not
      stopped, had calls left, was funded before and after its engine, and was evaluated; the next
      one failed one of these. */
  lemma StagesExactly(w: World, sizes: seq<nat>, max: nat, r: Sequential)
    requires r.Ended? && SequentialEnd(w, sizes, max, r)
    ensures |r.seen| <= |sizes|
    ensures forall i :: 0 <= i < |r.seen| ==> RanAt(w, sizes, max, r.seen, i)
    ensures var k := |r.seen|;
      k < |sizes| ==>
        var starts := !w.stopped(k) && Remaining(w, sizes, max, k) > 0 && w.fitsBefore(k);
        && (!starts || !w.fitsAfter(k) || w.evaluation(k).Interrupted?)
        && |r.handed| == r.results == (if starts then k + 1 else k)
        && (r.refused <==> !w.stopped(k) && Remaining(w, sizes, max, k) > 0 && (!w.fitsBefore(k) || !w.fitsAfter(k)))
    ensures |r.seen| == |sizes| ==> r.results == |sizes| && !r.refused
  {
    EachRan(w, sizes, max, r.seen);
  }
}
