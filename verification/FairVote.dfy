/** The matched fair vote: rounds of evaluations shared by all candidates, looks after each
    round, and acceptance against a baseline. */
module FairVotes {
  import opened Multiples
  import opened Options
  import P = Pareto
  import A = Acceptance

  type Evaluation = P.Evaluation
  type Vote = P.Vote

  /** What one evaluation gives; an interrupted one may have been charged to the budget. */
  datatype Observation = Interrupted(charged: bool) | Completed(e: Evaluation)

  /** The answers of the evaluator, by round and candidate, and of the cost probes: before the
      base rounds, and before the round with the given number of completed rounds. */
  datatype World = World(evaluate: (nat, nat) -> Observation, stopped: bool, baseFits: bool, roundFits: nat -> bool)

  datatype Rule = ByMode(mode: P.Mode) | Custom(pick: seq<Vote> -> int)

  datatype Setup = Setup(candidates: nat, cases: nat, metricCalls: Option<int>, repetitions: int,
                         maxRepetitions: int, rule: Rule, confidence: real, minDelta: real,
                         baseline: Option<int>, stat: A.Calculus)

  datatype Error =
    | NoResults | BadRepetitions | BudgetTooSmall | BadBudget | Uneven | NoChoice(why: P.Error) | BadPick
    | BadBaseline | BaselineUnselectable | BadComparison(cause: A.Error)

  datatype Acceptance = NotApplicable | Baseline | Judged(c: A.Comparison)

  /** A look at completed rounds; `more` asks for a tiebreak round. */
  datatype Look = Broken(error: Error) | Looked(votes: seq<Vote>, provisional: nat, acceptance: Acceptance, more: bool)

  datatype Report =
    | Fault(error: Error)
    | Discarded(refused: bool, winner: int, limit: int, spent: nat)
    | Decided(winner: int, votes: seq<Vote>, rounds: nat, provisional: nat, acceptance: Acceptance,
              stoppedForCost: bool, limit: int, spent: nat)

  // ----- one look -----

  function InsertByMean(v: Vote, votes: seq<Vote>): (r: seq<Vote>)
    ensures |r| == |votes| + 1
  {
    if votes == [] then [v]
    else if v.mean >= votes[0].mean then [v] + votes
    else [votes[0]] + InsertByMean(v, votes[1..])
  }

  /** Highest mean first; equal means keep their order. */
  function ByMeanDescending(votes: seq<Vote>): (r: seq<Vote>)
    ensures |r| == |votes|
  {
    if votes == [] then [] else InsertByMean(votes[0], ByMeanDescending(votes[1..]))
  }

  /** Without a baseline: the two best means are as good as equal. */
  predicate RequiresTiebreak(votes: seq<Vote>) {
    var ordered := ByMeanDescending(P.Selectable(votes));
    |ordered| >= 2 && A.Abs(ordered[0].mean - ordered[1].mean) < 0.000000000001
  }

  /** The provisional winner, if there is one. */
  function Provisional(votes: seq<Vote>, rule: Rule): (r: Look)
    requires P.Indexed(votes)
    ensures r.Looked? ==> r.votes == votes && r.provisional < |votes| && votes[r.provisional].selectable
  {
    match rule
    case Custom(pick) =>
      var w := pick(votes);
      if 0 <= w < |votes| && votes[w].selectable then Looked(votes, w, NotApplicable, false) else Broken(BadPick)
    case ByMode(mode) =>
      match P.Choose(votes, mode)
      case Chosen(w) => P.ParetoChoice(votes, mode); Looked(votes, w, NotApplicable, false)
      case Fault(error) => Broken(NoChoice(error))
  }

  function Looks(s: Setup): int {
    s.maxRepetitions - s.repetitions + 1
  }

  /** The acceptance of a provisional winner against the baseline. */
  function AgainstBaseline(s: Setup, votes: seq<Vote>, provisional: nat, b: int): (r: Look)
    requires provisional < |votes|
    ensures r.Looked? ==> r.votes == votes && r.provisional == provisional && 0 <= b < |votes| && votes[b].selectable
    ensures r.Looked? && r.acceptance.Judged? ==>
              Looks(s) >= 1 && r.acceptance.c.perLook == A.PerLook(s.confidence, Looks(s))
  {
    if !(0 <= b < |votes|) then Broken(BadBaseline)
    else if !votes[b].selectable then Broken(BaselineUnselectable)
    else if provisional == b then Looked(votes, provisional, Baseline, false)
    else
      match A.Compare(votes[b].samples, votes[provisional].samples, s.confidence, s.minDelta, Looks(s), None, None, s.stat)
      case Failed(error) => Broken(BadComparison(error))
      case Compared(c) => Looked(votes, provisional, Judged(c), c.verdict.Inconclusive?)
  }

  /** A look at completed rounds. */
  function LookAt(s: Setup, evaluations: seq<seq<Evaluation>>): (r: Look)
    ensures r.Looked? ==>
              P.Votes(evaluations) == P.Tallied(r.votes) && r.provisional < |r.votes| && r.votes[r.provisional].selectable
  {
    match P.Votes(evaluations)
    case Uneven => Broken(Uneven)
    case Tallied(votes) =>
      var look := Provisional(votes, s.rule);
      if look.Broken? then look
      else if s.baseline.None? then look.(more := RequiresTiebreak(votes))
      else AgainstBaseline(s, votes, look.provisional, s.baseline.value)
  }

  // ----- rounds -----

  /** The first `r` rounds were not interrupted. */
  ghost predicate Clean(s: Setup, w: World, r: nat) {
    forall k, i :: 0 <= k < r && 0 <= i < s.candidates ==> w.evaluate(k, i).Completed?
  }

  ghost function Column(w: World, i: nat, r: nat): (col: seq<Evaluation>)
    requires forall k :: 0 <= k < r ==> w.evaluate(k, i).Completed?
    ensures |col| == r && forall k :: 0 <= k < r ==> col[k] == w.evaluate(k, i).e
  {
    seq(r, k requires 0 <= k < r => w.evaluate(k, i).e)
  }

  ghost function Table(s: Setup, w: World, r: nat): (t: seq<seq<Evaluation>>)
    requires Clean(s, w, r)
    ensures |t| == s.candidates && forall i :: 0 <= i < |t| ==> t[i] == Column(w, i, r)
  {
    seq(s.candidates, i requires 0 <= i < s.candidates => Column(w, i, r))
  }

  type Looker = seq<seq<Evaluation>> -> Look

  /** The program's look. */
  function Standard(s: Setup): Looker {
    evaluations => LookAt(s, evaluations)
  }

  ghost function LookAfter(s: Setup, w: World, at: Looker, r: nat): Look
    requires Clean(s, w, r)
  {
    at(Table(s, w, r))
  }

  /** The look after `k` rounds asked for another round and the cap allowed it. */
  ghost predicate GoesOn(s: Setup, w: World, at: Looker, k: nat) {
    && Clean(s, w, k)
    && var look := LookAfter(s, w, at, k);
       look.Looked? && look.more && w.roundFits(k)
  }

  ghost predicate Continued(s: Setup, w: World, at: Looker, r: nat) {
    forall k: nat :: s.repetitions <= k < r ==> GoesOn(s, w, at, k)
  }

  function Winner(s: Setup, provisional: nat, acceptance: Acceptance): int {
    if s.baseline.None? || provisional == s.baseline.value || (acceptance.Judged? && acceptance.c.verdict.Accepted?) then
      provisional
    else s.baseline.value
  }

  /** `baseline_index or 0` */
  function Fallback(s: Setup): int {
    if s.baseline.None? then 0 else s.baseline.value
  }

  function Required(s: Setup): int {
    s.cases * (s.candidates * s.maxRepetitions)
  }

  function Limit(s: Setup): int {
    if s.metricCalls.Some? then s.metricCalls.value else Required(s)
  }

  /** Arguments refused before anything is evaluated. */
  function ArgumentError(s: Setup): Option<Error> {
    if s.candidates == 0 then Some(NoResults)
    else if !(1 <= s.repetitions <= s.maxRepetitions <= 5) then Some(BadRepetitions)
    else if s.metricCalls.Some? && s.metricCalls.value < Required(s) then Some(BudgetTooSmall)
    else if Limit(s) <= 0 then Some(BadBudget)
    else None
  }

  /** The decision rests on exactly `rounds` matched rounds: every earlier look asked for more
      and was allowed more, and this one did not or was not. */
  ghost predicate DecidedBy(s: Setup, w: World, at: Looker, r: Report)
    requires r.Decided?
  {
    && s.repetitions <= r.rounds <= s.maxRepetitions
    && w.baseFits && Clean(s, w, r.rounds) && Continued(s, w, at, r.rounds)
    && var look := LookAfter(s, w, at, r.rounds);
       && look.Looked?
       && r.votes == look.votes && r.provisional == look.provisional && r.acceptance == look.acceptance
       && (look.more ==> r.rounds == s.maxRepetitions || !w.roundFits(r.rounds))
       && r.stoppedForCost == (look.more && r.rounds < s.maxRepetitions)
       && r.winner == Winner(s, look.provisional, look.acceptance)
  }

  ghost predicate DiscardedBy(s: Setup, w: World, at: Looker, r: Report)
    requires r.Discarded?
  {
    && r.winner == Fallback(s)
    && (r.refused <==> !w.baseFits)
    && (r.refused ==> r.spent == 0)
    && (!r.refused ==> exists k: nat :: InterruptedAt(s, w, at, k))
  }

  ghost predicate InterruptedAt(s: Setup, w: World, at: Looker, k: nat) {
    s.repetitions <= k <= s.maxRepetitions && Continued(s, w, at, k) && !Clean(s, w, k)
  }

  ghost predicate BrokenAt(s: Setup, w: World, at: Looker, k: nat, error: Error) {
    s.repetitions <= k <= s.maxRepetitions && Continued(s, w, at, k) && Clean(s, w, k) && LookAfter(s, w, at, k) == Broken(error)
  }

  // ----- the vote -----

  /** `evaluations` holds the first `r` rounds, and the next one for the first `upto` candidates. */
  ghost predicate Holds(s: Setup, w: World, evaluations: seq<seq<Observation>>, r: nat, upto: nat) {
    && |evaluations| == s.candidates
    && (forall i :: 0 <= i < |evaluations| ==> |evaluations[i]| == if i < upto then r + 1 else r)
    && forall i, k :: 0 <= i < |evaluations| && 0 <= k < |evaluations[i]| ==> evaluations[i][k] == w.evaluate(k, i)
  }

  predicate AnyInterrupted(evaluations: seq<seq<Observation>>) {
    exists i, k :: 0 <= i < |evaluations| && 0 <= k < |evaluations[i]| && evaluations[i][k].Interrupted?
  }

  function Unwrap(samples: seq<Observation>): (r: seq<Evaluation>)
    requires forall k :: 0 <= k < |samples| ==> samples[k].Completed?
    ensures |r| == |samples| && forall k :: 0 <= k < |r| ==> r[k] == samples[k].e
  {
    seq(|samples|, k requires 0 <= k < |samples| => samples[k].e)
  }

  function Completions(evaluations: seq<seq<Observation>>): seq<seq<Evaluation>>
    requires !AnyInterrupted(evaluations)
  {
    seq(|evaluations|, i requires 0 <= i < |evaluations| => Unwrap(evaluations[i]))
  }

  lemma HoldsTable(s: Setup, w: World, evaluations: seq<seq<Observation>>, r: nat)
    requires Holds(s, w, evaluations, r, 0)
    ensures AnyInterrupted(evaluations) <==> !Clean(s, w, r)
    ensures Clean(s, w, r) ==> Completions(evaluations) == Table(s, w, r)
  {
    if AnyInterrupted(evaluations) {
      var i, k :| 0 <= i < |evaluations| && 0 <= k < |evaluations[i]| && evaluations[i][k].Interrupted?;
      assert w.evaluate(k, i).Interrupted?;
    } else {
      forall k, i | 0 <= k < r && 0 <= i < s.candidates ensures w.evaluate(k, i).Completed? {
        assert evaluations[i][k] == w.evaluate(k, i);
      }
      var c, t := Completions(evaluations), Table(s, w, r);
      forall i | 0 <= i < s.candidates ensures c[i] == t[i] {
        assert forall k :: 0 <= k < r ==> c[i][k] == evaluations[i][k].e == w.evaluate(k, i).e == t[i][k];
      }
    }
  }

  /** One round: every candidate is evaluated once, in order. */
  method EvaluateRound(s: Setup, w: World, r: nat, limit: int, before: seq<seq<Observation>>, spentBefore: nat)
    returns (evaluations: seq<seq<Observation>>, spent: nat)
    requires Holds(s, w, before, r, 0)
    requires spentBefore as int + Cost(s.cases, s.candidates) <= limit
    ensures Holds(s, w, evaluations, r + 1, 0)
    ensures spentBefore <= spent <= spentBefore + Cost(s.cases, s.candidates)
    ensures (forall i :: 0 <= i < s.candidates ==> w.evaluate(r, i).Completed?) ==>
            spent == spentBefore + Cost(s.cases, s.candidates)
  {
    evaluations, spent := before, spentBefore;
    var index := 0;
    while index < s.candidates
      invariant 0 <= index <= s.candidates
      invariant Holds(s, w, evaluations, r, index)
      invariant spentBefore <= spent <= spentBefore + Cost(s.cases, index)
      invariant (forall i :: 0 <= i < index ==> w.evaluate(r, i).Completed?) ==>
                spent == spentBefore + Cost(s.cases, index)
    {
      var sample := w.evaluate(r, index);
      if sample.Completed? || sample.charged {
        CostGrows(s.cases, index + 1, s.candidates);
        assert spent + s.cases <= limit;  // the budget is never exhausted
        spent := spent + s.cases;
      }
      evaluations := evaluations[index := evaluations[index] + [sample]];
      index := index + 1;
    }
  }

  /** What all rounds cost. */
  ghost function RoundsCost(s: Setup, rounds: nat): nat {
    Cost(Cost(s.cases, s.candidates), rounds)
  }

  lemma RequiredIsCost(s: Setup)
    requires s.maxRepetitions >= 0
    ensures Required(s) == RoundsCost(s, s.maxRepetitions)
  {
    CostIsProduct(s.cases, s.candidates);
    CostIsProduct(s.cases * s.candidates, s.maxRepetitions);
    assert s.cases * (s.candidates * s.maxRepetitions) == (s.cases * s.candidates) * s.maxRepetitions;
  }

  lemma RoundFits(s: Setup, r: nat, limit: int)
    requires r < s.maxRepetitions && Required(s) <= limit
    ensures RoundsCost(s, r) + Cost(s.cases, s.candidates) == RoundsCost(s, r + 1) <= limit
  {
    RequiredIsCost(s);
    CostGrows(Cost(s.cases, s.candidates), r + 1, s.maxRepetitions);
  }

  /** The base rounds. */
  method BaseRounds(s: Setup, w: World, limit: int)
    returns (evaluations: seq<seq<Observation>>, spent: nat, interrupted: bool)
    requires 1 <= s.repetitions <= s.maxRepetitions && Required(s) <= limit
    ensures interrupted <==> !Clean(s, w, s.repetitions)
    ensures spent <= limit
    ensures !interrupted ==> Holds(s, w, evaluations, s.repetitions, 0) && spent == RoundsCost(s, s.repetitions)
  {
    evaluations := seq(s.candidates, _ => []);
    interrupted := false;
    var rounds: nat := 0;
    spent := 0;
    while rounds < s.repetitions
      invariant 0 <= rounds <= s.repetitions
      invariant Holds(s, w, evaluations, rounds, 0) && Clean(s, w, rounds)
      invariant spent == RoundsCost(s, rounds) && spent <= limit
    {
      RoundFits(s, rounds, limit);
      evaluations, spent := EvaluateRound(s, w, rounds, limit, evaluations, spent);
      HoldsTable(s, w, evaluations, rounds + 1);
      if AnyInterrupted(evaluations) {
        NotCleanLater(s, w, rounds + 1, s.repetitions);
        interrupted := true;
        return;
      }
      rounds := rounds + 1;
    }
  }

  /** All rounds, with looks by `at`. */
  method MatchedRounds(s: Setup, w: World, at: Looker, limit: int) returns (r: Report)
    requires 1 <= s.repetitions <= s.maxRepetitions && Required(s) <= limit && w.baseFits
    ensures r.Decided? ==> DecidedBy(s, w, at, r) && r.limit == limit && r.spent == RoundsCost(s, r.rounds) <= limit
    ensures r.Discarded? ==> DiscardedBy(s, w, at, r) && r.limit == limit && r.spent <= limit
    ensures r.Fault? ==> exists k: nat :: BrokenAt(s, w, at, k, r.error)
  {
    var evaluations, spent, interrupted := BaseRounds(s, w, limit);
    if interrupted {
      assert InterruptedAt(s, w, at, s.repetitions);
      return Discarded(false, Fallback(s), limit, spent);
    }
    var rounds := s.repetitions;
    HoldsTable(s, w, evaluations, rounds);
    var look := at(Completions(evaluations));
    if look.Broken? {
      assert BrokenAt(s, w, at, rounds, look.error);
      return Fault(look.error);
    }
    var stoppedForCost := false;
    while look.more && rounds < s.maxRepetitions
      invariant s.repetitions <= rounds <= s.maxRepetitions
      invariant Holds(s, w, evaluations, rounds, 0) && Clean(s, w, rounds) && Continued(s, w, at, rounds)
      invariant spent == RoundsCost(s, rounds)
      invariant look == LookAfter(s, w, at, rounds) && look.Looked?
      invariant !stoppedForCost
      decreases s.maxRepetitions - rounds
    {
      if !w.roundFits(rounds) {
        stoppedForCost := true;
        break;
      }
      assert GoesOn(s, w, at, rounds);
      RoundFits(s, rounds, limit);
      evaluations, spent := EvaluateRound(s, w, rounds, limit, evaluations, spent);
      HoldsTable(s, w, evaluations, rounds + 1);
      if AnyInterrupted(evaluations) {
        assert InterruptedAt(s, w, at, rounds + 1);
        return Discarded(false, Fallback(s), limit, spent);
      }
      rounds := rounds + 1;
      look := at(Completions(evaluations));
      if look.Broken? {
        assert BrokenAt(s, w, at, rounds, look.error);
        return Fault(look.error);
      }
    }
    CostGrows(Cost(s.cases, s.candidates), rounds, s.maxRepetitions);
    RequiredIsCost(s);
    r := Decided(Winner(s, look.provisional, look.acceptance), look.votes, rounds, look.provisional, look.acceptance,
                 stoppedForCost, limit, spent);
  }

  /** `_select_fair_winner`. */
  method SelectFairWinner(s: Setup, w: World) returns (r: Report)
    ensures s.candidates == 0 && w.stopped ==>
              r == if s.metricCalls.Some? && s.metricCalls.value < 0 then Fault(BadBudget)
                   else Discarded(false, 0, if s.metricCalls.None? || s.metricCalls.value == 0 then 1
                                            else s.metricCalls.value, 0)
    ensures var required := s.cases * (s.candidates * s.maxRepetitions);
      var limit := if s.metricCalls.Some? then s.metricCalls.value else required;
      var repeats := 1 <= s.repetitions <= s.maxRepetitions <= 5;
      && (s.candidates == 0 && !w.stopped ==> r == Fault(NoResults))
      && (s.candidates > 0 && !repeats ==> r == Fault(BadRepetitions))
      && (s.candidates > 0 && repeats && limit < required ==> r == Fault(BudgetTooSmall))
      && (s.candidates > 0 && repeats && limit >= required && limit <= 0 ==> r == Fault(BadBudget))
      && (s.candidates > 0 && repeats && limit >= required && limit > 0 ==>
            && ArgumentError(s).None?
            && (r.Discarded? ==> r.winner == (if s.baseline.Some? then s.baseline.value else 0) && r.limit == limit)
            && (!w.baseFits ==> r.Discarded? && r.refused && r.spent == 0)
            && (w.baseFits && r.Discarded? ==> !r.refused))
    ensures r.Decided? ==>
              DecidedBy(s, w, Standard(s), r) && r.limit == Limit(s) && r.spent == RoundsCost(s, r.rounds) <= r.limit
    ensures s.candidates > 0 && r.Discarded? ==>
              DiscardedBy(s, w, Standard(s), r) && r.limit == Limit(s) && r.spent <= r.limit
    ensures s.candidates > 0 && r.Fault? && ArgumentError(s).None? ==>
              w.baseFits && exists k: nat :: BrokenAt(s, w, Standard(s), k, r.error)
  {
    if s.candidates == 0 && w.stopped {
      if s.metricCalls.Some? && s.metricCalls.value < 0 {
        return Fault(BadBudget);
      }
      return Discarded(false, 0, if s.metricCalls.None? || s.metricCalls.value == 0 then 1 else s.metricCalls.value, 0);
    }
    var argument := ArgumentError(s);
    if argument.Some? {
      return Fault(argument.value);
    }
    if !w.baseFits {
      return Discarded(true, Fallback(s), Limit(s), 0);
    }
    r := MatchedRounds(s, w, Standard(s), Limit(s));
  }

  lemma NotCleanLater(s: Setup, w: World, k: nat, n: nat)
    requires !Clean(s, w, k) && k <= n
    ensures !Clean(s, w, n)
  {
  }

  // ----- what a decision means -----

  ghost predicate Decision(s: Setup, w: World, r: Report) {
    r.Decided? && DecidedBy(s, w, Standard(s), r)
  }

  lemma TallySamples(table: seq<seq<Evaluation>>, votes: seq<Vote>)
    requires P.Votes(table) == P.Tallied(votes)
    ensures |votes| == |table| && forall i :: 0 <= i < |votes| ==> votes[i].samples == P.Scores(table[i])
  {
    forall i | 0 <= i < |votes| ensures votes[i].samples == P.Scores(table[i]) {
      assert votes[i] == P.VoteFor(i, table[i]);
    }
  }

  lemma LookSamples(s: Setup, table: seq<seq<Evaluation>>, votes: seq<Vote>)
    requires LookAt(s, table).Looked? && votes == LookAt(s, table).votes
    ensures |votes| == |table| && forall i :: 0 <= i < |votes| ==> votes[i].samples == P.Scores(table[i])
  {
    TallySamples(table, votes);
  }

  lemma ScoresInOrder(w: World, i: nat, n: nat)
    requires forall k :: 0 <= k < n ==> w.evaluate(k, i).Completed?
    ensures var scores := P.Scores(Column(w, i, n));
      |scores| == n && forall k :: 0 <= k < n ==> scores[k] == w.evaluate(k, i).e.score
  {
  }

  /** Every candidate has one sample per completed round, and the rounds are the same for all. */
  lemma MatchedSamples(s: Setup, w: World, at: Looker, r: Report)
    requires r.Decided? && DecidedBy(s, w, at, r) && at == Standard(s)
    ensures s.repetitions <= r.rounds <= s.maxRepetitions && |r.votes| == s.candidates
    ensures forall i :: 0 <= i < |r.votes| ==>
              && |r.votes[i].samples| == r.rounds
              && forall k :: 0 <= k < r.rounds ==>
                   w.evaluate(k, i).Completed? && r.votes[i].samples[k] == w.evaluate(k, i).e.score
  {
    var table := Table(s, w, r.rounds);
    assert at(table) == LookAt(s, table);
    LookSamples(s, table, r.votes);
    forall i | 0 <= i < |r.votes|
      ensures && |r.votes[i].samples| == r.rounds
              && forall k :: 0 <= k < r.rounds ==>
                   w.evaluate(k, i).Completed? && r.votes[i].samples[k] == w.evaluate(k, i).e.score
    {
      ScoresInOrder(w, i, r.rounds);
    }
  }

  /** A winner other than the baseline was accepted on all completed rounds, and its mean is
      higher by more than the threshold. */
  lemma WinnerIsAccepted(s: Setup, w: World, r: Report)
    requires Decision(s, w, r) && s.baseline.Some?
    ensures 0 <= s.baseline.value < |r.votes| && r.votes[s.baseline.value].selectable
    ensures 0 <= r.winner < |r.votes| && r.votes[r.winner].selectable
    ensures r.winner != s.baseline.value ==>
              var c := A.Compare(r.votes[s.baseline.value].samples, r.votes[r.winner].samples, s.confidence,
                                 s.minDelta, Looks(s), None, None, s.stat);
              && c.Compared? && c.c.verdict.Accepted?
              && (A.QuantileGrows(s.stat) ==> r.votes[r.winner].mean - r.votes[s.baseline.value].mean > s.minDelta)
  {
    var table := Table(s, w, r.rounds);
    var b := s.baseline.value;
    assert r.votes == P.Votes(table).votes;
    if r.winner != b && A.QuantileGrows(s.stat) {
      var x, y := r.votes[b], r.votes[r.winner];
      assert x == P.VoteFor(b, table[b]) && y == P.VoteFor(r.winner, table[r.winner]);
      AcceptedIsHigher(x.samples, y.samples, s.confidence, s.minDelta, Looks(s), s.stat);
    }
  }

  lemma AcceptedIsHigher(baseline: seq<real>, candidate: seq<real>, confidence: real, minDelta: real, looks: int,
                         stat: A.Calculus)
    requires A.QuantileGrows(stat)
    requires var c := A.Compare(baseline, candidate, confidence, minDelta, looks, None, None, stat);
      c.Compared? && c.c.verdict.Accepted?
    ensures baseline != [] && candidate != [] && A.Mean(candidate) - A.Mean(baseline) > minDelta
  {
    var e := A.WelchEvidence(baseline, candidate, stat);
    A.MarginGrows(e, confidence, looks, looks, stat);
  }

  /** The last look of a decision without a baseline names its winner. */
  lemma LastLook(s: Setup, w: World, r: Report)
    requires Decision(s, w, r) && s.baseline.None?
    ensures var look := LookAt(s, Table(s, w, r.rounds));
      look.Looked? && r.votes == look.votes && r.winner == Winner(s, look.provisional, look.acceptance)
  {
  }

  lemma ModeChooses(s: Setup, evaluations: seq<seq<Evaluation>>)
    requires s.baseline.None? && s.rule.ByMode? && LookAt(s, evaluations).Looked?
    ensures var look := LookAt(s, evaluations);
      && P.Votes(evaluations) == P.Tallied(look.votes) && P.Indexed(look.votes)
      && P.Choose(look.votes, s.rule.mode) == P.Chosen(look.provisional)
      && Winner(s, look.provisional, look.acceptance) == look.provisional
  {
  }

  /** Without a baseline the winner is the Pareto choice on all completed rounds. */
  lemma WinnerIsPareto(s: Setup, w: World, r: Report)
    requires Decision(s, w, r) && s.baseline.None? && s.rule.ByMode?
    ensures 0 <= r.winner < |r.votes| && P.Choose(r.votes, s.rule.mode) == P.Chosen(r.winner)
    ensures var v := r.votes[r.winner];
      v.selectable && P.Unbeaten(v, P.Selectable(r.votes), s.rule.mode) && !s.rule.mode.Unknown?
  {
    LastLook(s, w, r);
    ModeChooses(s, Table(s, w, r.rounds));
    P.ChosenIsUnbeaten(r.votes, s.rule.mode, r.winner);
  }

  /** All looks together spend at most the allowed error, and the last possible look spends the rest. */
  lemma AlphaSpent(s: Setup, rounds: int)
    requires 1 <= s.repetitions <= rounds <= s.maxRepetitions && 0.0 < s.confidence < 1.0
    ensures var taken := (rounds - s.repetitions + 1) as real;
      var each := 1.0 - A.PerLook(s.confidence, Looks(s));
      && taken * each <= 1.0 - s.confidence
      && (taken * each == 1.0 - s.confidence <==> rounds == s.maxRepetitions)
  {
    ShareOfError(1.0 - s.confidence, rounds - s.repetitions + 1, Looks(s));
  }

  /** Every comparison a look makes is at the confidence of one look. */
  lemma AcceptanceIsStandard(s: Setup, table: seq<seq<Evaluation>>)
    requires LookAt(s, table).Looked? && LookAt(s, table).acceptance.Judged?
    ensures Looks(s) >= 1 && LookAt(s, table).acceptance.c.perLook == A.PerLook(s.confidence, Looks(s))
  {
    var votes := P.Votes(table).votes;
    var look := Provisional(votes, s.rule);
    assert LookAt(s, table) == AgainstBaseline(s, votes, look.provisional, s.baseline.value);
  }

  lemma ShareOfError(alpha: real, taken: int, looks: int)
    requires alpha > 0.0 && 1 <= taken <= looks
    ensures taken as real * (alpha / looks as real) <= alpha
    ensures taken as real * (alpha / looks as real) == alpha <==> taken == looks
  {
    var each := alpha / looks as real;
    assert each * looks as real == alpha;
    A.PositiveQuotient(alpha, looks as real);
    A.Distribute(looks as real, taken as real, each);
    if taken < looks {
      A.ProductPositive(looks as real - taken as real, each);
    }
  }

  lemma NotPast(s: Setup, w: World, at: Looker, r: Report, k: nat)
    requires r.Decided? && DecidedBy(s, w, at, r) && r.rounds < k <= s.maxRepetitions
    ensures !Continued(s, w, at, k)
  {
    assert !GoesOn(s, w, at, r.rounds);
  }

  /** The rounds, and with them the whole decision, are determined by the evaluations and probes. */
  lemma OneOutcome(s: Setup, w: World, at: Looker, r: Report, o: Report, k: nat, error: Error)
    requires r.Decided? && DecidedBy(s, w, at, r)
    ensures !InterruptedAt(s, w, at, k) && !BrokenAt(s, w, at, k, error)
    ensures o.Decided? && DecidedBy(s, w, at, o) ==> o == r.(limit := o.limit, spent := o.spent)
  {
    if s.repetitions <= k < r.rounds {
      assert GoesOn(s, w, at, k);
    } else if r.rounds < k <= s.maxRepetitions {
      NotPast(s, w, at, r, k);
    }
    if o.Decided? && DecidedBy(s, w, at, o) {
      if o.rounds < r.rounds {
        NotPast(s, w, at, o, r.rounds);
      } else if r.rounds < o.rounds {
        NotPast(s, w, at, r, o.rounds);
      }
    }
  }

  // ----- tiebreaks -----

  const TIE := 0.000000000001

  function Above(votes: seq<Vote>, bound: real): nat {
    if votes == [] then 0 else (if votes[0].mean > bound then 1 else 0) + Above(votes[1..], bound)
  }

  ghost predicate Descending(votes: seq<Vote>) {
    forall i, j :: 0 <= i < j < |votes| ==> votes[i].mean >= votes[j].mean
  }

  lemma {:induction false} InsertKeeps(v: Vote, votes: seq<Vote>, bound: real)
    requires Descending(votes)
    ensures var r := InsertByMean(v, votes);
      && Descending(r) && Above(r, bound) == Above([v] + votes, bound)
      && r[0].mean == if votes == [] || v.mean >= votes[0].mean then v.mean else votes[0].mean
  {
    assert ([v] + votes)[1..] == votes;
    if votes != [] && v.mean < votes[0].mean {
      InsertKeeps(v, votes[1..], bound);
      assert ([v] + votes[1..])[1..] == votes[1..];
      var rest := InsertByMean(v, votes[1..]);
      assert forall j :: 0 <= j < |rest| ==> rest[j].mean <= rest[0].mean;
      assert ([votes[0]] + rest)[1..] == rest;
    }
  }

  lemma {:induction false} SortKeeps(votes: seq<Vote>, bound: real)
    ensures var r := ByMeanDescending(votes);
      && Descending(r) && Above(r, bound) == Above(votes, bound)
      && (votes != [] ==> r[0].mean == P.Best(votes).mean)
  {
    if votes != [] {
      SortKeeps(votes[1..], bound);
      InsertKeeps(votes[0], ByMeanDescending(votes[1..]), bound);
      var rest := ByMeanDescending(votes[1..]);
      assert ([votes[0]] + rest)[1..] == rest;
      if |votes| > 1 {
        assert votes[1..] != [];
      }
    }
  }

  lemma {:induction false} NoneAbove(votes: seq<Vote>, bound: real)
    requires forall i :: 0 <= i < |votes| ==> votes[i].mean <= bound
    ensures Above(votes, bound) == 0
  {
    if votes != [] {
      NoneAbove(votes[1..], bound);
    }
  }

  /** A tiebreak is asked for exactly when two selectable means lie within the tie width of the best. */
  lemma TiebreakExactly(votes: seq<Vote>, field: seq<Vote>)
    requires field == P.Selectable(votes)
    ensures RequiresTiebreak(votes) <==> field != [] && Above(field, P.Best(field).mean - TIE) >= 2
  {
    if field != [] {
      SortKeeps(field, P.Best(field).mean - TIE);
      TieOfFirstTwo(ByMeanDescending(field));
    }
  }

  lemma TieOfFirstTwo(ordered: seq<Vote>)
    requires Descending(ordered) && ordered != []
    ensures |ordered| >= 2 && A.Abs(ordered[0].mean - ordered[1].mean) < TIE <==> Above(ordered, ordered[0].mean - TIE) >= 2
  {
    TwoAbove(ordered, ordered[0].mean - TIE);
  }

  /** In descending order, two means are above a bound exactly when the second is. */
  lemma TwoAbove(ordered: seq<Vote>, bound: real)
    requires Descending(ordered) && ordered != [] && ordered[0].mean > bound
    ensures Above(ordered, bound) >= 2 <==> |ordered| >= 2 && ordered[1].mean > bound
  {
    var tail := ordered[1..];
    if tail != [] && tail[0].mean <= bound {
      NoneAbove(tail, bound);
    }
  }

  // ----- when another round is held -----

  /** The scores of candidate `i` in the first `k` rounds. */
  ghost function ScoresOf(w: World, i: nat, k: nat): (r: seq<real>)
    requires forall j :: 0 <= j < k ==> w.evaluate(j, i).Completed?
  {
    seq(k, j requires 0 <= j < k => w.evaluate(j, i).e.score)
  }

  /** The votes on the first `k` rounds, and the candidate that the rule picks from them. */
  ghost predicate Picked(s: Setup, w: World, k: nat, votes: seq<Vote>, p: int) {
    && Clean(s, w, k) && P.Votes(Table(s, w, k)) == P.Tallied(votes)
    && |votes| == s.candidates && PicksFrom(s, votes, p)
  }

  predicate PicksFrom(s: Setup, votes: seq<Vote>, p: int) {
    && 0 <= p < |votes| && votes[p].selectable
    && match s.rule case Custom(pick) => pick(votes) == p case ByMode(mode) => P.Choose(votes, mode) == P.Chosen(p)
  }

  /** The comparison of two candidates on the first `k` rounds. */
  ghost function Compared(s: Setup, w: World, k: nat, b: nat, p: nat): A.Outcome
    requires Clean(s, w, k) && b < s.candidates && p < s.candidates
  {
    A.Compare(ScoresOf(w, b, k), ScoresOf(w, p, k), s.confidence, s.minDelta, s.maxRepetitions - s.repetitions + 1,
              None, None, s.stat)
  }

  lemma SameScores(w: World, i: nat, k: nat)
    requires forall j :: 0 <= j < k ==> w.evaluate(j, i).Completed?
    ensures P.Scores(Column(w, i, k)) == ScoresOf(w, i, k)
  {
    ScoresInOrder(w, i, k);
  }

  /** A look with a baseline: what the rule picks, compared with the baseline. */
  lemma LookSplits(s: Setup, evaluations: seq<seq<Evaluation>>)
    requires s.baseline.Some? && LookAt(s, evaluations).Looked?
    ensures var look := LookAt(s, evaluations);
      && look.provisional < |look.votes| && P.Votes(evaluations) == P.Tallied(look.votes)
      && PicksFrom(s, look.votes, look.provisional)
      && look == AgainstBaseline(s, look.votes, look.provisional, s.baseline.value)
  {
  }

  lemma AgainstExactly(s: Setup, votes: seq<Vote>, p: nat, b: int)
    requires p < |votes| && AgainstBaseline(s, votes, p, b).Looked?
    ensures var look := AgainstBaseline(s, votes, p, b);
      && 0 <= b < |votes|
      && (if p == b then look.acceptance == Baseline && !look.more
          else
            && look.acceptance.Judged?
            && A.Compare(votes[b].samples, votes[p].samples, s.confidence, s.minDelta, s.maxRepetitions - s.repetitions + 1,
                         None, None, s.stat) == A.Compared(look.acceptance.c)
            && (look.more <==> look.acceptance.c.verdict.Inconclusive?))
  {
  }

  /** A look as the program takes it, in terms of the rounds' scores. */
  lemma LookAgainst(s: Setup, w: World, k: nat)
    requires Clean(s, w, k) && s.baseline.Some? && LookAt(s, Table(s, w, k)).Looked?
    ensures var look, b := LookAt(s, Table(s, w, k)), s.baseline.value;
      && Picked(s, w, k, look.votes, look.provisional) && 0 <= b < s.candidates
      && (if look.provisional == b then look.acceptance == Baseline && !look.more
          else
            && look.acceptance.Judged? && Compared(s, w, k, b, look.provisional) == A.Compared(look.acceptance.c)
            && (look.more <==> look.acceptance.c.verdict.Inconclusive?))
  {
    var table := Table(s, w, k);
    var look := LookAt(s, table);
    LookSplits(s, table);
    TallySamples(table, look.votes);
    AgainstExactly(s, look.votes, look.provisional, s.baseline.value);
    SameScores(w, look.provisional, k);
    SameScores(w, s.baseline.value, k);
  }

  /** After `k` rounds the rule picked a candidate that the comparison with the baseline neither
      accepts nor turns down. */
  ghost predicate Undecided(s: Setup, w: World, k: nat, b: int) {
    exists votes, p :: PickedUndecided(s, w, k, b, votes, p)
  }

  ghost predicate PickedUndecided(s: Setup, w: World, k: nat, b: int, votes: seq<Vote>, p: int) {
    && Picked(s, w, k, votes, p) && 0 <= b < s.candidates && p != b
    && Compared(s, w, k, b, p).Compared? && Compared(s, w, k, b, p).c.verdict.Inconclusive?
  }

  /** With a baseline, a further round is held exactly after those that leave the comparison
      undecided, while the cap and the maximum allow one; and the provisional winner wins exactly
      when it is the baseline or is accepted on all rounds. */
  lemma BaselineRounds(s: Setup, w: World, r: Report)
    requires Decision(s, w, r) && s.baseline.Some?
    ensures forall k: nat :: s.repetitions <= k < r.rounds ==> Undecided(s, w, k, s.baseline.value) && w.roundFits(k)
    ensures Picked(s, w, r.rounds, r.votes, r.provisional) && 0 <= s.baseline.value < s.candidates
    ensures if r.provisional == s.baseline.value then
              r.acceptance == Baseline && r.winner == r.provisional && !r.stoppedForCost
            else
              && r.acceptance.Judged?
              && Compared(s, w, r.rounds, s.baseline.value, r.provisional) == A.Compared(r.acceptance.c)
              && r.winner == (if r.acceptance.c.verdict.Accepted? then r.provisional else s.baseline.value)
              && (r.acceptance.c.verdict.Inconclusive? ==> r.rounds == s.maxRepetitions || r.stoppedForCost)
    ensures r.stoppedForCost ==> r.rounds < s.maxRepetitions && Undecided(s, w, r.rounds, s.baseline.value) && !w.roundFits(r.rounds)
  {
    var b := s.baseline.value;
    forall k: nat | s.repetitions <= k < r.rounds ensures Undecided(s, w, k, b) && w.roundFits(k) {
      assert GoesOn(s, w, Standard(s), k);
      LookAgainst(s, w, k);
      var look := LookAt(s, Table(s, w, k));
      assert PickedUndecided(s, w, k, b, look.votes, look.provisional);
    }
    LookAgainst(s, w, r.rounds);
    if r.stoppedForCost {
      assert PickedUndecided(s, w, r.rounds, b, r.votes, r.provisional);
    }
  }

  /** After `k` rounds two selectable means lie within the tie width of the best. */
  ghost predicate Tied(s: Setup, w: World, k: nat) {
    exists votes :: VotesTied(s, w, k, votes)
  }

  ghost predicate VotesTied(s: Setup, w: World, k: nat, votes: seq<Vote>) {
    && Clean(s, w, k) && P.Votes(Table(s, w, k)) == P.Tallied(votes)
    && MeansTied(votes)
  }

  predicate MeansTied(votes: seq<Vote>) {
    P.Selectable(votes) != [] && Above(P.Selectable(votes), P.Best(P.Selectable(votes)).mean - TIE) >= 2
  }

  lemma TieIff(votes: seq<Vote>)
    ensures MeansTied(votes) <==> RequiresTiebreak(votes)
  {
    TiebreakExactly(votes, P.Selectable(votes));
  }

  lemma LookIsPicked(s: Setup, w: World, k: nat)
    requires Clean(s, w, k) && s.baseline.None? && LookAt(s, Table(s, w, k)).Looked?
    ensures var look := LookAt(s, Table(s, w, k));
      && Picked(s, w, k, look.votes, look.provisional) && look.acceptance == NotApplicable
      && (look.more <==> RequiresTiebreak(look.votes))
  {
    TallySamples(Table(s, w, k), LookAt(s, Table(s, w, k)).votes);
  }

  lemma TiedAre(s: Setup, w: World, k: nat, votes: seq<Vote>)
    requires Clean(s, w, k) && P.Votes(Table(s, w, k)) == P.Tallied(votes)
    ensures Tied(s, w, k) <==> MeansTied(votes)
  {
    if MeansTied(votes) {
      assert VotesTied(s, w, k, votes);
    }
    if Tied(s, w, k) {
      var others :| VotesTied(s, w, k, others);
      assert others == votes;
    }
  }

  lemma LookAlone(s: Setup, w: World, k: nat)
    requires Clean(s, w, k) && s.baseline.None? && LookAt(s, Table(s, w, k)).Looked?
    ensures var look := LookAt(s, Table(s, w, k));
      && Picked(s, w, k, look.votes, look.provisional) && look.acceptance == NotApplicable
      && (look.more <==> Tied(s, w, k))
  {
    LookIsPicked(s, w, k);
    TiedAre(s, w, k, LookAt(s, Table(s, w, k)).votes);
    TieIff(LookAt(s, Table(s, w, k)).votes);
  }

  /** Without a baseline, a further round is held exactly after those that end in a tie, while
      the cap and the maximum allow one; and the provisional winner wins. */
  lemma TieRounds(s: Setup, w: World, r: Report)
    requires Decision(s, w, r) && s.baseline.None?
    ensures forall k: nat :: s.repetitions <= k < r.rounds ==> Tied(s, w, k) && w.roundFits(k)
    ensures Picked(s, w, r.rounds, r.votes, r.provisional) && r.acceptance == NotApplicable && r.winner == r.provisional
    ensures Tied(s, w, r.rounds) ==> r.rounds == s.maxRepetitions || r.stoppedForCost
    ensures r.stoppedForCost ==> r.rounds < s.maxRepetitions && Tied(s, w, r.rounds) && !w.roundFits(r.rounds)
  {
    forall k: nat | s.repetitions <= k < r.rounds ensures Tied(s, w, k) && w.roundFits(k) {
      assert GoesOn(s, w, Standard(s), k);
      LookAlone(s, w, k);
    }
    LookAlone(s, w, r.rounds);
  }

  /** When the votes of some rounds cannot be compared: a candidate has none, its selectable samples
      have different coordinates, or two candidates that are selectable throughout do. */
  ghost predicate Mismatched(table: seq<seq<Evaluation>>) {
    || (exists i :: 0 <= i < |table| && table[i] == [])
    || (exists i, j, k :: 0 <= i < |table| && 0 <= j < k < |table[i]| && table[i][j].selectable && table[i][k].selectable
                          && P.CoordinatesOf(table[i][j]) != P.CoordinatesOf(table[i][k]))
    || (exists i, j :: 0 <= i < j < |table| && table[i] != [] && table[j] != []
                       && P.AllSelectable(table[i]) && P.AllSelectable(table[j])
                       && P.CoordinatesOf(table[i][0]) != P.CoordinatesOf(table[j][0]))
  }

  lemma MismatchedIff(table: seq<seq<Evaluation>>)
    ensures Mismatched(table) <==> P.Votes(table).Uneven?
  {
    if P.Comparable(table) {
      forall i, j | 0 <= i < j < |table| && table[i] != [] && table[j] != [] && P.AllSelectable(table[i]) && P.AllSelectable(table[j])
        ensures P.CoordinatesOf(table[i][0]) == P.CoordinatesOf(table[j][0])
      {
      }
      forall i, j, k | 0 <= i < |table| && 0 <= j < k < |table[i]| && table[i][j].selectable && table[i][k].selectable
        ensures P.CoordinatesOf(table[i][j]) == P.CoordinatesOf(table[i][k])
      {
        assert P.Matching(table[i]);
      }
    } else if !Mismatched(table) {
      forall i | 0 <= i < |table| ensures P.Matching(table[i]) {
        forall j, k | 0 <= j < |table[i]| && 0 <= k < |table[i]| && table[i][j].selectable && table[i][k].selectable
          ensures P.CoordinatesOf(table[i][j]) == P.CoordinatesOf(table[i][k])
        {
          assert j < k || k < j || j == k;
        }
      }
      assert P.Agreeing(table);
      assert false;
    }
  }

  /** Whether the rule has a candidate to pick. */
  predicate SomePick(rule: Rule, votes: seq<Vote>) {
    match rule
    case Custom(pick) => 0 <= pick(votes) < |votes| && votes[pick(votes)].selectable
    case ByMode(mode) => P.Choose(votes, mode).Chosen?
  }

  lemma PickFails(votes: seq<Vote>, rule: Rule)
    requires P.Indexed(votes)
    ensures Provisional(votes, rule).Looked? <==> SomePick(rule, votes)
    ensures !SomePick(rule, votes) ==>
              Provisional(votes, rule) ==
              Broken(match rule case Custom(_) => BadPick case ByMode(mode) => NoChoice(P.Choose(votes, mode).error))
  {
  }

  lemma BaselineFails(s: Setup, votes: seq<Vote>, p: nat, b: int)
    requires p < |votes|
    ensures var look := AgainstBaseline(s, votes, p, b);
      && (look == Broken(BadBaseline) <==> b < 0 || b >= |votes|)
      && (look == Broken(BaselineUnselectable) <==> 0 <= b < |votes| && !votes[b].selectable)
      && look != Broken(Uneven)
  {
  }

  lemma TalliedVotes(table: seq<seq<Evaluation>>)
    requires P.Votes(table).Tallied?
    ensures var votes := P.Votes(table).votes;
      |votes| == |table| && P.Indexed(votes) && forall i :: 0 <= i < |table| ==> votes[i].selectable == P.AllSelectable(table[i])
  {
  }

  /** A look fails exactly when the samples do not match, the rule picks no selectable candidate,
      the baseline is no selectable candidate, or the two cannot be compared. */
  lemma LookFailsExactly(s: Setup, table: seq<seq<Evaluation>>)
    ensures var look := LookAt(s, table);
      var votes := P.Votes(table);
      && (look == Broken(Uneven) <==> Mismatched(table))
      && (votes.Tallied? && !SomePick(s.rule, votes.votes) ==>
            look == Broken(match s.rule case Custom(_) => BadPick case ByMode(mode) => NoChoice(P.Choose(votes.votes, mode).error)))
      && (votes.Tallied? && SomePick(s.rule, votes.votes) ==>
            && (s.baseline.None? ==> look.Looked?)
            && (look == Broken(BadBaseline) <==> s.baseline.Some? && !(0 <= s.baseline.value < |table|))
            && (look == Broken(BaselineUnselectable) <==>
                  s.baseline.Some? && 0 <= s.baseline.value < |table| && !P.AllSelectable(table[s.baseline.value])))
  {
    MismatchedIff(table);
    if P.Votes(table).Tallied? {
      var votes := P.Votes(table).votes;
      TalliedVotes(table);
      PickFails(votes, s.rule);
      if SomePick(s.rule, votes) && s.baseline.Some? {
        BaselineFails(s, votes, Provisional(votes, s.rule).provisional, s.baseline.value);
      }
    }
  }
}
