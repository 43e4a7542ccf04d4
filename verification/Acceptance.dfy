/** Comparing repeated evaluations: Welch and paired intervals, and the verdict.

    Scores are reals.  The square root and the Student-t quantile are parameters; what a
    result needs of them is stated where it is used. */
module Acceptance {
  import opened Options
  import M = Multiples

  datatype Verdict = Accepted | Rejected | Equivalent | Inconclusive

  datatype Reason = EvidenceMissing | CasesMismatched | InsufficientCases | ZeroSpread

  datatype Error = EmptySamples | BadConfidence | BadLooks | BadMinDelta

  /** `root` is the square root, `quantile(p, df)` the Student-t quantile. */
  datatype Calculus = Calculus(root: real -> real, quantile: (real, real) -> real)

  type Scores = seq<(string, real)>

  datatype Comparison = Comparison(
    verdict: Verdict, delta: real, standardError: real, lower: real, upper: real, perLook: real,
    degrees: Option<real>, pairedCases: nat, reason: Option<Reason>)

  datatype Outcome = Compared(c: Comparison) | Failed(error: Error)

  // ----- statistics -----

  function Sum(xs: seq<real>): real {
    if xs == [] then 0.0 else xs[0] + Sum(xs[1..])
  }

  function Mean(xs: seq<real>): real
    requires xs != []
  {
    Sum(xs) / |xs| as real
  }

  function SquaresFrom(xs: seq<real>, m: real): real {
    if xs == [] then 0.0 else (xs[0] - m) * (xs[0] - m) + SquaresFrom(xs[1..], m)
  }

  /** The sample variance; of one sample or none it counts as zero. */
  function Variance(xs: seq<real>): real {
    if |xs| <= 1 then 0.0 else SquaresFrom(xs, Mean(xs)) / (|xs| - 1) as real
  }

  function Term(xs: seq<real>): real {
    if xs == [] then 0.0 else Variance(xs) / |xs| as real
  }

  /** The Welch-Satterthwaite degrees of freedom of two terms with `p` and `q` degrees each. */
  function Welch(a: real, b: real, p: real, q: real): real
    requires p > 0.0 && q > 0.0
  {
    var spread := a * a / p + b * b / q;
    if spread == 0.0 then 0.0 else (a + b) * (a + b) / spread
  }

  function Lookup(scores: Scores, key: string): Option<real> {
    if scores == [] then None else if scores[0].0 == key then Some(scores[0].1) else Lookup(scores[1..], key)
  }

  function Keys(scores: Scores): set<string> {
    set i | 0 <= i < |scores| :: scores[i].0
  }

  /** Differences over the same cases, in the baseline's order. */
  function Differences(baseline: Scores, candidate: Scores): (r: seq<real>)
    requires forall i :: 0 <= i < |baseline| ==> Lookup(candidate, baseline[i].0).Some?
    ensures |r| == |baseline|
    ensures forall i :: 0 <= i < |r| ==> r[i] == Lookup(candidate, baseline[i].0).value - baseline[i].1
  {
    if baseline == [] then []
    else [Lookup(candidate, baseline[0].0).value - baseline[0].1] + Differences(baseline[1..], candidate)
  }

  lemma {:induction false} KeyHasValue(scores: Scores, key: string)
    ensures key in Keys(scores) <==> Lookup(scores, key).Some?
  {
    if scores != [] {
      KeyHasValue(scores[1..], key);
      assert forall i :: 1 <= i < |scores| ==> scores[i] == scores[1..][i - 1];
      if key in Keys(scores) {
        var i :| 0 <= i < |scores| && scores[i].0 == key;
        if i > 0 {
          assert scores[1..][i - 1].0 == key;
        }
      }
      if key in Keys(scores[1..]) {
        var i :| 0 <= i < |scores[1..]| && scores[1..][i].0 == key;
        assert scores[i + 1].0 == key;
      }
      assert scores[0].0 in Keys(scores);
    }
  }

  // ----- the comparison -----

  /** Why paired evidence cannot decide, if it cannot. */
  function PairedReason(baseline: seq<real>, candidate: seq<real>, pairedBaseline: Option<Scores>,
                        pairedCandidate: Option<Scores>): Option<Reason> {
    if pairedBaseline.None? || pairedBaseline.value == [] || pairedCandidate.None? || pairedCandidate.value == [] then
      Some(EvidenceMissing)
    else if Keys(pairedBaseline.value) != Keys(pairedCandidate.value) then Some(CasesMismatched)
    else if |pairedBaseline.value| < 2 then Some(InsufficientCases)
    else if baseline == [] || candidate == [] then Some(EvidenceMissing)
    else None
  }

  /** What the verdict is made from. */
  datatype Evidence = Evidence(delta: real, se: real, degrees: Option<real>, enough: bool, pairedCases: nat,
                               paired: bool)

  function WelchEvidence(baseline: seq<real>, candidate: seq<real>, stat: Calculus): Evidence {
    var delta := (if candidate == [] then 0.0 else Mean(candidate)) - (if baseline == [] then 0.0 else Mean(baseline));
    var a, b := Term(baseline), Term(candidate);
    var se := stat.root(a + b);
    var enough := |baseline| >= 2 && |candidate| >= 2;
    var degrees := if enough && se > 0.0 then Some(Welch(a, b, (|baseline| - 1) as real, (|candidate| - 1) as real))
                   else None;
    Evidence(delta, se, degrees, enough, 0, false)
  }

  function PairedEvidence(baseline: Scores, candidate: Scores, stat: Calculus): Evidence
    requires baseline != [] && Keys(baseline) == Keys(candidate)
  {
    assert forall i :: 0 <= i < |baseline| ==> baseline[i].0 in Keys(baseline);
    assert forall i :: 0 <= i < |baseline| ==> Lookup(candidate, baseline[i].0).Some? by {
      forall i | 0 <= i < |baseline| ensures Lookup(candidate, baseline[i].0).Some? {
        KeyHasValue(candidate, baseline[i].0);
      }
    }
    var differences := Differences(baseline, candidate);
    Evidence(Mean(differences), stat.root(Variance(differences) / |differences| as real),
             Some((|differences| - 1) as real), true, |differences|, true)
  }

  function PerLook(confidence: real, looks: int): real
    requires looks >= 1
  {
    1.0 - (1.0 - confidence) / looks as real
  }

  function Margin(e: Evidence, confidence: real, looks: int, stat: Calculus): real
    requires looks >= 1
  {
    if e.degrees.Some? && e.se > 0.0 then
      stat.quantile(0.5 + PerLook(confidence, looks) / 2.0, e.degrees.value) * e.se
    else 0.0
  }

  function Abs(x: real): real {
    if x < 0.0 then -x else x
  }

  function AtLeastOne(x: real): real {
    if x < 1.0 then 1.0 else x
  }

  /** Near-constant gains over fewer than ten cases are not trusted. */
  predicate NoSpread(e: Evidence) {
    e.paired && e.pairedCases < 10 && e.se <= 0.000001 * AtLeastOne(Abs(e.delta))
  }

  /** The verdict chain on an interval around `delta`. */
  function Judge(e: Evidence, margin: real, minDelta: real): (Verdict, Option<Reason>) {
    var lower, upper := e.delta - margin, e.delta + margin;
    if lower > minDelta && e.enough then if NoSpread(e) then (Inconclusive, Some(ZeroSpread)) else (Accepted, None)
    else if upper < -minDelta then (Rejected, None)
    else if lower >= -minDelta && upper <= minDelta then (Equivalent, None)
    else (Inconclusive, None)
  }

  function Compare(baseline: seq<real>, candidate: seq<real>, confidence: real, minDelta: real, looks: int,
                   pairedBaseline: Option<Scores>, pairedCandidate: Option<Scores>, stat: Calculus): Outcome {
    var paired := pairedBaseline.Some? || pairedCandidate.Some?;
    if !paired && (baseline == [] || candidate == []) then Failed(EmptySamples)
    else if !(0.0 < confidence < 1.0) then Failed(BadConfidence)
    else if looks < 1 then Failed(BadLooks)
    else if minDelta < 0.0 then Failed(BadMinDelta)
    else
      var reason := if paired then PairedReason(baseline, candidate, pairedBaseline, pairedCandidate) else None;
      var e := if paired && reason.None? then PairedEvidence(pairedBaseline.value, pairedCandidate.value, stat)
               else WelchEvidence(baseline, candidate, stat);
      var margin := Margin(e, confidence, looks, stat);
      var (verdict, why) := if reason.Some? then (Inconclusive, reason) else Judge(e, margin, minDelta);
      Compared(Comparison(verdict, e.delta, e.se, e.delta - margin, e.delta + margin, PerLook(confidence, looks),
                          e.degrees, e.pairedCases, why))
  }

  // ----- what the statistics are -----

  lemma {:induction false} SumOfParts(a: seq<real>, b: seq<real>)
    ensures Sum(a + b) == Sum(a) + Sum(b)
  {
    if a == [] {
      assert a + b == b;
    } else {
      assert (a + b)[1..] == a[1..] + b;
      SumOfParts(a[1..], b);
    }
  }

  /** The mean times the number of samples is their sum, which adds up any two parts of them. */
  lemma MeanIsAverage(a: seq<real>, b: seq<real>, x: real)
    ensures Sum([x]) == x && Sum(a + b) == Sum(a) + Sum(b)
    ensures a != [] ==> Mean(a) * |a| as real == Sum(a)
  {
    SumOfParts(a, b);
    if a != [] {
      QuotientTimes(Sum(a), |a| as real);
    }
  }

  lemma {:induction false} SquaresOfParts(a: seq<real>, b: seq<real>, m: real)
    ensures SquaresFrom(a + b, m) == SquaresFrom(a, m) + SquaresFrom(b, m)
  {
    if a == [] {
      assert a + b == b;
    } else {
      assert (a + b)[1..] == a[1..] + b;
      SquaresOfParts(a[1..], b, m);
    }
  }

  lemma OneSquare(x: real, m: real)
    ensures SquaresFrom([x], m) == (x - m) * (x - m)
  {
    assert SquaresFrom([x][1..], m) == 0.0;
  }

  /** The variance, taken once for each sample but one, is the sum of the squared distances from
      their mean. */
  lemma VarianceTimes(xs: seq<real>)
    requires |xs| > 1
    ensures M.Times(|xs| - 1, Variance(xs)) == SquaresFrom(xs, Mean(xs))
  {
    M.TimesOfQuotient(|xs| - 1, SquaresFrom(xs, Mean(xs)));
  }

  // ----- what a comparison reports -----

  /** The interval is centred on the difference; half its width is the quantile at one half plus
      half the confidence of one look, times the standard error. */
  ghost predicate Interval(c: Comparison, confidence: real, looks: int, stat: Calculus)
    requires looks >= 1
  {
    && c.perLook == 1.0 - (1.0 - confidence) / looks as real
    && c.upper - c.delta == c.delta - c.lower
    && c.upper - c.delta == if c.degrees.Some? && c.standardError > 0.0
                            then stat.quantile(0.5 + c.perLook / 2.0, c.degrees.value) * c.standardError else 0.0
  }

  /** A clear gain is accepted, unless it is paired on fewer than ten cases without spread; a clear
      loss is rejected; an interval within the threshold is equivalent; all else is open. */
  ghost predicate Judged(c: Comparison, enough: bool, paired: bool, minDelta: real) {
    var size := if c.delta < 0.0 then -c.delta else c.delta;
    var flat := paired && c.pairedCases < 10 && c.standardError <= 0.000001 * (if size < 1.0 then 1.0 else size);
    var gain, loss := c.lower > minDelta && enough, c.upper < -minDelta;
    && (c.verdict.Accepted? <==> gain && !flat)
    && (c.verdict.Rejected? <==> !gain && loss)
    && (c.verdict.Equivalent? <==> !gain && !loss && c.lower >= -minDelta && c.upper <= minDelta)
    && c.reason == if gain && flat then Some(ZeroSpread) else None
  }

  ghost predicate ValidArguments(confidence: real, minDelta: real, looks: int) {
    0.0 < confidence < 1.0 && looks >= 1 && minDelta >= 0.0
  }

  /** The record of a comparison on evidence that can decide. */
  function Report(e: Evidence, confidence: real, minDelta: real, looks: int, stat: Calculus): Comparison
    requires looks >= 1
  {
    var margin := Margin(e, confidence, looks, stat);
    var (verdict, why) := Judge(e, margin, minDelta);
    Comparison(verdict, e.delta, e.se, e.delta - margin, e.delta + margin, PerLook(confidence, looks), e.degrees,
               e.pairedCases, why)
  }

  lemma ReportsInterval(e: Evidence, confidence: real, minDelta: real, looks: int, stat: Calculus)
    requires looks >= 1
    ensures Interval(Report(e, confidence, minDelta, looks, stat), confidence, looks, stat)
  {
  }

  lemma ReportsVerdict(e: Evidence, confidence: real, minDelta: real, looks: int, stat: Calculus)
    requires looks >= 1
    ensures Judged(Report(e, confidence, minDelta, looks, stat), e.enough, e.paired, minDelta)
  {
  }

  lemma UnpairedReport(baseline: seq<real>, candidate: seq<real>, confidence: real, minDelta: real, looks: int,
                       stat: Calculus)
    requires ValidArguments(confidence, minDelta, looks) && baseline != [] && candidate != []
    ensures Compare(baseline, candidate, confidence, minDelta, looks, None, None, stat) ==
            Compared(Report(WelchEvidence(baseline, candidate, stat), confidence, minDelta, looks, stat))
  {
  }

  /** Evidence from two samples: the difference of the means, the root of the variances over the
      sample counts, and Welch's degrees with two samples a side. */
  lemma WelchEvidenceExactly(baseline: seq<real>, candidate: seq<real>, stat: Calculus)
    requires baseline != [] && candidate != []
    ensures var e := WelchEvidence(baseline, candidate, stat);
      var x, y := Variance(baseline) / |baseline| as real, Variance(candidate) / |candidate| as real;
      && e.delta == Mean(candidate) - Mean(baseline) && e.se == stat.root(x + y) && !e.paired && e.pairedCases == 0
      && e.enough == (|baseline| >= 2 && |candidate| >= 2)
      && e.degrees == if e.enough && e.se > 0.0 then Some(Welch(x, y, (|baseline| - 1) as real, (|candidate| - 1) as real))
                      else None
  {
  }

  /** Welch's degrees times the spread of the two terms is the square of their sum. */
  lemma WelchTimes(a: real, b: real, p: real, q: real)
    requires p > 0.0 && q > 0.0
    ensures var spread := a * a / p + b * b / q;
      if spread == 0.0 then Welch(a, b, p, q) == 0.0 else Welch(a, b, p, q) * spread == (a + b) * (a + b)
  {
    var spread := a * a / p + b * b / q;
    if spread != 0.0 {
      QuotientBack((a + b) * (a + b), spread);
    }
  }

  lemma QuotientBack(n: real, d: real)
    requires d != 0.0
    ensures n / d * d == n
  {
  }

  /** An unpaired comparison. */
  lemma UnpairedExactly(baseline: seq<real>, candidate: seq<real>, confidence: real, minDelta: real, looks: int,
                        stat: Calculus)
    requires ValidArguments(confidence, minDelta, looks) && baseline != [] && candidate != []
    ensures var r := Compare(baseline, candidate, confidence, minDelta, looks, None, None, stat);
      var x, y := Variance(baseline) / |baseline| as real, Variance(candidate) / |candidate| as real;
      var enough := |baseline| >= 2 && |candidate| >= 2;
      && r.Compared? && r.c.pairedCases == 0
      && r.c.delta == Mean(candidate) - Mean(baseline) && r.c.standardError == stat.root(x + y)
      && r.c.degrees == (if enough && r.c.standardError > 0.0
                         then Some(Welch(x, y, (|baseline| - 1) as real, (|candidate| - 1) as real)) else None)
      && Interval(r.c, confidence, looks, stat) && Judged(r.c, enough, false, minDelta)
  {
    var e := WelchEvidence(baseline, candidate, stat);
    UnpairedReport(baseline, candidate, confidence, minDelta, looks, stat);
    WelchEvidenceExactly(baseline, candidate, stat);
    ReportsInterval(e, confidence, minDelta, looks, stat);
    ReportsVerdict(e, confidence, minDelta, looks, stat);
  }

  /** The scores of a case on both sides, in the baseline's order. */
  ghost predicate Matches(baseline: Scores, candidate: Scores, ds: seq<real>) {
    |ds| == |baseline| &&
    forall i :: 0 <= i < |ds| ==>
      exists j :: 0 <= j < |candidate| && candidate[j].0 == baseline[i].0 && ds[i] == candidate[j].1 - baseline[i].1
  }

  lemma {:induction false} LookupFinds(scores: Scores, key: string)
    requires Lookup(scores, key).Some?
    ensures exists j :: 0 <= j < |scores| && scores[j] == (key, Lookup(scores, key).value)
  {
    if scores[0].0 != key {
      LookupFinds(scores[1..], key);
      var j :| 0 <= j < |scores[1..]| && scores[1..][j] == (key, Lookup(scores, key).value);
      assert scores[j + 1] == scores[1..][j];
    } else {
      assert scores[0] == (key, Lookup(scores, key).value);
    }
  }

  /** Paired evidence decides alone: the mean and the spread of the differences case by case. */
  lemma PairedExactly(baseline: seq<real>, candidate: seq<real>, confidence: real, minDelta: real, looks: int,
                      pb: Scores, pc: Scores, stat: Calculus) returns (ds: seq<real>)
    requires ValidArguments(confidence, minDelta, looks) && baseline != [] && candidate != []
    requires |pb| >= 2 && pc != [] && Keys(pb) == Keys(pc)
    ensures Matches(pb, pc, ds)
    ensures var r := Compare(baseline, candidate, confidence, minDelta, looks, Some(pb), Some(pc), stat);
      && r.Compared? && r.c.pairedCases == |pb|
      && r.c.delta == Mean(ds) && r.c.standardError == stat.root(Variance(ds) / |ds| as real)
      && r.c.degrees == Some((|pb| - 1) as real)
      && Interval(r.c, confidence, looks, stat) && Judged(r.c, true, true, minDelta)
  {
    forall i | 0 <= i < |pb| ensures Lookup(pc, pb[i].0).Some? {
      assert pb[i].0 in Keys(pb);
      KeyHasValue(pc, pb[i].0);
    }
    ds := Differences(pb, pc);
    forall i | 0 <= i < |ds|
      ensures exists j :: 0 <= j < |pc| && pc[j].0 == pb[i].0 && ds[i] == pc[j].1 - pb[i].1
    {
      LookupFinds(pc, pb[i].0);
    }
    var e := PairedEvidence(pb, pc, stat);
    PairedReport(baseline, candidate, confidence, minDelta, looks, pb, pc, stat);
    ReportsInterval(e, confidence, minDelta, looks, stat);
    ReportsVerdict(e, confidence, minDelta, looks, stat);
  }

  lemma PairedReport(baseline: seq<real>, candidate: seq<real>, confidence: real, minDelta: real, looks: int,
                     pb: Scores, pc: Scores, stat: Calculus)
    requires ValidArguments(confidence, minDelta, looks) && baseline != [] && candidate != []
    requires |pb| >= 2 && pc != [] && Keys(pb) == Keys(pc)
    ensures Compare(baseline, candidate, confidence, minDelta, looks, Some(pb), Some(pc), stat) ==
            Compared(Report(PairedEvidence(pb, pc, stat), confidence, minDelta, looks, stat))
  {
  }

  /** When paired evidence was asked for and cannot decide, and why. */
  lemma UndecidedExactly(baseline: seq<real>, candidate: seq<real>, confidence: real, minDelta: real, looks: int,
                         pb: Option<Scores>, pc: Option<Scores>, stat: Calculus)
    requires ValidArguments(confidence, minDelta, looks) && (pb.Some? || pc.Some?)
    ensures var r := Compare(baseline, candidate, confidence, minDelta, looks, pb, pc, stat);
      var given := pb.Some? && pb.value != [] && pc.Some? && pc.value != [];
      && r.Compared?
      && (r.c.reason == Some(EvidenceMissing) <==>
            !given || (Keys(pb.value) == Keys(pc.value) && |pb.value| >= 2 && (baseline == [] || candidate == [])))
      && (r.c.reason == Some(CasesMismatched) <==> given && Keys(pb.value) != Keys(pc.value))
      && (r.c.reason == Some(InsufficientCases) <==> given && Keys(pb.value) == Keys(pc.value) && |pb.value| < 2)
      && (r.c.reason.Some? ==> r.c.verdict.Inconclusive?)
  {
  }

  /** Which arguments are refused, and with which error. */
  lemma RefusedExactly(baseline: seq<real>, candidate: seq<real>, confidence: real, minDelta: real, looks: int,
                       pb: Option<Scores>, pc: Option<Scores>, stat: Calculus)
    ensures var r := Compare(baseline, candidate, confidence, minDelta, looks, pb, pc, stat);
      var empty := pb.None? && pc.None? && (baseline == [] || candidate == []);
      && (r == Failed(EmptySamples) <==> empty)
      && (r == Failed(BadConfidence) <==> !empty && (confidence <= 0.0 || confidence >= 1.0))
      && (r == Failed(BadLooks) <==> !empty && 0.0 < confidence < 1.0 && looks < 1)
      && (r == Failed(BadMinDelta) <==> !empty && 0.0 < confidence < 1.0 && looks >= 1 && minDelta < 0.0)
  {
  }

  // ----- Welch degrees of freedom -----

  lemma ProductOfNonNegatives(a: real, b: real)
    requires a >= 0.0 && b >= 0.0
    ensures a * b >= 0.0
  {
  }

  lemma WelchAtLeast(a: real, b: real, p: real, q: real, m: real)
    requires a >= 0.0 && b >= 0.0 && a + b > 0.0 && 0.0 < m <= p && m <= q
    ensures m <= Welch(a, b, p, q)
  {
    var x, y := a * a / p, b * b / q;
    ProductOfNonNegatives(a, a);
    ProductOfNonNegatives(b, b);
    SpreadPositive(a, b, p, q);
    // a*a/p <= a*a/m, so the spread is at most the squared sum over m
    ShrinkDivisor(a * a, m, p);
    ShrinkDivisor(b * b, m, q);
    SquareOfSum(a, b, m);
    assert (x + y) * m == x * m + y * m;
    AtLeastFromProduct((a + b) * (a + b), x + y, m);
  }

  lemma WelchAtMost(a: real, b: real, p: real, q: real)
    requires a >= 0.0 && b >= 0.0 && a + b > 0.0 && p > 0.0 && q > 0.0
    ensures Welch(a, b, p, q) <= p + q
  {
    SpreadPositive(a, b, p, q);
    CauchySchwarz(a, b, p, q);
    AtMostFromProduct((a + b) * (a + b), a * a / p + b * b / q, p + q);
  }

  /** With p and q degrees on the two sides, the combined degrees are at least the smaller and
      at most the sum. */
  lemma WelchBounds(a: real, b: real, p: real, q: real)
    requires a >= 0.0 && b >= 0.0 && a + b > 0.0 && p > 0.0 && q > 0.0
    ensures (if p <= q then p else q) <= Welch(a, b, p, q) <= p + q
  {
    WelchAtLeast(a, b, p, q, if p <= q then p else q);
    WelchAtMost(a, b, p, q);
  }

  lemma {:induction false} SquaresNotNegative(xs: seq<real>, m: real)
    ensures SquaresFrom(xs, m) >= 0.0
  {
    if xs != [] {
      Square(xs[0] - m);
      SquaresNotNegative(xs[1..], m);
    }
  }

  lemma TermNotNegative(xs: seq<real>)
    ensures Term(xs) >= 0.0
  {
    if |xs| > 1 {
      SquaresNotNegative(xs, Mean(xs));
      NonNegativeQuotient(SquaresFrom(xs, Mean(xs)), (|xs| - 1) as real);
      NonNegativeQuotient(Variance(xs), |xs| as real);
    }
  }

  lemma WelchEvidenceBounded(baseline: seq<real>, candidate: seq<real>, stat: Calculus)
    requires forall x :: stat.root(x) > 0.0 ==> x > 0.0
    ensures var e := WelchEvidence(baseline, candidate, stat);
      e.degrees.Some? ==>
        && |baseline| >= 2 && |candidate| >= 2
        && (if |baseline| <= |candidate| then |baseline| - 1 else |candidate| - 1) as real
             <= e.degrees.value <= (|baseline| + |candidate| - 2) as real
  {
    if |baseline| >= 2 && |candidate| >= 2 {
      var a, b := Term(baseline), Term(candidate);
      TermNotNegative(baseline);
      TermNotNegative(candidate);
      if stat.root(a + b) > 0.0 {
        WelchBounds(a, b, (|baseline| - 1) as real, (|candidate| - 1) as real);
      }
    }
  }

  /** The degrees a comparison reports: one less than the paired cases, or Welch's, which lie
      between the smaller side's and the sum of both sides'. */
  lemma ComparedDegreesBounded(baseline: seq<real>, candidate: seq<real>, confidence: real, minDelta: real,
                               looks: int, pb: Option<Scores>, pc: Option<Scores>, stat: Calculus)
    requires forall x :: stat.root(x) > 0.0 ==> x > 0.0
    ensures var r := Compare(baseline, candidate, confidence, minDelta, looks, pb, pc, stat);
      r.Compared? && r.c.degrees.Some? ==>
        if r.c.pairedCases > 0 then r.c.degrees.value == (r.c.pairedCases - 1) as real
        else
          && |baseline| >= 2 && |candidate| >= 2
          && (if |baseline| <= |candidate| then |baseline| - 1 else |candidate| - 1) as real
               <= r.c.degrees.value <= (|baseline| + |candidate| - 2) as real
  {
    WelchEvidenceBounded(baseline, candidate, stat);
  }

  lemma PositiveQuotient(n: real, d: real)
    requires n > 0.0 && d > 0.0
    ensures n / d > 0.0
  {
    var r := n / d;
    assert r * d == n;
    if r <= 0.0 {
      ProductOfNonNegatives(-r, d);
      assert false;
    }
  }

  lemma NonNegativeQuotient(n: real, d: real)
    requires n >= 0.0 && d > 0.0
    ensures n / d >= 0.0
  {
    if n > 0.0 {
      PositiveQuotient(n, d);
    }
  }

  lemma PositiveSquareOver(a: real, p: real)
    requires a > 0.0 && p > 0.0
    ensures a * a / p > 0.0
  {
    SquareOver(a, p);
    PositiveQuotient(a, p);
    var u := a / p;
    ProductPositive(u, u * p);
    assert u * (u * p) == u * u * p;
  }

  lemma SpreadPositive(a: real, b: real, p: real, q: real)
    requires a >= 0.0 && b >= 0.0 && a + b > 0.0 && p > 0.0 && q > 0.0
    ensures a * a / p + b * b / q > 0.0
  {
    ProductOfNonNegatives(a, a);
    ProductOfNonNegatives(b, b);
    NonNegativeQuotient(a * a, p);
    NonNegativeQuotient(b * b, q);
    if a > 0.0 {
      PositiveSquareOver(a, p);
    } else {
      PositiveSquareOver(b, q);
    }
  }

  lemma ShrinkDivisor(n: real, m: real, p: real)
    requires n >= 0.0 && 0.0 < m <= p
    ensures n / p * m <= n
  {
    var r := n / p;
    assert r * p == n;
    assert r >= 0.0;
    ProductOfNonNegatives(r, p - m);
    assert r * (p - m) == r * p - r * m;
  }

  lemma SquareOfSum(a: real, b: real, m: real)
    requires a >= 0.0 && b >= 0.0
    ensures a * a + b * b <= (a + b) * (a + b)
  {
    ProductOfNonNegatives(a, b);
    assert (a + b) * (a + b) == a * a + b * b + 2.0 * (a * b);
  }

  lemma AtLeastFromProduct(n: real, d: real, m: real)
    requires d > 0.0 && d * m <= n
    ensures m <= n / d
  {
    var r := n / d;
    assert r * d == n;
    if r < m {
      ProductPositive(m - r, d);
      Distribute(m, r, d);
      assert false;
    }
  }

  lemma AtMostFromProduct(n: real, d: real, m: real)
    requires d > 0.0 && n <= d * m
    ensures n / d <= m
  {
    var r := n / d;
    assert r * d == n;
    if r > m {
      ProductPositive(r - m, d);
      Distribute(r, m, d);
      assert false;
    }
  }

  lemma ProductPositive(a: real, b: real)
    requires a > 0.0 && b > 0.0
    ensures a * b > 0.0
  {
  }

  lemma Distribute(a: real, b: real, c: real)
    ensures (a - b) * c == a * c - b * c
  {
  }

  /** The gap between the two sides is a square times `p * q`. */
  lemma SquareGap(u: real, v: real, p: real, q: real)
    ensures (u * u * p + v * v * q) * (p + q) - (u * p + v * q) * (u * p + v * q) == (p * q) * ((u - v) * (u - v))
  {
  }

  lemma SquareOver(a: real, p: real)
    requires p > 0.0
    ensures a / p * p == a && a * a / p == (a / p) * (a / p) * p
  {
    var u := a / p;
    assert u * p == a;
    assert (u * u * p) * p == (u * p) * (u * p);
    SameQuotient(a * a, p, u * u * p);
  }

  lemma SameQuotient(n: real, d: real, r: real)
    requires d > 0.0 && r * d == n
    ensures n / d == r
  {
  }

  /** The squared sum is at most the spread times the sum of the degrees. */
  lemma CauchySchwarz(a: real, b: real, p: real, q: real)
    requires p > 0.0 && q > 0.0
    ensures (a + b) * (a + b) <= (a * a / p + b * b / q) * (p + q)
  {
    var u, v := a / p, b / q;
    SquareOver(a, p);
    SquareOver(b, q);
    SquareGap(u, v, p, q);
    ProductOfNonNegatives(p, q);
    Square(u - v);
    ProductOfNonNegatives(p * q, (u - v) * (u - v));
  }

  lemma Square(x: real)
    ensures x * x >= 0.0
  {
  }

  // ----- looks -----

  /** The quantile is not negative above one half and grows with the probability. */
  ghost predicate QuantileGrows(stat: Calculus) {
    && (forall p, d :: 0.5 <= p ==> stat.quantile(p, d) >= 0.0)
    && (forall p, q, d :: 0.5 <= p <= q ==> stat.quantile(p, d) <= stat.quantile(q, d))
  }

  lemma QuotientTimes(n: real, d: real)
    requires d > 0.0
    ensures n / d * d == n
  {
  }

  lemma DividedByMore(n: real, few: real, many: real)
    requires n >= 0.0 && 0.0 < few <= many
    ensures n / many <= n / few
  {
    var x := n / few;
    QuotientTimes(n, few);
    NonNegativeQuotient(n, few);
    ProductOfNonNegatives(many - few, x);
    Distribute(many, few, x);
    AtMostFromProduct(n, many, x);
  }

  lemma DividedByOneOrMore(n: real, d: real)
    requires n >= 0.0 && d >= 1.0
    ensures n / d <= n
  {
    DividedByMore(n, 1.0, d);
  }

  lemma MoreLooksMoreConfidence(confidence: real, fewer: int, more: int)
    requires 0.0 < confidence < 1.0 && 1 <= fewer <= more
    ensures 0.0 < PerLook(confidence, fewer) <= PerLook(confidence, more)
  {
    DividedByMore(1.0 - confidence, fewer as real, more as real);
    DividedByOneOrMore(1.0 - confidence, fewer as real);
  }

  lemma QuantilesOrdered(stat: Calculus, p: real, q: real, d: real)
    requires QuantileGrows(stat) && 0.5 <= p <= q
    ensures 0.0 <= stat.quantile(p, d) <= stat.quantile(q, d)
  {
  }

  lemma MarginGrows(e: Evidence, confidence: real, fewer: int, more: int, stat: Calculus)
    requires QuantileGrows(stat) && 0.0 < confidence < 1.0 && 1 <= fewer <= more
    ensures 0.0 <= Margin(e, confidence, fewer, stat) <= Margin(e, confidence, more, stat)
  {
    MoreLooksMoreConfidence(confidence, fewer, more);
    if e.degrees.Some? && e.se > 0.0 {
      var p, q := 0.5 + PerLook(confidence, fewer) / 2.0, 0.5 + PerLook(confidence, more) / 2.0;
      var x, y := stat.quantile(p, e.degrees.value), stat.quantile(q, e.degrees.value);
      QuantilesOrdered(stat, p, q, e.degrees.value);
      ProductOfNonNegatives(x, e.se);
      ProductOfNonNegatives(y - x, e.se);
      Distribute(y, x, e.se);
    }
  }

  /** Acceptance with more looks implies acceptance with fewer. */
  lemma FewerLooksStillAccept(baseline: seq<real>, candidate: seq<real>, confidence: real, minDelta: real,
                              fewer: int, more: int, pb: Option<Scores>, pc: Option<Scores>, stat: Calculus)
    requires QuantileGrows(stat) && 1 <= fewer <= more
    requires var r := Compare(baseline, candidate, confidence, minDelta, more, pb, pc, stat);
      r.Compared? && r.c.verdict.Accepted?
    ensures var r := Compare(baseline, candidate, confidence, minDelta, fewer, pb, pc, stat);
      r.Compared? && r.c.verdict.Accepted?
  {
    var e := if pb.Some? || pc.Some? then PairedEvidence(pb.value, pc.value, stat)
             else WelchEvidence(baseline, candidate, stat);
    MarginGrows(e, confidence, fewer, more, stat);
  }

  // ----- swapping the sides -----

  function Swapped(v: Verdict): Verdict {
    match v
    case Accepted => Rejected
    case Rejected => Accepted
    case _ => v
  }

  lemma SwappedEvidence(baseline: seq<real>, candidate: seq<real>, stat: Calculus)
    requires baseline != [] && candidate != []
    ensures var e, f := WelchEvidence(baseline, candidate, stat), WelchEvidence(candidate, baseline, stat);
      f == e.(delta := -e.delta)
  {
    var a, b := Term(baseline), Term(candidate);
    assert a + b == b + a;
    if |baseline| >= 2 && |candidate| >= 2 {
      WelchSwaps(a, b, (|baseline| - 1) as real, (|candidate| - 1) as real);
    }
  }

  lemma WelchSwaps(a: real, b: real, p: real, q: real)
    requires p > 0.0 && q > 0.0
    ensures Welch(a, b, p, q) == Welch(b, a, q, p)
  {
    assert a + b == b + a;
  }

  lemma UnpairedVerdict(baseline: seq<real>, candidate: seq<real>, confidence: real, minDelta: real, looks: int,
                        stat: Calculus)
    requires baseline != [] && candidate != []
    requires 0.0 < confidence < 1.0 && looks >= 1 && minDelta >= 0.0
    ensures var r := Compare(baseline, candidate, confidence, minDelta, looks, None, None, stat);
      var e := WelchEvidence(baseline, candidate, stat);
      && r.Compared? && r.c.verdict == Judge(e, Margin(e, confidence, looks, stat), minDelta).0
      && e.delta == Mean(candidate) - Mean(baseline) && !e.paired
      && e.enough == (|baseline| >= 2 && |candidate| >= 2) && (!e.enough ==> e.degrees.None?)
  {
  }

  lemma JudgeSwaps(e: Evidence, f: Evidence, confidence: real, minDelta: real, looks: int, stat: Calculus)
    requires QuantileGrows(stat) && 0.0 < confidence < 1.0 && looks >= 1 && minDelta >= 0.0
    requires f == e.(delta := -e.delta) && !e.paired && (!e.enough ==> e.degrees.None?)
    ensures Judge(f, Margin(f, confidence, looks, stat), minDelta).0 ==
            Swapped(Judge(e, Margin(e, confidence, looks, stat), minDelta).0) <==>
            e.enough || Abs(e.delta) <= minDelta
  {
    MarginGrows(e, confidence, looks, looks, stat);
  }

  /** Swapping unpaired sides exchanges accepted and rejected and keeps the other verdicts,
      exactly when both sides have two samples or the means differ by no more than the
      threshold: a single sample a side can be rejected but not accepted. */
  lemma SwapExchanges(baseline: seq<real>, candidate: seq<real>, confidence: real, minDelta: real, looks: int,
                      stat: Calculus)
    requires QuantileGrows(stat) && baseline != [] && candidate != []
    requires 0.0 < confidence < 1.0 && looks >= 1 && minDelta >= 0.0
    ensures var r := Compare(baseline, candidate, confidence, minDelta, looks, None, None, stat);
      var s := Compare(candidate, baseline, confidence, minDelta, looks, None, None, stat);
      && r.Compared? && s.Compared?
      && (s.c.verdict == Swapped(r.c.verdict) <==>
          (|baseline| >= 2 && |candidate| >= 2) || Abs(Mean(candidate) - Mean(baseline)) <= minDelta)
  {
    SwappedEvidence(baseline, candidate, stat);
    UnpairedVerdict(baseline, candidate, confidence, minDelta, looks, stat);
    UnpairedVerdict(candidate, baseline, confidence, minDelta, looks, stat);
    JudgeSwaps(WelchEvidence(baseline, candidate, stat), WelchEvidence(candidate, baseline, stat),
               confidence, minDelta, looks, stat);
  }

  /** The smallest failing pair: one sample a side is rejected one way round, and not accepted
      the other. */
  lemma SingleSamplesDoNotSwap(stat: Calculus)
    requires QuantileGrows(stat)
    ensures var r := Compare([0.0], [1.0], 0.95, 0.0, 1, None, None, stat);
      var s := Compare([1.0], [0.0], 0.95, 0.0, 1, None, None, stat);
      && r.Compared? && s.Compared? && s.c.verdict.Rejected? && !r.c.verdict.Accepted?
      && s.c.verdict != Swapped(r.c.verdict)
  {
    SwapExchanges([0.0], [1.0], 0.95, 0.0, 1, stat);
    var e := WelchEvidence([1.0], [0.0], stat);
    assert Mean([1.0]) == 1.0 && Mean([0.0]) == 0.0;
    assert Margin(e, 0.95, 1, stat) == 0.0;
  }
}
