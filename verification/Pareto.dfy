/** Votes over matched evaluations, and the Pareto choice among them.

    Frontier coordinates are keyed by structured keys; `KeyText` is the text the program uses. */
module Pareto {
  import opened Options
  import A = Acceptance

  datatype Evaluation = Evaluation(score: real, selectable: bool, cases: map<string, real>,
                                   objectives: map<string, real>, pairs: map<(string, string), real>)

  datatype Vote = Vote(index: nat, samples: seq<real>, mean: real, objectives: map<string, real>,
                       cases: map<string, real>, pairs: map<(string, string), real>, selectable: bool)

  datatype Coordinates = Coordinates(cases: set<string>, objectives: set<string>, pairs: set<(string, string)>)

  datatype Mode = Instance | Objective | Hybrid | Cartesian | Unknown

  datatype Key = CaseKey(id: string) | ObjectiveKey(name: string) | PairKey(id: string, name: string)

  datatype Error = CoordinatesDiffer | NoneSelectable | UnknownMode | ObjectivesMissing | FrontiersDiffer

  datatype Tally = Tallied(votes: seq<Vote>) | Uneven

  datatype Choice = Chosen(index: nat) | Fault(error: Error)

  // ----- means over samples -----

  function Values<K(==)>(maps: seq<map<K, real>>, key: K): (r: seq<real>)
    ensures |r| <= |maps|
    ensures (forall i :: 0 <= i < |maps| ==> key in maps[i]) ==>
            |r| == |maps| && forall i :: 0 <= i < |maps| ==> r[i] == maps[i][key]
  {
    if maps == [] then []
    else if key in maps[0] then [maps[0][key]] + Values(maps[1..], key)
    else Values(maps[1..], key)
  }

  function KeysOf<K(!new,==)>(maps: seq<map<K, real>>): (r: set<K>)
    ensures forall k :: k in r <==> exists i :: 0 <= i < |maps| && k in maps[i]
  {
    if maps == [] then {}
    else
      var rest := KeysOf(maps[1..]);
      assert forall i :: 1 <= i < |maps| ==> maps[i] == maps[1..][i - 1];
      assert forall k :: k in rest ==> exists i :: 1 <= i < |maps| && k in maps[i] by {
        forall k | k in rest ensures exists i :: 1 <= i < |maps| && k in maps[i] {
          var j :| 0 <= j < |maps[1..]| && k in maps[1..][j];
          assert k in maps[j + 1];
        }
      }
      maps[0].Keys + rest
  }

  lemma {:induction false} SomeValue<K(!new)>(maps: seq<map<K, real>>, key: K)
    requires key in KeysOf(maps)
    ensures Values(maps, key) != []
  {
    if key !in maps[0] {
      SomeValue(maps[1..], key);
    }
  }

  /** Per key, the mean over the samples that have it. */
  function MeanMap<K(!new,==)>(maps: seq<map<K, real>>): map<K, real> {
    map k | k in KeysOf(maps) :: MeanAt(maps, k)
  }

  function MeanAt<K(!new,==)>(maps: seq<map<K, real>>, key: K): real
    requires key in KeysOf(maps)
  {
    SomeValue(maps, key);
    A.Mean(Values(maps, key))
  }

  // ----- votes -----

  function CoordinatesOf(e: Evaluation): Coordinates {
    Coordinates(e.cases.Keys, e.objectives.Keys, e.pairs.Keys)
  }

  /** Selectable samples of one candidate expose one coordinate set. */
  predicate Matching(samples: seq<Evaluation>) {
    forall i, j :: 0 <= i < |samples| && 0 <= j < |samples| && samples[i].selectable && samples[j].selectable ==>
      CoordinatesOf(samples[i]) == CoordinatesOf(samples[j])
  }

  predicate AllSelectable(samples: seq<Evaluation>) {
    forall i :: 0 <= i < |samples| ==> samples[i].selectable
  }

  /** Candidates selectable on every sample expose one coordinate set. */
  predicate Agreeing(evaluations: seq<seq<Evaluation>>) {
    forall i, j :: 0 <= i < |evaluations| && 0 <= j < |evaluations| && evaluations[i] != [] && evaluations[j] != [] &&
                   AllSelectable(evaluations[i]) && AllSelectable(evaluations[j]) ==>
      CoordinatesOf(evaluations[i][0]) == CoordinatesOf(evaluations[j][0])
  }

  function Scores(samples: seq<Evaluation>): seq<real> {
    seq(|samples|, i requires 0 <= i < |samples| => samples[i].score)
  }

  function CasesOf(samples: seq<Evaluation>): seq<map<string, real>> {
    seq(|samples|, i requires 0 <= i < |samples| => samples[i].cases)
  }

  function ObjectivesOf(samples: seq<Evaluation>): seq<map<string, real>> {
    seq(|samples|, i requires 0 <= i < |samples| => samples[i].objectives)
  }

  function PairsOf(samples: seq<Evaluation>): seq<map<(string, string), real>> {
    seq(|samples|, i requires 0 <= i < |samples| => samples[i].pairs)
  }

  function VoteFor(index: nat, samples: seq<Evaluation>): Vote
    requires samples != []
  {
    Vote(index, Scores(samples), A.Mean(Scores(samples)), MeanMap(ObjectivesOf(samples)), MeanMap(CasesOf(samples)),
         MeanMap(PairsOf(samples)), AllSelectable(samples))
  }

  predicate Comparable(evaluations: seq<seq<Evaluation>>) {
    && (forall i :: 0 <= i < |evaluations| ==> Matching(evaluations[i]))
    && (forall i :: 0 <= i < |evaluations| ==> evaluations[i] != [])
    && Agreeing(evaluations)
  }

  function Votes(evaluations: seq<seq<Evaluation>>): Tally {
    if Comparable(evaluations) then
      Tallied(seq(|evaluations|, i requires 0 <= i < |evaluations| => VoteFor(i, evaluations[i])))
    else Uneven
  }

  // ----- frontier coordinates -----

  function CaseKeys(ids: set<string>): set<Key> {
    set id | id in ids :: CaseKey(id)
  }

  function ObjectiveKeys(names: set<string>): set<Key> {
    set name | name in names :: ObjectiveKey(name)
  }

  function PairKeys(pairs: set<(string, string)>): set<Key> {
    set p | p in pairs :: PairKey(p.0, p.1)
  }

  function ByCase(m: map<string, real>): (r: map<Key, real>)
    ensures r.Keys == CaseKeys(m.Keys)
    ensures forall k :: k in m ==> CaseKey(k) in r && r[CaseKey(k)] == m[k]
    ensures forall k :: k in r ==> k.CaseKey? && k.id in m
    ensures m != map[] ==> r != map[]
  {
    var r := map k | k in m :: CaseKey(k) := m[k];
    assert forall k :: k in m ==> CaseKey(k) in r;
    r
  }

  function ByObjective(m: map<string, real>): (r: map<Key, real>)
    ensures r.Keys == ObjectiveKeys(m.Keys)
    ensures forall k :: k in m ==> ObjectiveKey(k) in r && r[ObjectiveKey(k)] == m[k]
  {
    map k | k in m :: ObjectiveKey(k) := m[k]
  }

  function ByPair(m: map<(string, string), real>): (r: map<Key, real>)
    ensures r.Keys == PairKeys(m.Keys)
    ensures forall k :: k in m ==> PairKey(k.0, k.1) in r && r[PairKey(k.0, k.1)] == m[k]
  {
    map k | k in m :: PairKey(k.0, k.1) := m[k]
  }

  function FrontierCoordinates(vote: Vote, mode: Mode): Option<map<Key, real>>
    requires !mode.Unknown?
  {
    match mode
    case Instance => if vote.cases == map[] then None else Some(ByCase(vote.cases))
    case Objective => if vote.objectives == map[] then None else Some(ByObjective(vote.objectives))
    case Hybrid =>
      if vote.objectives == map[] then None else Some(ByCase(vote.cases) + ByObjective(vote.objectives))
    case Cartesian => if vote.pairs == map[] then None else Some(ByPair(vote.pairs))
  }

  function KeyText(key: Key): string {
    match key
    case CaseKey(id) => "case:" + id
    case ObjectiveKey(name) => "objective:" + name
    case PairKey(id, name) => "case:" + id + ":objective:" + name
  }

  predicate Beats(left: map<Key, real>, right: map<Key, real>) {
    && left.Keys == right.Keys
    && left != map[]
    && (forall k :: k in left ==> left[k] >= right[k])
    && exists k :: k in left && left[k] > right[k]
  }

  predicate Dominates(left: Vote, right: Vote, mode: Mode)
    requires !mode.Unknown?
  {
    var a, b := FrontierCoordinates(left, mode), FrontierCoordinates(right, mode);
    a.Some? && b.Some? && Beats(a.value, b.value)
  }

  // ----- the choice -----

  function Selectable(votes: seq<Vote>): (r: seq<Vote>)
    ensures forall v :: v in r <==> v in votes && v.selectable
    ensures |r| <= |votes|
  {
    if votes == [] then []
    else if votes[0].selectable then [votes[0]] + Selectable(votes[1..])
    else Selectable(votes[1..])
  }

  predicate Unbeaten(vote: Vote, field: seq<Vote>, mode: Mode)
    requires !mode.Unknown?
  {
    forall i :: 0 <= i < |field| ==> !Dominates(field[i], vote, mode)
  }

  function Nondominated(votes: seq<Vote>, field: seq<Vote>, mode: Mode): (r: seq<Vote>)
    requires !mode.Unknown?
    ensures forall v :: v in r <==> v in votes && Unbeaten(v, field, mode)
  {
    if votes == [] then []
    else if Unbeaten(votes[0], field, mode) then [votes[0]] + Nondominated(votes[1..], field, mode)
    else Nondominated(votes[1..], field, mode)
  }

  /** The order `max` uses: mean first, then the lower index. */
  predicate Ahead(a: Vote, b: Vote) {
    a.mean > b.mean || (a.mean == b.mean && a.index < b.index)
  }

  /** Python's `max`: the first of the largest. */
  function Best(votes: seq<Vote>): (r: Vote)
    requires votes != []
    ensures r in votes
    ensures forall v :: v in votes ==> !Ahead(v, r)
  {
    if |votes| == 1 then votes[0]
    else
      var rest := Best(votes[1..]);
      assert votes == [votes[0]] + votes[1..];
      if Ahead(rest, votes[0]) then rest else votes[0]
  }

  predicate FrontiersAgree(votes: seq<Vote>, mode: Mode)
    requires !mode.Unknown?
  {
    && (forall i :: 0 <= i < |votes| ==> FrontierCoordinates(votes[i], mode).Some?)
    && forall i, j :: 0 <= i < |votes| && 0 <= j < |votes| ==>
         FrontierCoordinates(votes[i], mode).value.Keys == FrontierCoordinates(votes[j], mode).value.Keys
  }

  function Choose(votes: seq<Vote>, mode: Mode): Choice {
    var field := Selectable(votes);
    if field == [] then Fault(NoneSelectable)
    else if mode.Unknown? then Fault(UnknownMode)
    else if !mode.Instance? && exists i :: 0 <= i < |field| && FrontierCoordinates(field[i], mode).None? then
      Fault(ObjectivesMissing)
    else if !FrontiersAgree(field, mode) then Fault(FrontiersDiffer)
    else
      SomeNondominated(field, mode);
      Chosen(Best(Nondominated(field, field, mode)).index)
  }

  // ----- dominance -----

  /** Dominance is a strict partial order. */
  lemma DominanceIsStrict(a: Vote, b: Vote, c: Vote, mode: Mode)
    requires !mode.Unknown?
    ensures !Dominates(a, a, mode)
    ensures Dominates(a, b, mode) ==> !Dominates(b, a, mode)
    ensures Dominates(a, b, mode) && Dominates(b, c, mode) ==> Dominates(a, c, mode)
  {
    if Dominates(a, b, mode) && Dominates(b, c, mode) {
      BeatsTransitive(FrontierCoordinates(a, mode).value, FrontierCoordinates(b, mode).value,
                      FrontierCoordinates(c, mode).value);
    }
  }

  lemma BeatsTransitive(a: map<Key, real>, b: map<Key, real>, c: map<Key, real>)
    requires Beats(a, b) && Beats(b, c)
    ensures Beats(a, c)
  {
    var k :| k in a && a[k] > b[k];
    assert k in b && b[k] >= c[k];
    assert a[k] > c[k];
  }

  /** A finite set ordered by a strict partial order has a maximal element. */
  lemma {:induction false} SomeMaximal<T(!new)>(xs: seq<T>, beats: (T, T) -> bool) returns (at: nat)
    requires xs != []
    requires forall a :: !beats(a, a)
    requires forall a, b, c :: beats(a, b) && beats(b, c) ==> beats(a, c)
    ensures at < |xs| && forall i :: 0 <= i < |xs| ==> !beats(xs[i], xs[at])
    decreases |xs|
  {
    var last := |xs| - 1;
    at := last;
    if last > 0 {
      var m := SomeMaximal(xs[..last], beats);
      at := if beats(xs[last], xs[m]) then last else m;
      forall i | 0 <= i < |xs| ensures !beats(xs[i], xs[at]) {
        assert i < last ==> xs[..last][i] == xs[i];
        var x, l, y := xs[i], xs[last], xs[m];
        assert beats(x, l) && beats(l, y) ==> beats(x, y);
      }
    }
  }

  /** Every nonempty field has a vote nobody in it dominates. */
  lemma SomeUnbeaten(field: seq<Vote>, mode: Mode) returns (at: nat)
    requires field != [] && !mode.Unknown?
    ensures at < |field| && Unbeaten(field[at], field, mode)
  {
    var beats := (a: Vote, b: Vote) => Dominates(a, b, mode);
    forall a, b, c ensures !beats(a, a) && (beats(a, b) && beats(b, c) ==> beats(a, c)) {
      DominanceIsStrict(a, b, c, mode);
    }
    at := SomeMaximal(field, beats);
    forall i | 0 <= i < |field| ensures !Dominates(field[i], field[at], mode) {
      assert !beats(field[i], field[at]);
    }
  }

  lemma SomeNondominated(field: seq<Vote>, mode: Mode)
    requires field != [] && !mode.Unknown?
    ensures Nondominated(field, field, mode) != []
  {
    var at := SomeUnbeaten(field, mode);
    assert field[at] in Nondominated(field, field, mode);
  }

  ghost predicate Indexed(votes: seq<Vote>) {
    forall i :: 0 <= i < |votes| ==> votes[i].index == i
  }

  /** The best of some of the votes is ahead of all others of them. */
  lemma BestLeads(votes: seq<Vote>, some: seq<Vote>) returns (w: nat)
    requires Indexed(votes) && some != [] && forall v :: v in some ==> v in votes
    ensures w < |votes| && votes[w] == Best(some) && w == Best(some).index
    ensures forall i :: 0 <= i < |votes| && i != w && votes[i] in some ==> Ahead(votes[w], votes[i])
  {
    var best := Best(some);
    w :| 0 <= w < |votes| && votes[w] == best;
    forall i | 0 <= i < |votes| && i != w && votes[i] in some ensures Ahead(votes[w], votes[i]) {
      assert !Ahead(votes[i], best);
    }
  }

  /** The votes that the choice is made from. */
  function Unbeatens(votes: seq<Vote>, mode: Mode): seq<Vote>
    requires !mode.Unknown?
  {
    Nondominated(Selectable(votes), Selectable(votes), mode)
  }

  lemma UnbeatensAre(votes: seq<Vote>, mode: Mode, v: Vote)
    requires !mode.Unknown?
    ensures v in Unbeatens(votes, mode) <==> v in votes && v.selectable && Unbeaten(v, Selectable(votes), mode)
  {
  }

  lemma ChosenIsBest(votes: seq<Vote>, mode: Mode)
    requires !mode.Unknown? && Choose(votes, mode).Chosen?
    ensures Unbeatens(votes, mode) != [] && Choose(votes, mode).index == Best(Unbeatens(votes, mode)).index
  {
    SomeNondominated(Selectable(votes), mode);
  }

  /** The winner is selectable and not dominated, and every other such vote has a lower mean,
      or the same mean and a higher index. */
  lemma ParetoChoice(votes: seq<Vote>, mode: Mode)
    requires Indexed(votes) && !mode.Unknown? && Choose(votes, mode).Chosen?
    ensures var w := Choose(votes, mode).index;
      && w < |votes| && votes[w].selectable && Unbeaten(votes[w], Selectable(votes), mode)
      && forall i :: 0 <= i < |votes| && i != w && votes[i].selectable && Unbeaten(votes[i], Selectable(votes), mode) ==>
           Ahead(votes[w], votes[i])
  {
    ChosenIsBest(votes, mode);
    forall v ensures v in Unbeatens(votes, mode) <==> v in votes && v.selectable && Unbeaten(v, Selectable(votes), mode) {
      UnbeatensAre(votes, mode, v);
    }
    var w := BestLeads(votes, Unbeatens(votes, mode));
  }

  lemma ChosenIsUnbeaten(votes: seq<Vote>, mode: Mode, winner: nat)
    requires Indexed(votes) && Choose(votes, mode) == Chosen(winner)
    ensures winner < |votes| && votes[winner].selectable && Unbeaten(votes[winner], Selectable(votes), mode)
    ensures !mode.Unknown?
  {
    ParetoChoice(votes, mode);
  }
}
