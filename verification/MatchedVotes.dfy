/** The Pareto choice on votes built from matched evaluations. */
module MatchedVotes {
  import opened Multiples
  import opened Options
  import opened Pareto
  import A = Acceptance

  // ----- coordinate agreement -----

  predicate HasCoordinates(c: Coordinates, mode: Mode)
    requires !mode.Unknown?
  {
    match mode
    case Instance => c.cases != {}
    case Objective => c.objectives != {}
    case Hybrid => c.objectives != {}
    case Cartesian => c.pairs != {}
  }

  function FrontierKeys(c: Coordinates, mode: Mode): set<Key>
    requires !mode.Unknown?
  {
    match mode
    case Instance => CaseKeys(c.cases)
    case Objective => ObjectiveKeys(c.objectives)
    case Hybrid => CaseKeys(c.cases) + ObjectiveKeys(c.objectives)
    case Cartesian => PairKeys(c.pairs)
  }

  lemma MeanKeepsKeys<K(!new)>(maps: seq<map<K, real>>)
    requires maps != [] && forall i :: 0 <= i < |maps| ==> maps[i].Keys == maps[0].Keys
    ensures MeanMap(maps).Keys == maps[0].Keys
  {
    forall k ensures k in KeysOf(maps) <==> k in maps[0] {
      if k in KeysOf(maps) {
        var i :| 0 <= i < |maps| && k in maps[i];
        assert k in maps[i].Keys;
      }
    }
  }

  function VoteCoordinates(v: Vote): Coordinates {
    Coordinates(v.cases.Keys, v.objectives.Keys, v.pairs.Keys)
  }

  lemma VoteKeepsCoordinates(index: nat, samples: seq<Evaluation>)
    requires samples != [] && AllSelectable(samples) && Matching(samples)
    ensures VoteCoordinates(VoteFor(index, samples)) == CoordinatesOf(samples[0])
  {
    forall i | 0 <= i < |samples| ensures CoordinatesOf(samples[i]) == CoordinatesOf(samples[0]) {
      assert samples[i].selectable && samples[0].selectable;
    }
    MeanKeepsKeys(CasesOf(samples));
    MeanKeepsKeys(ObjectivesOf(samples));
    MeanKeepsKeys(PairsOf(samples));
  }

  lemma FrontierFromCoordinates(v: Vote, mode: Mode)
    requires !mode.Unknown?
    ensures var f := FrontierCoordinates(v, mode);
      && (f.Some? <==> HasCoordinates(VoteCoordinates(v), mode))
      && (f.Some? ==> f.value.Keys == FrontierKeys(VoteCoordinates(v), mode))
  {
    assert v.cases == map[] <==> v.cases.Keys == {};
    assert v.objectives == map[] <==> v.objectives.Keys == {};
    assert v.pairs == map[] <==> v.pairs.Keys == {};
  }

  lemma FieldFrontiers(field: seq<Vote>, c: Coordinates, mode: Mode)
    requires !mode.Unknown? && forall i :: 0 <= i < |field| ==> VoteCoordinates(field[i]) == c
    ensures HasCoordinates(c, mode) ==> FrontiersAgree(field, mode)
    ensures forall i :: 0 <= i < |field| ==> (FrontierCoordinates(field[i], mode).Some? <==> HasCoordinates(c, mode))
  {
    forall i | 0 <= i < |field|
      ensures FrontierCoordinates(field[i], mode).Some? <==> HasCoordinates(c, mode)
      ensures HasCoordinates(c, mode) ==> FrontierCoordinates(field[i], mode).value.Keys == FrontierKeys(c, mode)
    {
      FrontierFromCoordinates(field[i], mode);
    }
  }

  lemma SelectableAgree(evaluations: seq<seq<Evaluation>>, i: nat, j: nat)
    requires Votes(evaluations).Tallied? && i < |evaluations| && j < |evaluations|
    requires var votes := Votes(evaluations).votes; votes[i].selectable && votes[j].selectable
    ensures var votes := Votes(evaluations).votes;
      VoteCoordinates(votes[i]) == VoteCoordinates(votes[j]) == CoordinatesOf(evaluations[i][0])
  {
    VoteKeepsCoordinates(i, evaluations[i]);
    VoteKeepsCoordinates(j, evaluations[j]);
    assert evaluations[i] != [] && evaluations[j] != [];
  }

  lemma MembersAgree(evaluations: seq<seq<Evaluation>>, i: nat, v: Vote)
    requires Votes(evaluations).Tallied? && i < |evaluations| && Votes(evaluations).votes[i].selectable
    requires v in Selectable(Votes(evaluations).votes)
    ensures VoteCoordinates(v) == CoordinatesOf(evaluations[i][0])
  {
    var votes := Votes(evaluations).votes;
    var j :| 0 <= j < |votes| && votes[j] == v;
    SelectableAgree(evaluations, i, j);
  }

  lemma ChooseOnField(votes: seq<Vote>, c: Coordinates, mode: Mode)
    requires !mode.Unknown? && Selectable(votes) != []
    requires var field := Selectable(votes); forall i :: 0 <= i < |field| ==> VoteCoordinates(field[i]) == c
    ensures Choose(votes, mode).Chosen? <==> HasCoordinates(c, mode)
  {
    var field := Selectable(votes);
    FieldFrontiers(field, c, mode);
    assert FrontierCoordinates(field[0], mode).Some? <==> HasCoordinates(c, mode);
  }

  /** On matched votes the frontiers always agree: the choice fails only when there is no
      selectable candidate or the mode's coordinates are missing from all of them. */
  lemma ChoiceExactly(evaluations: seq<seq<Evaluation>>, votes: seq<Vote>, mode: Mode, i: nat)
    requires Votes(evaluations) == Tallied(votes) && !mode.Unknown?
    requires i < |evaluations| && votes[i].selectable
    ensures Choose(votes, mode).Chosen? <==> HasCoordinates(CoordinatesOf(evaluations[i][0]), mode)
    ensures HasCoordinates(CoordinatesOf(evaluations[i][0]), mode) ==> FrontiersAgree(Selectable(votes), mode)
  {
    var c := CoordinatesOf(evaluations[i][0]);
    var field := Selectable(votes);
    assert votes[i] in votes && votes[i] in field;
    forall k | 0 <= k < |field| ensures VoteCoordinates(field[k]) == c {
      assert field[k] in field;
      MembersAgree(evaluations, i, field[k]);
    }
    FieldFrontiers(field, c, mode);
    ChooseOnField(votes, c, mode);
  }

  // ----- the winner in terms of the evaluations -----

  /** What one evaluation says at a coordinate. */
  function ReadAt(e: Evaluation, key: Key): Option<real> {
    match key
    case CaseKey(id) => if id in e.cases then Some(e.cases[id]) else None
    case ObjectiveKey(name) => if name in e.objectives then Some(e.objectives[name]) else None
    case PairKey(id, name) => if (id, name) in e.pairs then Some(e.pairs[(id, name)]) else None
  }

  /** The coordinates that count in a mode. */
  predicate Counts(mode: Mode, key: Key) {
    && (key.CaseKey? ==> mode.Instance? || mode.Hybrid?)
    && (key.ObjectiveKey? ==> mode.Objective? || mode.Hybrid?)
    && (key.PairKey? ==> mode.Cartesian?)
  }

  ghost predicate AllRead(samples: seq<Evaluation>, key: Key) {
    forall i :: 0 <= i < |samples| ==> ReadAt(samples[i], key).Some?
  }

  ghost function ReadsAt(samples: seq<Evaluation>, key: Key): (r: seq<real>)
    requires AllRead(samples, key)
    ensures |r| == |samples| && forall i :: 0 <= i < |r| ==> Some(r[i]) == ReadAt(samples[i], key)
  {
    seq(|samples|, i requires 0 <= i < |samples| => ReadAt(samples[i], key).value)
  }

  ghost function AverageAt(samples: seq<Evaluation>, key: Key): real
    requires samples != [] && AllRead(samples, key)
  {
    A.Mean(ReadsAt(samples, key))
  }

  /** Nowhere lower and somewhere higher, on average over the samples. */
  ghost predicate Better(a: seq<Evaluation>, b: seq<Evaluation>, mode: Mode) {
    && a != [] && b != []
    && (forall key :: Counts(mode, key) && AllRead(a, key) && AllRead(b, key) ==> AverageAt(a, key) >= AverageAt(b, key))
    && exists key :: Counts(mode, key) && AllRead(a, key) && AllRead(b, key) && AverageAt(a, key) > AverageAt(b, key)
  }

  lemma MeanMapReads<K(!new)>(maps: seq<map<K, real>>, key: K, found: seq<real>)
    requires maps != [] && |found| == |maps| && forall i :: 0 <= i < |maps| ==> key in maps[i] && maps[i][key] == found[i]
    ensures key in MeanMap(maps) && MeanMap(maps)[key] == A.Mean(found)
  {
    assert key in maps[0];
    assert Values(maps, key) == found;
  }

  /** What a vote says at a coordinate. */
  function VoteAt(v: Vote, key: Key): Option<real> {
    match key
    case CaseKey(id) => if id in v.cases then Some(v.cases[id]) else None
    case ObjectiveKey(name) => if name in v.objectives then Some(v.objectives[name]) else None
    case PairKey(id, name) => if (id, name) in v.pairs then Some(v.pairs[(id, name)]) else None
  }

  lemma FrontierReads(v: Vote, mode: Mode, key: Key)
    requires !mode.Unknown? && FrontierCoordinates(v, mode).Some?
    ensures var f := FrontierCoordinates(v, mode).value;
      && (key in f <==> Counts(mode, key) && VoteAt(v, key).Some?)
      && (key in f ==> f[key] == VoteAt(v, key).value)
  {
    if key.PairKey? {
      assert PairKey(key.id, key.name) == key;
      assert key in PairKeys(v.pairs.Keys) <==> (key.id, key.name) in v.pairs;
    }
  }

  lemma SameReads(samples: seq<Evaluation>, key: Key, i: nat)
    requires i < |samples| && AllSelectable(samples) && Matching(samples)
    ensures ReadAt(samples[i], key).Some? <==> ReadAt(samples[0], key).Some?
  {
    assert CoordinatesOf(samples[i]) == CoordinatesOf(samples[0]);
    var a, b := samples[i], samples[0];
    assert a.cases.Keys == b.cases.Keys && a.objectives.Keys == b.objectives.Keys && a.pairs.Keys == b.pairs.Keys;
  }

  lemma VoteReads(index: nat, samples: seq<Evaluation>, key: Key)
    requires samples != [] && AllSelectable(samples) && Matching(samples)
    ensures var r := VoteAt(VoteFor(index, samples), key);
      && (r.Some? <==> AllRead(samples, key))
      && (r.Some? ==> r.value == AverageAt(samples, key))
  {
    VoteKeepsCoordinates(index, samples);
    var v := VoteFor(index, samples);
    assert v.cases.Keys == samples[0].cases.Keys && v.objectives.Keys == samples[0].objectives.Keys
           && v.pairs.Keys == samples[0].pairs.Keys;
    forall i | 0 <= i < |samples| ensures ReadAt(samples[i], key).Some? <==> VoteAt(v, key).Some? {
      SameReads(samples, key, i);
    }
    if AllRead(samples, key) {
      MeanReads(index, samples, key);
    }
  }

  lemma CaseReads(index: nat, samples: seq<Evaluation>, id: string)
    requires samples != [] && AllRead(samples, CaseKey(id))
    ensures VoteAt(VoteFor(index, samples), CaseKey(id)) == Some(AverageAt(samples, CaseKey(id)))
  {
    var found := ReadsAt(samples, CaseKey(id));
    assert forall i :: 0 <= i < |samples| ==> Some(found[i]) == ReadAt(samples[i], CaseKey(id));
    MeanMapReads(CasesOf(samples), id, found);
  }

  lemma ObjectiveReads(index: nat, samples: seq<Evaluation>, name: string)
    requires samples != [] && AllRead(samples, ObjectiveKey(name))
    ensures VoteAt(VoteFor(index, samples), ObjectiveKey(name)) == Some(AverageAt(samples, ObjectiveKey(name)))
  {
    var found := ReadsAt(samples, ObjectiveKey(name));
    assert forall i :: 0 <= i < |samples| ==> Some(found[i]) == ReadAt(samples[i], ObjectiveKey(name));
    MeanMapReads(ObjectivesOf(samples), name, found);
  }

  lemma PairReads(index: nat, samples: seq<Evaluation>, id: string, name: string)
    requires samples != [] && AllRead(samples, PairKey(id, name))
    ensures VoteAt(VoteFor(index, samples), PairKey(id, name)) == Some(AverageAt(samples, PairKey(id, name)))
  {
    var found := ReadsAt(samples, PairKey(id, name));
    assert forall i :: 0 <= i < |samples| ==> Some(found[i]) == ReadAt(samples[i], PairKey(id, name));
    MeanMapReads(PairsOf(samples), (id, name), found);
  }

  lemma MeanReads(index: nat, samples: seq<Evaluation>, key: Key)
    requires samples != [] && AllRead(samples, key)
    ensures VoteAt(VoteFor(index, samples), key) == Some(AverageAt(samples, key))
  {
    match key
    case CaseKey(id) => CaseReads(index, samples, id);
    case ObjectiveKey(name) => ObjectiveReads(index, samples, name);
    case PairKey(id, name) => PairReads(index, samples, id, name);
  }

  /** The frontier of a vote holds the averages of the coordinates that count. */
  lemma FrontierAverages(index: nat, samples: seq<Evaluation>, mode: Mode, key: Key)
    requires samples != [] && AllSelectable(samples) && Matching(samples)
    requires !mode.Unknown? && FrontierCoordinates(VoteFor(index, samples), mode).Some?
    ensures var f := FrontierCoordinates(VoteFor(index, samples), mode).value;
      && (key in f <==> Counts(mode, key) && AllRead(samples, key))
      && (key in f ==> f[key] == AverageAt(samples, key))
  {
    FrontierReads(VoteFor(index, samples), mode, key);
    VoteReads(index, samples, key);
  }

  ghost predicate Averages(f: map<Key, real>, samples: seq<Evaluation>, mode: Mode)
    requires samples != []
  {
    && (forall key :: key in f <==> Counts(mode, key) && AllRead(samples, key))
    && (forall key :: key in f ==> f[key] == AverageAt(samples, key))
  }

  lemma FrontierIsAverages(index: nat, samples: seq<Evaluation>, mode: Mode)
    requires samples != [] && AllSelectable(samples) && Matching(samples)
    requires !mode.Unknown? && FrontierCoordinates(VoteFor(index, samples), mode).Some?
    ensures Averages(FrontierCoordinates(VoteFor(index, samples), mode).value, samples, mode)
  {
    var f := FrontierCoordinates(VoteFor(index, samples), mode).value;
    forall key
      ensures key in f <==> Counts(mode, key) && AllRead(samples, key)
      ensures key in f ==> f[key] == AverageAt(samples, key)
    {
      FrontierAverages(index, samples, mode, key);
    }
  }

  lemma BeatsIsBetter(f: map<Key, real>, g: map<Key, real>, a: seq<Evaluation>, b: seq<Evaluation>, mode: Mode)
    requires a != [] && b != [] && f.Keys == g.Keys && Averages(f, a, mode) && Averages(g, b, mode)
    ensures Beats(f, g) <==> Better(a, b, mode)
  {
    if Beats(f, g) {
      var key :| key in f && f[key] > g[key];
      assert key in g;
      assert AverageAt(a, key) > AverageAt(b, key);
    }
    if Better(a, b, mode) {
      var key :| Counts(mode, key) && AllRead(a, key) && AllRead(b, key) && AverageAt(a, key) > AverageAt(b, key);
      assert key in f && key in g && f[key] > g[key];
      forall k | k in f ensures f[k] >= g[k] {
        assert k in g;
        assert AverageAt(a, k) >= AverageAt(b, k);
      }
    }
  }

  lemma DominatesIsBetter(i: nat, a: seq<Evaluation>, j: nat, b: seq<Evaluation>, mode: Mode)
    requires a != [] && AllSelectable(a) && Matching(a) && b != [] && AllSelectable(b) && Matching(b)
    requires !mode.Unknown? && FrontiersMeet(VoteFor(i, a), VoteFor(j, b), mode)
    ensures Dominates(VoteFor(i, a), VoteFor(j, b), mode) <==> Better(a, b, mode)
  {
    FrontierIsAverages(i, a, mode);
    FrontierIsAverages(j, b, mode);
    var f, g := FrontierCoordinates(VoteFor(i, a), mode), FrontierCoordinates(VoteFor(j, b), mode);
    BeatsIsBetter(f.value, g.value, a, b, mode);
  }

  predicate FrontiersMeet(v: Vote, w: Vote, mode: Mode)
    requires !mode.Unknown?
  {
    var f, g := FrontierCoordinates(v, mode), FrontierCoordinates(w, mode);
    f.Some? && g.Some? && f.value.Keys == g.value.Keys
  }

  lemma FieldMeets(field: seq<Vote>, mode: Mode, a: nat, b: nat)
    requires !mode.Unknown? && FrontiersAgree(field, mode) && a < |field| && b < |field|
    ensures FrontiersMeet(field[a], field[b], mode)
  {
  }

  lemma PairMeets(field: seq<Vote>, mode: Mode, v: Vote, w: Vote)
    requires !mode.Unknown? && FrontiersAgree(field, mode) && v in field && w in field
    ensures FrontiersMeet(v, w, mode)
  {
    var a :| 0 <= a < |field| && field[a] == v;
    var b :| 0 <= b < |field| && field[b] == w;
    FieldMeets(field, mode, a, b);
  }

  /** Nobody whose samples are all selectable is better. */
  ghost predicate Undominated(evaluations: seq<seq<Evaluation>>, mode: Mode, i: nat)
    requires i < |evaluations|
  {
    && AllSelectable(evaluations[i])
    && forall j :: 0 <= j < |evaluations| && AllSelectable(evaluations[j]) ==> !Better(evaluations[j], evaluations[i], mode)
  }

  lemma SelectableDominance(evaluations: seq<seq<Evaluation>>, mode: Mode, j: nat, i: nat)
    requires Votes(evaluations).Tallied? && !mode.Unknown? && i < |evaluations| && j < |evaluations|
    requires FrontiersAgree(Selectable(Votes(evaluations).votes), mode)
    requires AllSelectable(evaluations[i]) && AllSelectable(evaluations[j])
    ensures var votes := Votes(evaluations).votes;
      Dominates(votes[j], votes[i], mode) <==> Better(evaluations[j], evaluations[i], mode)
  {
    var votes := Votes(evaluations).votes;
    assert votes[i] in votes && votes[j] in votes;
    PairMeets(Selectable(votes), mode, votes[j], votes[i]);
    DominatesIsBetter(j, evaluations[j], i, evaluations[i], mode);
  }

  ghost predicate NoneDominates(votes: seq<Vote>, v: Vote, mode: Mode)
    requires !mode.Unknown?
  {
    forall j :: 0 <= j < |votes| && votes[j].selectable ==> !Dominates(votes[j], v, mode)
  }

  lemma UnbeatenIff(votes: seq<Vote>, mode: Mode, v: Vote)
    requires !mode.Unknown?
    ensures Unbeaten(v, Selectable(votes), mode) <==> NoneDominates(votes, v, mode)
  {
    var field := Selectable(votes);
    if Unbeaten(v, field, mode) {
      forall j | 0 <= j < |votes| && votes[j].selectable ensures !Dominates(votes[j], v, mode) {
        assert votes[j] in field;
        var k :| 0 <= k < |field| && field[k] == votes[j];
      }
    }
    if NoneDominates(votes, v, mode) {
      forall k | 0 <= k < |field| ensures !Dominates(field[k], v, mode) {
        assert field[k] in field;
        var j :| 0 <= j < |votes| && votes[j] == field[k];
      }
    }
  }

  lemma DominatesNone(evaluations: seq<seq<Evaluation>>, mode: Mode, i: nat)
    requires Votes(evaluations).Tallied? && !mode.Unknown? && i < |evaluations| && AllSelectable(evaluations[i])
    requires FrontiersAgree(Selectable(Votes(evaluations).votes), mode)
    ensures NoneDominates(Votes(evaluations).votes, Votes(evaluations).votes[i], mode) <==> Undominated(evaluations, mode, i)
  {
    var votes := Votes(evaluations).votes;
    if Undominated(evaluations, mode, i) {
      forall j | 0 <= j < |votes| && votes[j].selectable ensures !Dominates(votes[j], votes[i], mode) {
        assert AllSelectable(evaluations[j]);
        SelectableDominance(evaluations, mode, j, i);
      }
    }
    if NoneDominates(votes, votes[i], mode) {
      forall j | 0 <= j < |evaluations| && AllSelectable(evaluations[j]) ensures !Better(evaluations[j], evaluations[i], mode) {
        assert votes[j].selectable;
        SelectableDominance(evaluations, mode, j, i);
      }
    }
  }

  lemma UndominatedIff(evaluations: seq<seq<Evaluation>>, mode: Mode, i: nat)
    requires Votes(evaluations).Tallied? && !mode.Unknown? && i < |evaluations|
    requires FrontiersAgree(Selectable(Votes(evaluations).votes), mode)
    ensures var votes := Votes(evaluations).votes;
      Undominated(evaluations, mode, i) <==> votes[i].selectable && Unbeaten(votes[i], Selectable(votes), mode)
  {
    var votes := Votes(evaluations).votes;
    UnbeatenIff(votes, mode, votes[i]);
    if AllSelectable(evaluations[i]) {
      DominatesNone(evaluations, mode, i);
    }
  }

  /** A lower mean score, or the same one and a later place. */
  ghost predicate Behind(a: seq<Evaluation>, i: nat, b: seq<Evaluation>, j: nat) {
    && a != [] && b != []
    && (A.Mean(Scores(a)) < A.Mean(Scores(b)) || (A.Mean(Scores(a)) == A.Mean(Scores(b)) && j < i))
  }

  /** The candidate that wins a matched vote, in terms of what was evaluated: all its samples are
      selectable, no such candidate is better on average in the coordinates that count, and of the
      others of which this is true each has a lower mean score, or the same and a later place. */
  lemma WinnerExactly(evaluations: seq<seq<Evaluation>>, mode: Mode, w: nat)
    requires Votes(evaluations).Tallied? && !mode.Unknown? && Choose(Votes(evaluations).votes, mode) == Chosen(w)
    ensures w < |evaluations| && Undominated(evaluations, mode, w)
    ensures forall i :: 0 <= i < |evaluations| && i != w && Undominated(evaluations, mode, i) ==>
              Behind(evaluations[i], i, evaluations[w], w)
  {
    var votes := Votes(evaluations).votes;
    ParetoChoice(votes, mode);
    ChosenFrontiersAgree(votes, mode);
    UndominatedIff(evaluations, mode, w);
    forall i | 0 <= i < |evaluations| && i != w && Undominated(evaluations, mode, i)
      ensures Behind(evaluations[i], i, evaluations[w], w)
    {
      UndominatedIff(evaluations, mode, i);
      AheadIsBehind(evaluations, w, i);
    }
  }

  lemma AheadIsBehind(evaluations: seq<seq<Evaluation>>, w: nat, i: nat)
    requires Votes(evaluations).Tallied? && w < |evaluations| && i < |evaluations|
    requires Ahead(Votes(evaluations).votes[w], Votes(evaluations).votes[i])
    ensures Behind(evaluations[i], i, evaluations[w], w)
  {
    assert evaluations[w] != [] && evaluations[i] != [];
  }

  lemma ChosenFrontiersAgree(votes: seq<Vote>, mode: Mode)
    requires !mode.Unknown? && Choose(votes, mode).Chosen?
    ensures FrontiersAgree(Selectable(votes), mode)
  {
  }

  // ----- instance mode is plain argmax -----

  ghost function Pick(keys: set<string>): string
    requires keys != {}
    ensures Pick(keys) in keys
  {
    var k :| k in keys; k
  }

  ghost function SumOver(keys: set<string>, m: map<string, real>): real
    requires keys <= m.Keys
  {
    if keys == {} then 0.0 else m[Pick(keys)] + SumOver(keys - {Pick(keys)}, m)
  }

  lemma {:induction false} SumGrows(keys: set<string>, a: map<string, real>, b: map<string, real>)
    requires keys <= a.Keys && keys <= b.Keys && forall k :: k in keys ==> a[k] >= b[k]
    ensures SumOver(keys, a) >= SumOver(keys, b)
    ensures (exists k :: k in keys && a[k] > b[k]) ==> SumOver(keys, a) > SumOver(keys, b)
  {
    if keys != {} {
      var p := Pick(keys);
      SumGrows(keys - {p}, a, b);
      if k :| k in keys && a[k] > b[k] {
        assert k == p || k in keys - {p};
      }
    }
  }

  /** An evaluation's score is the mean of its case scores, as when case ids are distinct. */
  ghost predicate ScoreIsCaseMean(e: Evaluation) {
    e.cases.Keys != {} && e.score == SumOver(e.cases.Keys, e.cases) / |e.cases.Keys| as real
  }

  ghost function Totals(maps: seq<map<string, real>>, keys: set<string>): (r: seq<real>)
    requires forall i :: 0 <= i < |maps| ==> keys <= maps[i].Keys
    ensures |r| == |maps| && forall i :: 0 <= i < |maps| ==> r[i] == SumOver(keys, maps[i])
  {
    if maps == [] then [] else [SumOver(keys, maps[0])] + Totals(maps[1..], keys)
  }

  lemma {:induction false} PeelKey(maps: seq<map<string, real>>, keys: set<string>)
    requires keys != {} && forall i :: 0 <= i < |maps| ==> keys <= maps[i].Keys
    ensures A.Sum(Totals(maps, keys)) == A.Sum(Values(maps, Pick(keys))) + A.Sum(Totals(maps, keys - {Pick(keys)}))
  {
    if maps != [] {
      PeelKey(maps[1..], keys);
      var rest := maps[1..];
      var p := Pick(keys);
      assert p in maps[0];
      assert Totals(maps, keys)[1..] == Totals(rest, keys);
      assert Totals(maps, keys - {p})[1..] == Totals(rest, keys - {p});
      assert Values(maps, p)[1..] == Values(rest, p);
    }
  }

  lemma {:induction false} NoKeys(maps: seq<map<string, real>>)
    ensures A.Sum(Totals(maps, {})) == 0.0
  {
    if maps != [] {
      NoKeys(maps[1..]);
      assert Totals(maps, {})[1..] == Totals(maps[1..], {});
    }
  }

  lemma MeanMapAt(maps: seq<map<string, real>>, key: string)
    requires maps != [] && forall i :: 0 <= i < |maps| ==> key in maps[i]
    ensures key in MeanMap(maps) && Times(|maps|, MeanMap(maps)[key]) == A.Sum(Values(maps, key))
  {
    assert key in maps[0];
    assert key in KeysOf(maps);
    assert |Values(maps, key)| == |maps|;
    assert MeanMap(maps)[key] == MeanAt(maps, key);
    TimesOfQuotient(|maps|, A.Sum(Values(maps, key)));
  }

  lemma {:induction false} ScaledKeys(keys: set<string>, mean: map<string, real>, sums: map<string, real>, n: nat)
    requires keys <= mean.Keys && keys <= sums.Keys && forall k :: k in keys ==> Times(n, mean[k]) == sums[k]
    ensures Times(n, SumOver(keys, mean)) == SumOver(keys, sums)
  {
    if keys == {} {
      TimesIsProduct(n, 0.0);
    } else {
      var p := Pick(keys);
      ScaledKeys(keys - {p}, mean, sums, n);
      TimesAdds(n, mean[p], SumOver(keys - {p}, mean));
    }
  }

  lemma {:induction false} ColumnSums(maps: seq<map<string, real>>, keys: set<string>, sums: map<string, real>)
    requires forall i :: 0 <= i < |maps| ==> keys <= maps[i].Keys
    requires keys <= sums.Keys && forall k :: k in keys ==> sums[k] == A.Sum(Values(maps, k))
    ensures SumOver(keys, sums) == A.Sum(Totals(maps, keys))
  {
    if keys == {} {
      NoKeys(maps);
    } else {
      PeelKey(maps, keys);
      ColumnSums(maps, keys - {Pick(keys)}, sums);
    }
  }

  /** Summing means over cases is averaging sums over samples. */
  lemma SumsExchange(maps: seq<map<string, real>>, keys: set<string>, mean: map<string, real>)
    requires forall i :: 0 <= i < |maps| ==> keys <= maps[i].Keys
    requires keys <= mean.Keys && forall k :: k in keys ==> Times(|maps|, mean[k]) == A.Sum(Values(maps, k))
    ensures Times(|maps|, SumOver(keys, mean)) == A.Sum(Totals(maps, keys))
  {
    var sums := map k | k in keys :: A.Sum(Values(maps, k));
    ScaledKeys(keys, mean, sums, |maps|);
    ColumnSums(maps, keys, sums);
  }

  lemma {:induction false} ScaledSum(xs: seq<real>, ys: seq<real>, c: nat)
    requires |xs| == |ys| && forall i :: 0 <= i < |xs| ==> ys[i] == Times(c, xs[i])
    ensures A.Sum(ys) == Times(c, A.Sum(xs))
  {
    if xs == [] {
      TimesIsProduct(c, 0.0);
    } else {
      ScaledSum(xs[1..], ys[1..], c);
      TimesAdds(c, xs[0], A.Sum(xs[1..]));
    }
  }

  /** The sums behind a mean of scores, when each score times `c` is a sum over `keys`. */
  lemma MeanOfSums(maps: seq<map<string, real>>, keys: set<string>, scores: seq<real>, c: nat)
    requires maps != [] && |scores| == |maps| && forall i :: 0 <= i < |maps| ==> maps[i].Keys == keys
    requires forall i :: 0 <= i < |maps| ==> Times(c, scores[i]) == SumOver(keys, maps[i])
    ensures MeanMap(maps).Keys == keys && Times(c, A.Mean(scores)) == SumOver(keys, MeanMap(maps))
  {
    MeanKeepsKeys(maps);
    var mean, n := MeanMap(maps), |maps|;
    forall k | k in keys ensures Times(n, mean[k]) == A.Sum(Values(maps, k)) {
      assert forall i :: 0 <= i < |maps| ==> k in maps[i].Keys;
      MeanMapAt(maps, k);
    }
    SumsExchange(maps, keys, mean);
    ScaledSum(scores, Totals(maps, keys), c);
    TimesOfQuotient(n, A.Sum(scores));
    TimesCommute(n, c, A.Mean(scores));
    TimesCancel(n, SumOver(keys, mean), Times(c, A.Mean(scores)));
  }

  ghost predicate CaseMeanVote(v: Vote, keys: set<string>) {
    v.cases.Keys == keys && Times(|keys|, v.mean) == SumOver(keys, v.cases)
  }

  lemma QuotientIsTimes(total: real, n: nat, score: real)
    requires n > 0 && score == total / n as real
    ensures Times(n, score) == total
  {
    TimesOfQuotient(n, total);
  }

  lemma SampleSum(e: Evaluation)
    requires ScoreIsCaseMean(e)
    ensures Times(|e.cases.Keys|, e.score) == SumOver(e.cases.Keys, e.cases)
  {
    var total, n := SumOver(e.cases.Keys, e.cases), |e.cases.Keys|;
    QuotientIsTimes(total, n, e.score);
  }

  /** A vote's mean score is the mean of its mean case scores. */
  lemma VoteScoreIsCaseMean(index: nat, samples: seq<Evaluation>)
    requires samples != [] && AllSelectable(samples) && Matching(samples)
    requires forall i :: 0 <= i < |samples| ==> ScoreIsCaseMean(samples[i])
    ensures CaseMeanVote(VoteFor(index, samples), samples[0].cases.Keys)
  {
    var keys := samples[0].cases.Keys;
    forall i | 0 <= i < |samples|
      ensures samples[i].cases.Keys == keys && Times(|keys|, samples[i].score) == SumOver(keys, samples[i].cases)
    {
      assert CoordinatesOf(samples[i]) == CoordinatesOf(samples[0]);
      SampleSum(samples[i]);
    }
    MeanOfSums(CasesOf(samples), keys, Scores(samples), |keys|);
  }

  lemma DominatingHasHigherMean(a: Vote, b: Vote, keys: set<string>)
    requires Dominates(a, b, Instance) && keys != {} && CaseMeanVote(a, keys) && CaseMeanVote(b, keys)
    ensures a.mean > b.mean
  {
    var x, y := FrontierCoordinates(a, Instance).value, FrontierCoordinates(b, Instance).value;
    forall k | k in keys ensures a.cases[k] >= b.cases[k] {
      assert CaseKey(k) in x;
      assert x[CaseKey(k)] >= y[CaseKey(k)];
    }
    var k :| k in x && x[k] > y[k];
    assert k.id in keys && a.cases[k.id] > b.cases[k.id];
    SumGrows(keys, a.cases, b.cases);
    if a.mean <= b.mean {
      TimesMoreEach(|keys|, a.mean, b.mean);
      assert false;
    }
  }

  lemma BestIsUnbeaten(field: seq<Vote>, keys: set<string>)
    requires field != [] && keys != {} && forall v :: v in field ==> CaseMeanVote(v, keys)
    ensures Unbeaten(Best(field), field, Instance)
    ensures Nondominated(field, field, Instance) != []
    ensures Best(Nondominated(field, field, Instance)).index == Best(field).index
  {
    var best := Best(field);
    forall i | 0 <= i < |field| ensures !Dominates(field[i], best, Instance) {
      assert field[i] in field;
      if Dominates(field[i], best, Instance) {
        DominatingHasHigherMean(field[i], best, keys);
        assert false;
      }
    }
    assert best in Nondominated(field, field, Instance);
    var r := Best(Nondominated(field, field, Instance));
    assert !Ahead(best, r) && !Ahead(r, best);
  }

  ghost predicate ScoresAreCaseMeans(evaluations: seq<seq<Evaluation>>) {
    forall i, j :: 0 <= i < |evaluations| && 0 <= j < |evaluations[i]| && AllSelectable(evaluations[i]) ==>
      ScoreIsCaseMean(evaluations[i][j])
  }

  lemma MemberIsCaseMean(evaluations: seq<seq<Evaluation>>, b: nat, v: Vote)
    requires Votes(evaluations).Tallied? && ScoresAreCaseMeans(evaluations)
    requires b < |evaluations| && Votes(evaluations).votes[b].selectable && v in Selectable(Votes(evaluations).votes)
    ensures CaseMeanVote(v, evaluations[b][0].cases.Keys)
  {
    var votes := Votes(evaluations).votes;
    var o :| 0 <= o < |votes| && votes[o] == v;
    VoteScoreIsCaseMean(o, evaluations[o]);
    SelectableAgree(evaluations, b, o);
    assert VoteCoordinates(v).cases == CoordinatesOf(evaluations[b][0]).cases;
  }

  /** With scores that are case means, "instance" mode is plain argmax. */
  lemma InstanceIsArgmax(evaluations: seq<seq<Evaluation>>)
    requires Votes(evaluations).Tallied? && Selectable(Votes(evaluations).votes) != []
    requires ScoresAreCaseMeans(evaluations)
    ensures var votes := Votes(evaluations).votes;
      Choose(votes, Instance) == Chosen(Best(Selectable(votes)).index)
  {
    var votes := Votes(evaluations).votes;
    var field := Selectable(votes);
    var best := Best(field);
    var b :| 0 <= b < |votes| && votes[b] == best;
    assert ScoreIsCaseMean(evaluations[b][0]);
    ChoiceExactly(evaluations, votes, Instance, b);
    forall v | v in field ensures CaseMeanVote(v, evaluations[b][0].cases.Keys) {
      MemberIsCaseMean(evaluations, b, v);
    }
    BestIsUnbeaten(field, evaluations[b][0].cases.Keys);
  }

  // ----- coordinate texts -----

  ghost predicate FreeOfSeparator(id: string) {
    forall i, j :: 0 <= i && j == i + 10 && j <= |id| ==> id[i..j] != ":objective"
  }

  const SEPARATOR := ":objective:"

  lemma SeparatorAt(a: string, m: string, k: nat)
    requires k < 11
    ensures |a + SEPARATOR + m| >= |a| + 11 && (a + SEPARATOR + m)[|a| + k] == SEPARATOR[k]
  {
  }

  lemma SliceAtSeparator(a: string, m: string)
    ensures |a + SEPARATOR + m| >= |a| + 11 && (a + SEPARATOR + m)[|a|..|a| + 10] == ":objective"
  {
    assert (a + SEPARATOR + m)[|a|..|a| + 10] == SEPARATOR[..10];
  }

  lemma SliceBeforeSeparator(b: string, n: string, i: nat)
    requires i + 10 <= |b|
    ensures (b + SEPARATOR + n)[i..i + 10] == b[i..i + 10]
  {
  }

  lemma PairTextsApart(a: string, m: string, b: string, n: string)
    requires FreeOfSeparator(b) && |a| <= |b|
    requires a + SEPARATOR + m == b + SEPARATOR + n
    ensures a == b && m == n
  {
    var t := a + SEPARATOR + m;
    var d := |b| - |a|;
    if d >= 10 {
      SliceAtSeparator(a, m);
      SliceBeforeSeparator(b, n, |a|);
      assert false;
    } else if d > 0 {
      SeparatorAt(a, m, d);
      SeparatorAt(b, n, 0);
      assert false;
    } else {
      assert a == t[..|a|] == b;
      assert m == t[|a| + 11..] == n;
    }
  }

  lemma PairsApart(a: Key, b: Key)
    requires a.PairKey? && b.PairKey? && FreeOfSeparator(a.id) && FreeOfSeparator(b.id)
    requires KeyText(a) == KeyText(b)
    ensures a == b
  {
    assert KeyText(a)[5..] == a.id + SEPARATOR + a.name && KeyText(b)[5..] == b.id + SEPARATOR + b.name;
    if |a.id| <= |b.id| {
      PairTextsApart(a.id, a.name, b.id, b.name);
    } else {
      PairTextsApart(b.id, b.name, a.id, a.name);
    }
  }

  lemma SinglesApart(a: Key, b: Key)
    requires !a.PairKey? && !b.PairKey? && KeyText(a) == KeyText(b)
    ensures a == b
  {
    var x, y := KeyText(a), KeyText(b);
    assert x[0] == y[0];
    assert a.CaseKey? == b.CaseKey?;
    if a.CaseKey? {
      assert x[5..] == a.id && y[5..] == b.id;
    } else {
      assert x[10..] == a.name && y[10..] == b.name;
    }
  }

  /** In one mode the texts of coordinates are distinct; in cartesian mode, when no case id
      holds the separator. */
  lemma KeyTextsApart(a: Key, b: Key)
    requires a.PairKey? == b.PairKey?
    requires a.PairKey? ==> FreeOfSeparator(a.id) && FreeOfSeparator(b.id)
    ensures KeyText(a) == KeyText(b) <==> a == b
  {
    if KeyText(a) == KeyText(b) {
      if a.PairKey? {
        PairsApart(a, b);
      } else {
        SinglesApart(a, b);
      }
    }
  }

  /** Without that, two different pairs can share a text. */
  lemma PairTextsCollide()
    ensures KeyText(PairKey("a", "objective:b")) == KeyText(PairKey("a:objective", "b"))
    ensures PairKey("a", "objective:b") != PairKey("a:objective", "b")
  {
    assert "case:" + "a" + ":objective:" + "objective:b" == "case:" + "a:objective" + ":objective:" + "b";
  }
}
