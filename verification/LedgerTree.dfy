/** Ledgers in a tree: conservation over every sequence of responses.

    `meters[i]` has parent `parents[i]`, an earlier index.  `direct[i]` is history: the
    usage of the responses recorded at `i` itself. */
module LedgerTree {
  import opened Options
  import opened Meters
  import opened MeterChains

  datatype Tree = Tree(parents: seq<Option<nat>>, meters: seq<Meter>, direct: seq<Ledger>) {
    ghost predicate Valid() {
      && |parents| == |meters| == |direct|
      && forall i :: 0 <= i < |parents| && parents[i].Some? ==> parents[i].value < i
    }
  }

  /** The nodes from `i` to its root. */
  function Path(t: Tree, i: nat): (path: seq<nat>)
    requires t.Valid() && i < |t.meters|
    ensures forall k :: 0 <= k < |path| ==> path[k] < |t.meters|
    ensures path != [] && path[0] == i
    decreases i
  {
    [i] + (if t.parents[i].None? then [] else Path(t, t.parents[i].value))
  }

  function Along(t: Tree, path: seq<nat>): (chain: seq<Meter>)
    requires forall k :: 0 <= k < |path| ==> path[k] < |t.meters|
    ensures |chain| == |path|
    ensures forall k :: 0 <= k < |path| ==> chain[k] == t.meters[path[k]]
  {
    if path == [] then [] else [t.meters[path[0]]] + Along(t, path[1..])
  }

  datatype Event =
    | Record(node: nat, category: Category, response: Response)
    | CheckAt(node: nat)
    | CanStartAt(node: nat, category: Category, count: int, following: int, kind: Option<Kind>)
    | Admit(node: nat, rollout: Kind)
    | ReleaseAt(node: nat, rollout: Kind, reservation: real)
    | ObserveAt(node: nat, category: Category, rollout: Kind, requests: nat, dollars: real)

  /** Put a chain of ledgers back along a path. */
  function Write(meters: seq<Meter>, path: seq<nat>, chain: seq<Meter>): (r: seq<Meter>)
    requires |chain| == |path| && forall k :: 0 <= k < |path| ==> path[k] < |meters|
    ensures |r| == |meters|
    decreases |path|
  {
    if path == [] then meters else Write(meters[path[0] := chain[0]], path[1..], chain[1..])
  }

  function Pick(reserves: seq<real>, path: seq<nat>): (r: seq<real>)
    requires forall k :: 0 <= k < |path| ==> path[k] < |reserves|
    ensures |r| == |path|
    ensures forall k :: 0 <= k < |path| ==> r[k] == reserves[path[k]]
  {
    if path == [] then [] else [reserves[path[0]]] + Pick(reserves, path[1..])
  }

  /** One event, with the live reserves of all ledgers at that moment. */
  function Step(t: Tree, e: Event, reserves: seq<real>): (r: Tree)
    requires t.Valid() && |reserves| == |t.meters|
    ensures r.Valid() && r.parents == t.parents
  {
    if e.node >= |t.meters| then t
    else
      var path := Path(t, e.node);
      var chain := Along(t, path);
      var mine := Pick(reserves, path);
      match e
      case Record(i, category, response) =>
        t.(meters := Write(t.meters, path, RecordChain(chain, mine, category, response).0),
           direct := t.direct[i := t.direct[i].Add(category, response.Usage())])
      case CheckAt(i) => t.(meters := Write(t.meters, path, CheckChain(chain, mine).0))
      case CanStartAt(i, category, count, following, kind) =>
        t.(meters := Write(t.meters, path, CanStartChain(chain, mine, category, count, following, kind, true).0))
      case Admit(i, kind) =>
        if t.meters[i].Gated() then
          var (m, answer) := TryAdmit(t.meters[i], reserves[i], kind);
          t.(meters := t.meters[i := if answer.Admits? then Hold(m, kind, answer.reservation) else m])
        else t
      case ReleaseAt(i, kind, reservation) =>
        t.(meters := t.meters[i := Release(t.meters[i], kind, reservation)])
      case ObserveAt(i, category, kind, requests, dollars) =>
        t.(meters := Write(t.meters, path, ObserveChain(chain, category, kind, requests, dollars)))
  }

  function Run(t: Tree, events: seq<(Event, seq<real>)>): (r: Tree)
    requires t.Valid() && forall k :: 0 <= k < |events| ==> |events[k].1| == |t.meters|
    ensures r.Valid() && r.parents == t.parents && |r.meters| == |t.meters|
    decreases |events|
  {
    if events == [] then t else Run(Step(t, events[0].0, events[0].1), events[1..])
  }

  // ----- conservation -----

  /** The ledgers of the first `n` nodes that are children of `i`, added up. */
  function ChildrenOf(t: Tree, i: nat, n: nat): Ledger
    requires t.Valid() && n <= |t.meters|
  {
    if n == 0 then EMPTY_LEDGER
    else if t.parents[n - 1] == Some(i) then ChildrenOf(t, i, n - 1).Plus(t.meters[n - 1].ledger)
    else ChildrenOf(t, i, n - 1)
  }

  /** Every ledger is its direct charges plus its children's ledgers, but `debtor` is one
      `owed` short: it has not been charged yet. */
  ghost predicate Owing(t: Tree, debtor: Option<nat>, owed: Ledger)
    requires t.Valid()
  {
    forall i :: 0 <= i < |t.meters| ==>
      (if debtor == Some(i) then t.meters[i].ledger.Plus(owed) else t.meters[i].ledger)
      == t.direct[i].Plus(ChildrenOf(t, i, |t.meters|))
  }

  ghost predicate Conserved(t: Tree)
    requires t.Valid()
  {
    Owing(t, None, EMPTY_LEDGER)
  }

  lemma {:induction false} ChildCharged(t: Tree, u: Tree, j: nat, owed: Ledger, i: nat, n: nat)
    requires t.Valid() && u.Valid() && j < |t.meters| && u.parents == t.parents && |u.meters| == |t.meters|
    requires forall k :: 0 <= k < |t.meters| && k != j ==> u.meters[k].ledger == t.meters[k].ledger
    requires u.meters[j].ledger == t.meters[j].ledger.Plus(owed)
    requires n <= |t.meters|
    ensures ChildrenOf(u, i, n) ==
            if t.parents[j] == Some(i) && j < n then ChildrenOf(t, i, n).Plus(owed) else ChildrenOf(t, i, n)
  {
    if n > 0 {
      ChildCharged(t, u, j, owed, i, n - 1);
    }
  }

  lemma {:induction false} ChildrenSame(t: Tree, u: Tree, i: nat, n: nat)
    requires t.Valid() && u.Valid() && u.parents == t.parents && |u.meters| == |t.meters|
    requires forall k :: 0 <= k < |t.meters| ==> u.meters[k].ledger == t.meters[k].ledger
    requires n <= |t.meters|
    ensures ChildrenOf(u, i, n) == ChildrenOf(t, i, n)
  {
    if n > 0 {
      ChildrenSame(t, u, i, n - 1);
    }
  }

  function AsLedger(category: Category, usage: Spend): Ledger {
    EMPTY_LEDGER.Add(category, usage)
  }

  lemma AddIsPlus(l: Ledger, category: Category, usage: Spend)
    ensures l.Add(category, usage) == l.Plus(AsLedger(category, usage))
  {
  }

  /** Charging the debtor moves the debt to its parent. */
  lemma ChargeMovesDebt(t: Tree, u: Tree, i: nat, owed: Ledger)
    requires t.Valid() && u.Valid() && i < |t.meters| && u.parents == t.parents && u.direct == t.direct
    requires |u.meters| == |t.meters|
    requires forall k :: 0 <= k < |t.meters| && k != i ==> u.meters[k] == t.meters[k]
    requires u.meters[i].ledger == t.meters[i].ledger.Plus(owed)
    requires Owing(t, Some(i), owed)
    ensures Owing(u, t.parents[i], owed)
  {
    forall k | 0 <= k < |u.meters|
      ensures (if t.parents[i] == Some(k) then u.meters[k].ledger.Plus(owed) else u.meters[k].ledger)
              == u.direct[k].Plus(ChildrenOf(u, k, |u.meters|))
    {
      ChildCharged(t, u, i, owed, k, |t.meters|);
    }
  }

  lemma {:induction false} PathsDescend(t: Tree, i: nat)
    requires t.Valid() && i < |t.meters|
    ensures forall k :: 0 <= k < |Path(t, i)| ==> Path(t, i)[k] <= i
    ensures t.parents[i].Some? ==> Path(t, i)[1..] == Path(t, t.parents[i].value)
    decreases i
  {
    if t.parents[i].Some? {
      PathsDescend(t, t.parents[i].value);
    }
  }

  lemma {:induction false} PathsAgree(t: Tree, u: Tree, i: nat)
    requires t.Valid() && u.Valid() && t.parents == u.parents && i < |t.meters|
    ensures Path(t, i) == Path(u, i)
    decreases i
  {
    if t.parents[i].Some? {
      PathsAgree(t, u, t.parents[i].value);
    }
  }

  /** Charging a whole path pays the debt of its first node. */
  lemma {:induction false} PathPaysDebt(t: Tree, i: nat, chain: seq<Meter>, owed: Ledger)
    requires t.Valid() && i < |t.meters|
    requires |chain| == |Path(t, i)|
    requires forall k :: 0 <= k < |chain| ==> chain[k].ledger == t.meters[Path(t, i)[k]].ledger.Plus(owed)
    requires Owing(t, Some(i), owed)
    ensures Conserved(t.(meters := Write(t.meters, Path(t, i), chain)))
    decreases i
  {
    var path := Path(t, i);
    var charged := t.(meters := t.meters[i := chain[0]]);
    ChargeMovesDebt(t, charged, i, owed);
    if t.parents[i].Some? {
      var p := t.parents[i].value;
      PathsAgree(t, charged, p);
      PathsDescend(t, i);
      PathsDescend(t, p);
      forall k | 0 <= k < |chain[1..]|
        ensures chain[1..][k].ledger == charged.meters[Path(charged, p)[k]].ledger.Plus(owed)
      {
        assert chain[1..][k] == chain[k + 1] && Path(t, p)[k] == path[k + 1];
      }
      PathPaysDebt(charged, p, chain[1..], owed);
    }
  }

  /** A response noted at `i` but not yet charged anywhere is a debt of `i`. */
  lemma RecordIncursDebt(t: Tree, i: nat, category: Category, response: Response)
    requires t.Valid() && i < |t.meters| && Conserved(t)
    ensures Owing(t.(direct := t.direct[i := t.direct[i].Add(category, response.Usage())]), Some(i),
                  AsLedger(category, response.Usage()))
  {
    var owed := AsLedger(category, response.Usage());
    var u := t.(direct := t.direct[i := t.direct[i].Add(category, response.Usage())]);
    AddIsPlus(t.direct[i], category, response.Usage());
    forall k | 0 <= k < |u.meters|
      ensures (if k == i then u.meters[k].ledger.Plus(owed) else u.meters[k].ledger)
              == u.direct[k].Plus(ChildrenOf(u, k, |u.meters|))
    {
      ChildrenSame(t, u, k, |t.meters|);
      PlusSwaps(t.direct[k], ChildrenOf(t, k, |t.meters|), owed);
    }
  }

  lemma PlusSwaps(a: Ledger, b: Ledger, c: Ledger)
    ensures a.Plus(b).Plus(c) == a.Plus(c).Plus(b)
  {
  }

  lemma RecordConserves(t: Tree, i: nat, category: Category, response: Response, reserves: seq<real>)
    requires t.Valid() && i < |t.meters| == |reserves| && Conserved(t)
    ensures Conserved(Step(t, Record(i, category, response), reserves))
  {
    var owed := AsLedger(category, response.Usage());
    var u := t.(direct := t.direct[i := t.direct[i].Add(category, response.Usage())]);
    RecordIncursDebt(t, i, category, response);
    PathsAgree(t, u, i);
    var path := Path(t, i);
    var after := RecordChain(Along(t, path), Pick(reserves, path), category, response).0;
    RecordAdds(Along(t, path), Pick(reserves, path), category, response);
    PathPaysDebt(u, i, after, owed);
  }

  lemma RecordAdds(chain: seq<Meter>, reserves: seq<real>, category: Category, response: Response)
    requires Reserves(chain, reserves)
    ensures forall k :: 0 <= k < |chain| ==>
              RecordChain(chain, reserves, category, response).0[k].ledger
              == chain[k].ledger.Plus(AsLedger(category, response.Usage()))
  {
    RecordReachesAll(chain, reserves, category, response);
    forall k | 0 <= k < |chain|
      ensures chain[k].ledger.Add(category, response.Usage())
              == chain[k].ledger.Plus(AsLedger(category, response.Usage()))
    {
      AddIsPlus(chain[k].ledger, category, response.Usage());
    }
  }

  lemma {:induction false} WriteKeepsLedgers(meters: seq<Meter>, path: seq<nat>, chain: seq<Meter>)
    requires |chain| == |path| && forall k :: 0 <= k < |path| ==> path[k] < |meters|
    requires forall k :: 0 <= k < |path| ==> chain[k].ledger == meters[path[k]].ledger
    ensures forall k :: 0 <= k < |meters| ==> Write(meters, path, chain)[k].ledger == meters[k].ledger
    decreases |path|
  {
    if path != [] {
      var next := meters[path[0] := chain[0]];
      assert forall k :: 0 <= k < |path[1..]| ==> path[1..][k] == path[k + 1] && chain[1..][k] == chain[k + 1];
      WriteKeepsLedgers(next, path[1..], chain[1..]);
    }
  }

  lemma {:induction false} ObserveKeepsLedgers(chain: seq<Meter>, category: Category, kind: Kind, requests: nat,
                                               dollars: real)
    ensures forall k :: 0 <= k < |chain| ==>
              ObserveChain(chain, category, kind, requests, dollars)[k].ledger == chain[k].ledger
  {
    if chain != [] {
      ObserveKeepsLedgers(chain[1..], category, kind, requests, dollars);
      assert chain == [chain[0]] + chain[1..];
    }
  }

  /** Every other event leaves the ledgers alone. */
  lemma OtherEventsKeepLedgers(t: Tree, e: Event, reserves: seq<real>)
    requires t.Valid() && |reserves| == |t.meters| && !e.Record?
    ensures var u := Step(t, e, reserves);
      |u.meters| == |t.meters| && u.direct == t.direct
      && forall k :: 0 <= k < |t.meters| ==> u.meters[k].ledger == t.meters[k].ledger
  {
    if e.node < |t.meters| {
      var path := Path(t, e.node);
      var chain := Along(t, path);
      var mine := Pick(reserves, path);
      match e
      case CheckAt(_) =>
        CheckSeesEveryAncestor(chain, mine);
        WriteKeepsLedgers(t.meters, path, CheckChain(chain, mine).0);
      case CanStartAt(_, category, count, following, kind) =>
        RefusalStaysLocal(chain, mine, category, count, following, kind, true);
        WriteKeepsLedgers(t.meters, path, CanStartChain(chain, mine, category, count, following, kind, true).0);
      case ObserveAt(_, category, kind, requests, dollars) =>
        ObserveKeepsLedgers(chain, category, kind, requests, dollars);
        WriteKeepsLedgers(t.meters, path, ObserveChain(chain, category, kind, requests, dollars));
      case _ =>
    }
  }

  lemma StepConserves(t: Tree, e: Event, reserves: seq<real>)
    requires t.Valid() && |reserves| == |t.meters| && Conserved(t)
    ensures Conserved(Step(t, e, reserves))
  {
    if e.Record? {
      if e.node < |t.meters| {
        RecordConserves(t, e.node, e.category, e.response, reserves);
      }
    } else {
      OtherEventsKeepLedgers(t, e, reserves);
      var u := Step(t, e, reserves);
      forall k | 0 <= k < |u.meters|
        ensures u.meters[k].ledger == u.direct[k].Plus(ChildrenOf(u, k, |u.meters|))
      {
        ChildrenSame(t, u, k, |t.meters|);
      }
    }
  }

  /** Conservation: over any sequence of priced, unpriced and cap-breaking responses, checks,
      projections, admissions and observations, each ledger's requests, tokens and dollars are
      its direct charges plus its children's ledgers. */
  lemma {:induction false} LedgersConserve(t: Tree, events: seq<(Event, seq<real>)>)
    requires t.Valid() && forall k :: 0 <= k < |events| ==> |events[k].1| == |t.meters|
    requires Conserved(t)
    ensures Conserved(Run(t, events))
    decreases |events|
  {
    if events == [] {
      assert Owing(t, None, EMPTY_LEDGER);
    } else {
      StepConserves(t, events[0].0, events[0].1);
      var u := Step(t, events[0].0, events[0].1);
      assert |u.meters| == |t.meters|;
      LedgersConserve(u, events[1..]);
    }
  }

  // ----- what a ledger is made of -----

  /** `i` is `node` or an ancestor of it. */
  predicate Under(parents: seq<Option<nat>>, node: nat, i: nat)
    requires forall k :: 0 <= k < |parents| && parents[k].Some? ==> parents[k].value < k
    decreases node
  {
    node < |parents| && (node == i || (parents[node].Some? && Under(parents, parents[node].value, i)))
  }

  function UsageAt(parents: seq<Option<nat>>, e: Event, i: nat, category: Category): Spend
    requires forall k :: 0 <= k < |parents| && parents[k].Some? ==> parents[k].value < k
  {
    if e.Record? && e.category == category && Under(parents, e.node, i) then e.response.Usage() else NO_SPEND
  }

  /** The usage of one category recorded at `i` or below it, added up. */
  function Recorded(parents: seq<Option<nat>>, events: seq<(Event, seq<real>)>, i: nat, category: Category): Spend
    requires forall k :: 0 <= k < |parents| && parents[k].Some? ==> parents[k].value < k
  {
    if events == [] then NO_SPEND
    else UsageAt(parents, events[0].0, i, category).Plus(Recorded(parents, events[1..], i, category))
  }

  lemma SpendsAdd(a: Spend, b: Spend, c: Spend)
    ensures a.Plus(b).Plus(c) == a.Plus(b.Plus(c)) && a.Plus(NO_SPEND) == a
  {
  }

  /** The chain's category is one `usage` above what the path's ledgers hold. */
  ghost predicate Charges(meters: seq<Meter>, path: seq<nat>, chain: seq<Meter>, category: Category, usage: Spend) {
    && |chain| == |path| && (forall k :: 0 <= k < |path| ==> path[k] < |meters|)
    && forall k :: 0 <= k < |path| ==> chain[k].ledger.Of(category) == meters[path[k]].ledger.Of(category).Plus(usage)
  }

  lemma ChargesRest(meters: seq<Meter>, path: seq<nat>, chain: seq<Meter>, category: Category, usage: Spend)
    requires Charges(meters, path, chain, category, usage) && path != []
    requires forall k :: 1 <= k < |path| ==> path[k] != path[0]
    ensures Charges(meters[path[0] := chain[0]], path[1..], chain[1..], category, usage)
  {
    forall k | 0 <= k < |path[1..]|
      ensures chain[1..][k].ledger.Of(category)
              == meters[path[0] := chain[0]][path[1..][k]].ledger.Of(category).Plus(usage)
    {
      assert chain[1..][k] == chain[k + 1] && path[1..][k] == path[k + 1];
    }
  }

  /** A path is its node and the path of the node's parent, all below it. */
  lemma PathSplits(t: Tree, j: nat)
    requires t.Valid() && j < |t.meters|
    ensures t.parents[j].None? ==> Path(t, j) == [j]
    ensures t.parents[j].Some? ==> Path(t, j) == [j] + Path(t, t.parents[j].value)
    ensures forall k :: 1 <= k < |Path(t, j)| ==> Path(t, j)[k] < j
  {
    if t.parents[j].Some? {
      PathsDescend(t, t.parents[j].value);
    }
  }

  /** Writing a charged path charges its nodes and no others. */
  lemma {:induction false} PathCharged(t: Tree, j: nat, meters: seq<Meter>, path: seq<nat>, chain: seq<Meter>, i: nat,
                                       category: Category, usage: Spend)
    requires t.Valid() && j < |t.meters| && i < |meters| == |t.meters| && path == Path(t, j)
    requires Charges(meters, path, chain, category, usage)
    ensures Write(meters, path, chain)[i].ledger.Of(category) ==
            meters[i].ledger.Of(category).Plus(if Under(t.parents, j, i) then usage else NO_SPEND)
    decreases j
  {
    PathSplits(t, j);
    ChargesRest(meters, path, chain, category, usage);
    if t.parents[j].Some? {
      var p := t.parents[j].value;
      var next := meters[j := chain[0]];
      assert path[1..] == Path(t, p);
      PathCharged(t, p, next, path[1..], chain[1..], i, category, usage);
      UnderDescends(t.parents, p, i);
      assert Write(meters, path, chain) == Write(next, path[1..], chain[1..]);
      SpendsAdd(next[i].ledger.Of(category), NO_SPEND, NO_SPEND);
      assert Under(t.parents, j, i) <==> i == j || Under(t.parents, p, i);
    } else {
      assert path[1..] == [];
      assert Write(meters, path, chain) == meters[j := chain[0]];
      SpendsAdd(meters[i].ledger.Of(category), NO_SPEND, NO_SPEND);
    }
  }

  lemma {:induction false} UnderDescends(parents: seq<Option<nat>>, node: nat, i: nat)
    requires forall k :: 0 <= k < |parents| && parents[k].Some? ==> parents[k].value < k
    ensures Under(parents, node, i) ==> i <= node
    decreases node
  {
    if node < |parents| && parents[node].Some? {
      UnderDescends(parents, parents[node].value, i);
    }
  }

  lemma RecordCharge(t: Tree, path: seq<nat>, reserves: seq<real>, recorded: Category, response: Response,
                     category: Category)
    requires (forall k :: 0 <= k < |path| ==> path[k] < |t.meters|) && |reserves| == |path|
    ensures Charges(t.meters, path, RecordChain(Along(t, path), reserves, recorded, response).0, category,
                    if recorded == category then response.Usage() else NO_SPEND)
  {
    RecordAdds(Along(t, path), reserves, recorded, response);
    var after := RecordChain(Along(t, path), reserves, recorded, response).0;
    forall k | 0 <= k < |path|
      ensures after[k].ledger == t.meters[path[k]].ledger.Plus(AsLedger(recorded, response.Usage()))
    {
    }
  }

  lemma StepCharges(t: Tree, e: Event, reserves: seq<real>, i: nat, category: Category)
    requires t.Valid() && |reserves| == |t.meters| && i < |t.meters|
    ensures var u := Step(t, e, reserves);
      |u.meters| == |t.meters|
      && u.meters[i].ledger.Of(category) == t.meters[i].ledger.Of(category).Plus(UsageAt(t.parents, e, i, category))
  {
    if e.Record? && e.node < |t.meters| {
      var path := Path(t, e.node);
      var usage := if e.category == category then e.response.Usage() else NO_SPEND;
      RecordCharge(t, path, Pick(reserves, path), e.category, e.response, category);
      var after := RecordChain(Along(t, path), Pick(reserves, path), e.category, e.response).0;
      PathCharged(t, e.node, t.meters, path, after, i, category, usage);
    } else if !e.Record? {
      OtherEventsKeepLedgers(t, e, reserves);
    } else {
      SpendsAdd(t.meters[i].ledger.Of(category), NO_SPEND, NO_SPEND);
    }
  }

  /** A ledger is what it started with and the usage of every response recorded at it or below it:
      nothing is lost when recording raises, and nothing else is counted. */
  lemma {:induction false} LedgersAreResponses(t: Tree, events: seq<(Event, seq<real>)>, i: nat, category: Category)
    requires t.Valid() && (forall k :: 0 <= k < |events| ==> |events[k].1| == |t.meters|) && i < |t.meters|
    ensures Run(t, events).meters[i].ledger.Of(category) ==
            t.meters[i].ledger.Of(category).Plus(Recorded(t.parents, events, i, category))
    decreases |events|
  {
    if events != [] {
      var u := Step(t, events[0].0, events[0].1);
      StepCharges(t, events[0].0, events[0].1, i, category);
      LedgersAreResponses(u, events[1..], i, category);
      SpendsAdd(t.meters[i].ledger.Of(category), UsageAt(t.parents, events[0].0, i, category),
                Recorded(t.parents, events[1..], i, category));
    }
  }

  // ----- what an event does to the ledgers above its node -----

  lemma {:induction false} Written(t: Tree, j: nat, meters: seq<Meter>, path: seq<nat>, chain: seq<Meter>, i: nat)
    requires t.Valid() && j < |t.meters| && i < |meters| == |t.meters| && path == Path(t, j) && |chain| == |path|
    ensures i !in path ==> Write(meters, path, chain)[i] == meters[i]
    ensures forall k :: 0 <= k < |path| && path[k] == i ==> Write(meters, path, chain)[i] == chain[k]
    decreases j
  {
    PathSplits(t, j);
    var rest, next := path[1..], meters[j := chain[0]];
    if t.parents[j].Some? {
      assert rest == Path(t, t.parents[j].value);
      Written(t, t.parents[j].value, next, rest, chain[1..], i);
      assert forall k :: 1 <= k < |path| ==> rest[k - 1] == path[k] && chain[1..][k - 1] == chain[k];
      assert i in rest ==> i in path;
      assert i !in rest ==> next[i] == Write(meters, path, chain)[i];
    } else {
      assert rest == [];
    }
  }

  /** The ledgers that a call sees: those of its node and of the node's ancestors. */
  predicate Affected(t: Tree, u: Tree, node: nat, after: seq<Meter>)
    requires t.Valid() && node < |t.meters|
  {
    && |after| == |Path(t, node)| && |u.meters| == |t.meters| && u.parents == t.parents
    && (forall i :: 0 <= i < |t.meters| && i !in Path(t, node) ==> u.meters[i] == t.meters[i])
    && (forall k :: 0 <= k < |after| ==> u.meters[Path(t, node)[k]] == after[k])
  }

  lemma WrittenAffects(t: Tree, u: Tree, node: nat, after: seq<Meter>)
    requires t.Valid() && node < |t.meters| && u.parents == t.parents && |after| == |Path(t, node)|
    requires u.meters == Write(t.meters, Path(t, node), after)
    ensures Affected(t, u, node, after)
  {
    var path := Path(t, node);
    forall i | 0 <= i < |t.meters|
      ensures i !in path ==> u.meters[i] == t.meters[i]
      ensures forall k :: 0 <= k < |path| && path[k] == i ==> u.meters[i] == after[k]
    {
      Written(t, node, t.meters, path, after, i);
    }
  }

  /** A call on a node of the tree is the call on the chain of the node and its ancestors: what
      holds of chains holds on every path of the tree, and other ledgers see nothing. */
  lemma CallsFollowChains(t: Tree, e: Event, reserves: seq<real>)
    requires t.Valid() && |reserves| == |t.meters| && e.node < |t.meters|
    ensures var u := Step(t, e, reserves);
      var path := Path(t, e.node);
      var chain, mine := Along(t, path), Pick(reserves, path);
      && (e.Record? ==> Affected(t, u, e.node, RecordChain(chain, mine, e.category, e.response).0))
      && (e.CheckAt? ==> Affected(t, u, e.node, CheckChain(chain, mine).0))
      && (e.CanStartAt? ==>
            Affected(t, u, e.node, CanStartChain(chain, mine, e.category, e.count, e.following, e.kind, true).0))
      && (e.ObserveAt? ==> Affected(t, u, e.node, ObserveChain(chain, e.category, e.rollout, e.requests, e.dollars)))
      && (e.Admit? || e.ReleaseAt? ==> u == t.(meters := t.meters[e.node := u.meters[e.node]]))
    ensures e.Admit? || e.ReleaseAt? ==>
              var m, after := t.meters[e.node], Step(t, e, reserves).meters[e.node];
              after.active.Get(e.rollout) == m.active.Get(e.rollout)
                + if e.ReleaseAt? then -1 else if m.Gated() && TryAdmit(m, reserves[e.node], e.rollout).1.Admits? then 1 else 0
  {
    var u := Step(t, e, reserves);
    var path := Path(t, e.node);
    var chain, mine := Along(t, path), Pick(reserves, path);
    match e
    case Record(_, category, response) =>
      WrittenAffects(t, u, e.node, RecordChain(chain, mine, category, response).0);
    case CheckAt(_) =>
      WrittenAffects(t, u, e.node, CheckChain(chain, mine).0);
    case CanStartAt(_, category, count, following, kind) =>
      WrittenAffects(t, u, e.node, CanStartChain(chain, mine, category, count, following, kind, true).0);
    case ObserveAt(_, category, kind, requests, dollars) =>
      WrittenAffects(t, u, e.node, ObserveChain(chain, category, kind, requests, dollars));
    case _ =>
  }

  // ----- what is observed -----

  predicate SameObservations(a: Meter, b: Meter) {
    && a.observations == b.observations && a.kindDollars == b.kindDollars && a.highest == b.highest
    && a.reflectionObservations == b.reflectionObservations && a.rolloutObservations == b.rolloutObservations
  }

  lemma {:induction false} CheckObservesNothing(chain: seq<Meter>, reserves: seq<real>)
    requires Reserves(chain, reserves)
    ensures forall k :: 0 <= k < |chain| ==> SameObservations(chain[k], CheckChain(chain, reserves).0[k])
  {
    if chain != [] {
      CheckObservesNothing(chain[1..], reserves[1..]);
      assert forall k :: 1 <= k < |chain| ==> chain[k] == chain[1..][k - 1];
    }
  }

  lemma {:induction false} CanStartObservesNothing(chain: seq<Meter>, reserves: seq<real>, category: Category, count: int,
                                                   following: int, kind: Option<Kind>, stops: bool)
    requires Reserves(chain, reserves)
    ensures forall k :: 0 <= k < |chain| ==>
              SameObservations(chain[k], CanStartChain(chain, reserves, category, count, following, kind, stops).0[k])
  {
    if chain != [] {
      CanStartObservesNothing(chain[1..], reserves[1..], category, count, following, kind, false);
      assert forall k :: 1 <= k < |chain| ==> chain[k] == chain[1..][k - 1];
    }
  }

  lemma RecordObservesNothing(chain: seq<Meter>, reserves: seq<real>, category: Category, response: Response)
    requires Reserves(chain, reserves)
    ensures forall k :: 0 <= k < |chain| ==>
              SameObservations(chain[k], RecordChain(chain, reserves, category, response).0[k])
  {
    RecordExactly(chain, reserves, category, response);
  }

  lemma {:induction false} AllObserve(chain: seq<Meter>, category: Category, kind: Kind, requests: nat, dollars: real)
    ensures forall k :: 0 <= k < |chain| ==>
              ObserveChain(chain, category, kind, requests, dollars)[k] == Observe(chain[k], category, kind, requests, dollars)
  {
    if chain != [] {
      AllObserve(chain[1..], category, kind, requests, dollars);
      assert forall k :: 1 <= k < |chain| ==> chain[k] == chain[1..][k - 1];
    }
  }

  /** What a ledger learns from finished steps: the dollars of rollouts of one kind, and how many
      reflections and rollouts there were. */
  datatype Lesson = Lesson(seen: seq<real>, reflections: nat, rollouts: nat) {
    function Then(later: Lesson): Lesson {
      Lesson(seen + later.seen, reflections + later.reflections, rollouts + later.rollouts)
    }
  }

  const NOTHING := Lesson([], 0, 0)

  /** A step without a response teaches nothing. */
  function StepLesson(category: Category, rollout: Kind, requests: nat, dollars: real, kind: Kind): Lesson {
    if requests == 0 then NOTHING
    else if category.Reflection? then Lesson([], 1, 0)
    else Lesson(if rollout == kind then [dollars] else [], 0, 1)
  }

  /** What one event teaches a ledger about a kind: a step observed at or below the ledger. */
  function LessonAt(parents: seq<Option<nat>>, e: Event, i: nat, kind: Kind): Lesson
    requires forall k :: 0 <= k < |parents| && parents[k].Some? ==> parents[k].value < k
  {
    if e.ObserveAt? && Under(parents, e.node, i) then StepLesson(e.category, e.rollout, e.requests, e.dollars, kind)
    else NOTHING
  }

  function Lessons(parents: seq<Option<nat>>, events: seq<(Event, seq<real>)>, i: nat, kind: Kind): Lesson
    requires forall k :: 0 <= k < |parents| && parents[k].Some? ==> parents[k].value < k
  {
    if events == [] then NOTHING
    else LessonAt(parents, events[0].0, i, kind).Then(Lessons(parents, events[1..], i, kind))
  }

  function SumOf(xs: seq<real>): real {
    if xs == [] then 0.0 else xs[0] + SumOf(xs[1..])
  }

  lemma {:induction false} SumOfBoth(xs: seq<real>, ys: seq<real>)
    ensures SumOf(xs + ys) == SumOf(xs) + SumOf(ys)
  {
    if xs == [] {
      assert xs + ys == ys;
    } else {
      assert (xs + ys)[1..] == xs[1..] + ys;
      SumOfBoth(xs[1..], ys);
    }
  }

  /** From `a` to `b` a ledger has learned exactly this: it counts the steps, adds up the dollars
      and knows the highest. */
  ghost predicate Learned(a: Meter, b: Meter, kind: Kind, l: Lesson) {
    && b.observations.Get(kind) == a.observations.Get(kind) + |l.seen|
    && b.kindDollars.Get(kind) == a.kindDollars.Get(kind) + SumOf(l.seen)
    && (forall d :: d in l.seen ==> d <= b.highest.Get(kind)) && a.highest.Get(kind) <= b.highest.Get(kind)
    && (b.highest.Get(kind) == a.highest.Get(kind) || b.highest.Get(kind) in l.seen)
    && b.reflectionObservations == a.reflectionObservations + l.reflections
    && b.rolloutObservations == a.rolloutObservations + l.rollouts
  }

  lemma LearnedBoth(a: Meter, b: Meter, c: Meter, kind: Kind, x: Lesson, y: Lesson)
    requires Learned(a, b, kind, x) && Learned(b, c, kind, y)
    ensures Learned(a, c, kind, x.Then(y))
  {
    SumOfBoth(x.seen, y.seen);
    forall d | d in x.seen + y.seen ensures d <= c.highest.Get(kind) {
      assert d in x.seen || d in y.seen;
    }
  }

  lemma {:induction false} InPath(t: Tree, node: nat, i: nat)
    requires t.Valid() && node < |t.meters|
    ensures i in Path(t, node) <==> Under(t.parents, node, i)
    decreases node
  {
    PathSplits(t, node);
    if t.parents[node].Some? {
      InPath(t, t.parents[node].value, i);
    }
  }

  lemma ObserveLearns(m: Meter, category: Category, rollout: Kind, requests: nat, dollars: real, kind: Kind)
    ensures Learned(m, Observe(m, category, rollout, requests, dollars), kind,
                    StepLesson(category, rollout, requests, dollars, kind))
  {
    assert SumOf([dollars]) == dollars + SumOf([dollars][1..]);
  }

  lemma AffectedLearns(t: Tree, u: Tree, node: nat, after: seq<Meter>, i: nat, kind: Kind, l: Lesson)
    requires t.Valid() && node < |t.meters| && i < |t.meters| && Affected(t, u, node, after)
    requires forall k :: 0 <= k < |after| ==> Learned(t.meters[Path(t, node)[k]], after[k], kind, l)
    ensures Learned(t.meters[i], u.meters[i], kind, if Under(t.parents, node, i) then l else NOTHING)
  {
    InPath(t, node, i);
    if i in Path(t, node) {
      var k :| 0 <= k < |Path(t, node)| && Path(t, node)[k] == i;
      assert u.meters[Path(t, node)[k]] == after[k];
    }
  }

  /** Events that only charge or stop ledgers. */
  lemma QuietLearns(t: Tree, u: Tree, node: nat, chain: seq<Meter>, after: seq<Meter>, i: nat, kind: Kind)
    requires t.Valid() && node < |t.meters| && i < |t.meters| && Affected(t, u, node, after)
    requires chain == Along(t, Path(t, node)) && forall k :: 0 <= k < |after| ==> SameObservations(chain[k], after[k])
    ensures Learned(t.meters[i], u.meters[i], kind, NOTHING)
  {
    AffectedLearns(t, u, node, after, i, kind, NOTHING);
  }

  lemma ObserveStepLearns(t: Tree, e: Event, reserves: seq<real>, i: nat, kind: Kind)
    requires t.Valid() && |reserves| == |t.meters| && i < |t.meters| && e.node < |t.meters| && e.ObserveAt?
    ensures |Step(t, e, reserves).meters| == |t.meters|
    ensures Learned(t.meters[i], Step(t, e, reserves).meters[i], kind, LessonAt(t.parents, e, i, kind))
  {
    var path := Path(t, e.node);
    var chain := Along(t, path);
    var l := StepLesson(e.category, e.rollout, e.requests, e.dollars, kind);
    CallsFollowChains(t, e, reserves);
    AllObserve(chain, e.category, e.rollout, e.requests, e.dollars);
    var after := ObserveChain(chain, e.category, e.rollout, e.requests, e.dollars);
    forall k | 0 <= k < |after| ensures Learned(t.meters[path[k]], after[k], kind, l) {
      ObserveLearns(t.meters[path[k]], e.category, e.rollout, e.requests, e.dollars, kind);
    }
    AffectedLearns(t, Step(t, e, reserves), e.node, after, i, kind, l);
  }

  lemma QuietStepLearns(t: Tree, e: Event, reserves: seq<real>, i: nat, kind: Kind)
    requires t.Valid() && |reserves| == |t.meters| && i < |t.meters| && e.node < |t.meters|
    requires e.Record? || e.CheckAt? || e.CanStartAt?
    ensures |Step(t, e, reserves).meters| == |t.meters|
    ensures Learned(t.meters[i], Step(t, e, reserves).meters[i], kind, NOTHING)
  {
    var u, path := Step(t, e, reserves), Path(t, e.node);
    var chain, mine := Along(t, path), Pick(reserves, path);
    CallsFollowChains(t, e, reserves);
    match e
    case Record(_, category, response) =>
      RecordObservesNothing(chain, mine, category, response);
      QuietLearns(t, u, e.node, chain, RecordChain(chain, mine, category, response).0, i, kind);
    case CheckAt(_) =>
      CheckObservesNothing(chain, mine);
      QuietLearns(t, u, e.node, chain, CheckChain(chain, mine).0, i, kind);
    case CanStartAt(_, category, count, following, kindOf) =>
      CanStartObservesNothing(chain, mine, category, count, following, kindOf, true);
      QuietLearns(t, u, e.node, chain, CanStartChain(chain, mine, category, count, following, kindOf, true).0, i, kind);
  }

  lemma StepLearns(t: Tree, e: Event, reserves: seq<real>, i: nat, kind: Kind)
    requires t.Valid() && |reserves| == |t.meters| && i < |t.meters|
    ensures |Step(t, e, reserves).meters| == |t.meters|
    ensures Learned(t.meters[i], Step(t, e, reserves).meters[i], kind, LessonAt(t.parents, e, i, kind))
  {
    if e.node < |t.meters| {
      if e.ObserveAt? {
        ObserveStepLearns(t, e, reserves, i, kind);
      } else if e.Record? || e.CheckAt? || e.CanStartAt? {
        QuietStepLearns(t, e, reserves, i, kind);
      }
    }
  }

  /** Over any run a ledger's counts, dollars and highest cost of one kind are those of the steps that
      were observed at it or below it and had a response. */
  lemma {:induction false} ObservationsAreSteps(t: Tree, events: seq<(Event, seq<real>)>, i: nat, kind: Kind)
    requires t.Valid() && (forall k :: 0 <= k < |events| ==> |events[k].1| == |t.meters|) && i < |t.meters|
    ensures Learned(t.meters[i], Run(t, events).meters[i], kind, Lessons(t.parents, events, i, kind))
    decreases |events|
  {
    if events != [] {
      var u := Step(t, events[0].0, events[0].1);
      StepLearns(t, events[0].0, events[0].1, i, kind);
      ObservationsAreSteps(u, events[1..], i, kind);
      LearnedBoth(t.meters[i], u.meters[i], Run(t, events).meters[i], kind, LessonAt(t.parents, events[0].0, i, kind),
                  Lessons(t.parents, events[1..], i, kind));
    }
  }
}
