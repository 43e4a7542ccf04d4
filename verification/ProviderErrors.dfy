/** Which provider failures need an operator: a search over a graph of causes, contexts and
    group members that may be cyclic, sharing one set of visited exceptions. */
module ProviderErrors {
  import opened Options

  /** `body` is the lowercased text of an HTTP error's body. */
  datatype Kind = ProviderStop | Http(status: int, body: string) | Group(children: seq<nat>) | Other

  datatype Node = Node(kind: Kind, cause: Option<nat>, context: Option<nat>)
  {
    /** `__cause__ or __context__` */
    function Next(): Option<nat> {
      if cause.Some? then cause else context
    }

    function Children(): seq<nat> {
      if kind.Group? then kind.children else []
    }
  }

  /** Exceptions by identity. */
  datatype Graph = Graph(nodes: seq<Node>)
  {
    function Ids(): set<nat> {
      set i: nat {:trigger nodes[i]} | i < |nodes|
    }

    predicate Closed() {
      forall i :: 0 <= i < |nodes| ==>
        && (nodes[i].Next().Some? ==> nodes[i].Next().value < |nodes|)
        && forall j :: 0 <= j < |nodes[i].Children()| ==> nodes[i].Children()[j] < |nodes|
    }
  }

  const STOP_CODES := [
    "billing_hard_limit_reached", "credit_balance_exhausted", "insufficient_quota",
    "organization_spend_limit_exceeded", "project_spend_limit_exceeded"]

  predicate Contains(text: string, part: string) {
    exists i :: 0 <= i <= |text| && part <= text[i..]
  }

  predicate MentionsStopCode(lowered: string) {
    exists i :: 0 <= i < |STOP_CODES| && Contains(lowered, STOP_CODES[i])
  }

  /** Stops by itself, whatever it is connected to. */
  predicate Direct(kind: Kind) {
    kind.ProviderStop? || (kind.Http? && (kind.status == 401 || kind.status == 403 || MentionsStopCode(kind.body)))
  }

  // ----- the search as a function -----

  /** The answer for the chain from `current`, and what has been visited after it. */
  function Chain(g: Graph, current: Option<nat>, seen: set<nat>): (r: (bool, set<nat>))
    requires g.Closed() && seen <= g.Ids() && (current.Some? ==> current.value < |g.nodes|)
    ensures seen <= r.1 <= g.Ids()
    decreases g.Ids() - seen, 0
  {
    if current.None? || current.value in seen then (false, seen)
    else
      var node := g.nodes[current.value];
      var visited := seen + {current.value};
      assert current.value in g.Ids() - seen && g.Ids() - visited < g.Ids() - seen;
      if Direct(node.kind) then (true, visited)
      else
        var members := All(g, node.Children(), 0, visited);
        if node.Children() != [] && members.0 then members
        else
          assert g.Ids() - members.1 <= g.Ids() - visited;
          Chain(g, node.Next(), members.1)
  }

  /** Whether every child from the `i`-th on stops on its own; the first that does not ends it. */
  function All(g: Graph, children: seq<nat>, i: nat, seen: set<nat>): (r: (bool, set<nat>))
    requires g.Closed() && seen <= g.Ids() && i <= |children|
    requires forall j :: 0 <= j < |children| ==> children[j] < |g.nodes|
    ensures seen <= r.1 <= g.Ids()
    decreases g.Ids() - seen, |children| - i + 1
  {
    if i == |children| then (true, seen)
    else
      var first := Chain(g, Some(children[i]), seen);
      assert g.Ids() - first.1 <= g.Ids() - seen;
      if first.0 then All(g, children, i + 1, first.1) else first
  }

  // ----- the search as a program -----

  /** The set shared by every part of one search. */
  class Seen {
    var ids: set<nat>

    constructor ()
      ensures ids == {}
    {
      ids := {};
    }
  }

  method IsStop(g: Graph, exc: nat, seen: Seen) returns (stop: bool)
    requires g.Closed() && exc < |g.nodes| && seen.ids <= g.Ids()
    modifies seen
    ensures (stop, seen.ids) == Chain(g, Some(exc), old(seen.ids))
    decreases g.Ids() - seen.ids
  {
    var current: Option<nat> := Some(exc);
    while current.Some? && current.value !in seen.ids
      invariant old(seen.ids) <= seen.ids <= g.Ids()
      invariant current.Some? ==> current.value < |g.nodes|
      invariant Chain(g, current, seen.ids) == Chain(g, Some(exc), old(seen.ids))
      decreases g.Ids() - seen.ids
    {
      ghost var before := seen.ids;
      assert current.value in g.Ids() - before;
      seen.ids := seen.ids + {current.value};
      ghost var visited := seen.ids;
      assert g.Ids() - visited < g.Ids() - before;
      var node := g.nodes[current.value];
      if Direct(node.kind) {
        return true;
      }
      var children := node.Children();
      var all, i := true, 0;
      while all && i < |children|
        invariant 0 <= i <= |children| && visited <= seen.ids <= g.Ids()
        invariant All(g, children, 0, visited) == if all then All(g, children, i, seen.ids) else (false, seen.ids)
      {
        assert g.Ids() - seen.ids <= g.Ids() - visited;
        all := IsStop(g, children[i], seen);
        i := i + 1;
      }
      if children != [] && all {
        return true;
      }
      current := node.Next();
    }
    stop := false;
  }

  /** `is_provider_stop_error` */
  method IsProviderStopError(g: Graph, exc: nat) returns (stop: bool)
    requires g.Closed() && exc < |g.nodes|
    ensures stop == Chain(g, Some(exc), {}).0
  {
    var seen := new Seen();
    stop := IsStop(g, exc, seen);
  }
}
