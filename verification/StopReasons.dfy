/** What the shared-set search for provider stops means: sound on every graph, exact when every
    link to an exception that stops and is already visited leads back to one that is still open. */
module StopReasons {
  import opened Options
  import opened ProviderErrors

  // ----- the least fixpoint -----

  /** `e` stops by a derivation of height at most `n` that never passes through `avoid`:
      it stops by itself, or every member of its group does, or what caused it does. */
  ghost predicate Stops(g: Graph, avoid: set<nat>, e: nat, n: nat)
    requires g.Closed() && e < |g.nodes|
    decreases n
  {
    n > 0 && e !in avoid &&
    var node := g.nodes[e];
    || Direct(node.kind)
    || (node.Children() != [] && forall j :: 0 <= j < |node.Children()| ==> Stops(g, avoid, node.Children()[j], n - 1))
    || (node.Next().Some? && Stops(g, avoid, node.Next().value, n - 1))
  }

  ghost predicate Provable(g: Graph, avoid: set<nat>, e: nat)
    requires g.Closed() && e < |g.nodes|
  {
    exists n: nat :: Stops(g, avoid, e, n)
  }

  lemma {:induction false} Taller(g: Graph, avoid: set<nat>, e: nat, n: nat, m: nat)
    requires g.Closed() && e < |g.nodes| && n <= m && Stops(g, avoid, e, n)
    ensures Stops(g, avoid, e, m)
    decreases n
  {
    var node := g.nodes[e];
    if Direct(node.kind) {
    } else if node.Next().Some? && Stops(g, avoid, node.Next().value, n - 1) {
      Taller(g, avoid, node.Next().value, n - 1, m - 1);
    } else {
      forall j | 0 <= j < |node.Children()| ensures Stops(g, avoid, node.Children()[j], m - 1) {
        Taller(g, avoid, node.Children()[j], n - 1, m - 1);
      }
    }
  }

  // ----- soundness -----

  lemma {:induction false} ChainSound(g: Graph, e: nat, seen: set<nat>)
    requires g.Closed() && e < |g.nodes| && seen <= g.Ids() && Chain(g, Some(e), seen).0
    ensures Provable(g, {}, e)
    decreases g.Ids() - seen, 0
  {
    var node := g.nodes[e];
    var visited := seen + {e};
    assert e in g.Ids() - seen && g.Ids() - visited < g.Ids() - seen;
    if Direct(node.kind) {
      assert Stops(g, {}, e, 1);
    } else {
      var members := All(g, node.Children(), 0, visited);
      var n: nat;
      if node.Children() != [] && members.0 {
        n := AllSound(g, node.Children(), 0, visited);
      } else {
        assert g.Ids() - members.1 <= g.Ids() - visited;
        ChainSound(g, node.Next().value, members.1);
        n :| Stops(g, {}, node.Next().value, n);
      }
      assert Stops(g, {}, e, n + 1);
    }
  }

  lemma {:induction false} AllSound(g: Graph, children: seq<nat>, i: nat, seen: set<nat>) returns (n: nat)
    requires g.Closed() && seen <= g.Ids() && i <= |children|
    requires (forall j :: 0 <= j < |children| ==> children[j] < |g.nodes|) && All(g, children, i, seen).0
    ensures forall j :: i <= j < |children| ==> Stops(g, {}, children[j], n)
    decreases g.Ids() - seen, |children| - i + 1
  {
    n := 0;
    if i < |children| {
      var first := Chain(g, Some(children[i]), seen);
      assert g.Ids() - first.1 <= g.Ids() - seen;
      ChainSound(g, children[i], seen);
      var m: nat :| Stops(g, {}, children[i], m);
      var rest := AllSound(g, children, i + 1, first.1);
      n := if m <= rest then rest else m;
      Taller(g, {}, children[i], m, n);
      forall j | i < j < |children| ensures Stops(g, {}, children[j], n) {
        Taller(g, {}, children[j], rest, n);
      }
    }
  }

  /** A positive answer is always justified, on every finite graph, cyclic or not. */
  lemma StopIsJustified(g: Graph, exc: nat)
    requires g.Closed() && exc < |g.nodes| && Chain(g, Some(exc), {}).0
    ensures Provable(g, {}, exc)
  {
    ChainSound(g, exc, {});
  }

  // ----- avoiding an open exception -----

  /** A derivation either avoids `c` or contains one of `c`. */
  lemma {:induction false} AvoidsOrUses(g: Graph, avoid: set<nat>, c: nat, e: nat, n: nat)
    requires g.Closed() && e < |g.nodes| && c < |g.nodes|
    requires Stops(g, avoid, e, n) && !Stops(g, avoid, c, n)
    ensures Stops(g, avoid + {c}, e, n)
    decreases n
  {
    var node := g.nodes[e];
    if Stops(g, avoid, c, n - 1) {
      Taller(g, avoid, c, n - 1, n);
      assert false;
    }
    if Direct(node.kind) {
    } else if node.Next().Some? && Stops(g, avoid, node.Next().value, n - 1) {
      AvoidsOrUses(g, avoid, c, node.Next().value, n - 1);
    } else {
      forall j | 0 <= j < |node.Children()| ensures Stops(g, avoid + {c}, node.Children()[j], n - 1) {
        AvoidsOrUses(g, avoid, c, node.Children()[j], n - 1);
      }
    }
  }

  lemma {:induction false} AvoidingLess(g: Graph, avoid: set<nat>, less: set<nat>, e: nat, n: nat)
    requires g.Closed() && e < |g.nodes| && less <= avoid && Stops(g, avoid, e, n)
    ensures Stops(g, less, e, n)
    decreases n
  {
    var node := g.nodes[e];
    if Direct(node.kind) {
    } else if node.Next().Some? && Stops(g, avoid, node.Next().value, n - 1) {
      AvoidingLess(g, avoid, less, node.Next().value, n - 1);
    } else {
      forall j | 0 <= j < |node.Children()| ensures Stops(g, less, node.Children()[j], n - 1) {
        AvoidingLess(g, avoid, less, node.Children()[j], n - 1);
      }
    }
  }

  /** The shortest derivation of `e` has a height. */
  lemma {:induction false} Shortest(g: Graph, avoid: set<nat>, e: nat, n: nat) returns (m: nat)
    requires g.Closed() && e < |g.nodes| && Stops(g, avoid, e, n)
    ensures 0 < m <= n && Stops(g, avoid, e, m) && !Stops(g, avoid, e, m - 1)
    decreases n
  {
    m := n;
    if Stops(g, avoid, e, n - 1) {
      m := Shortest(g, avoid, e, n - 1);
    }
  }

  /** One step of a derivation in which the premises avoid `e` itself. */
  ghost predicate OneStep(g: Graph, avoid: set<nat>, e: nat)
    requires g.Closed() && e < |g.nodes|
  {
    var node := g.nodes[e];
    || Direct(node.kind)
    || (node.Children() != [] && forall j :: 0 <= j < |node.Children()| ==> Provable(g, avoid, node.Children()[j]))
    || (node.Next().Some? && Provable(g, avoid, node.Next().value))
  }

  lemma {:induction false} CommonHeight(g: Graph, avoid: set<nat>, children: seq<nat>, i: nat) returns (n: nat)
    requires g.Closed() && i <= |children| && forall j :: 0 <= j < |children| ==> children[j] < |g.nodes|
    requires forall j :: i <= j < |children| ==> Provable(g, avoid, children[j])
    ensures forall j :: i <= j < |children| ==> Stops(g, avoid, children[j], n)
    decreases |children| - i
  {
    n := 0;
    if i < |children| {
      var m: nat :| Stops(g, avoid, children[i], m);
      var rest := CommonHeight(g, avoid, children, i + 1);
      n := if m <= rest then rest else m;
      Taller(g, avoid, children[i], m, n);
      forall j | i < j < |children| ensures Stops(g, avoid, children[j], n) {
        Taller(g, avoid, children[j], rest, n);
      }
    }
  }

  lemma StepBuilds(g: Graph, avoid: set<nat>, e: nat)
    requires g.Closed() && e < |g.nodes| && e !in avoid && OneStep(g, avoid + {e}, e)
    ensures Provable(g, avoid, e)
  {
    var node := g.nodes[e];
    var n: nat := 0;
    if Direct(node.kind) {
    } else if node.Next().Some? && Provable(g, avoid + {e}, node.Next().value) {
      n :| Stops(g, avoid + {e}, node.Next().value, n);
      AvoidingLess(g, avoid + {e}, avoid, node.Next().value, n);
    } else {
      n := CommonHeight(g, avoid + {e}, node.Children(), 0);
      forall j | 0 <= j < |node.Children()| ensures Stops(g, avoid, node.Children()[j], n) {
        AvoidingLess(g, avoid + {e}, avoid, node.Children()[j], n);
      }
    }
    assert Stops(g, avoid, e, n + 1);
  }

  lemma StepTaken(g: Graph, avoid: set<nat>, e: nat)
    requires g.Closed() && e < |g.nodes| && Provable(g, avoid, e)
    ensures e !in avoid && OneStep(g, avoid + {e}, e)
  {
    var any: nat :| Stops(g, avoid, e, any);
    var n := Shortest(g, avoid, e, any);
    var node := g.nodes[e];
    if Direct(node.kind) {
    } else if node.Next().Some? && Stops(g, avoid, node.Next().value, n - 1) {
      AvoidsOrUses(g, avoid, e, node.Next().value, n - 1);
    } else {
      forall j | 0 <= j < |node.Children()| ensures Provable(g, avoid + {e}, node.Children()[j]) {
        AvoidsOrUses(g, avoid, e, node.Children()[j], n - 1);
      }
    }
  }

  // ----- graphs in which no stop is shared -----

  /** A search tree: parents and depths of the exceptions. */
  datatype Shape = Shape(parent: seq<Option<nat>>, depth: seq<nat>)
  {
    ghost predicate Valid(g: Graph) {
      && |parent| == |depth| == |g.nodes|
      && forall v :: 0 <= v < |parent| && parent[v].Some? ==>
           parent[v].value < |parent| && depth[v] == depth[parent[v].value] + 1
    }

    /** `v` and everything above it. */
    ghost function Above(g: Graph, v: nat): (r: set<nat>)
      requires Valid(g) && v < |parent|
      ensures v in r && r <= g.Ids()
      decreases depth[v]
    {
      assert v in g.Ids() by { var node := g.nodes[v]; }
      if parent[v].None? then {v} else Above(g, parent[v].value) + {v}
    }
  }

  function Links(node: Node): seq<nat> {
    node.Children() + if node.Next().Some? then [node.Next().value] else []
  }

  /** The `i`-th link of `u` goes back to an exception above it, or to a child of its own that
      no other link of `u` goes to. */
  ghost predicate LinkUnshared(g: Graph, s: Shape, u: nat, i: nat)
    requires g.Closed() && s.Valid(g) && u < |g.nodes| && i < |Links(g.nodes[u])|
  {
    var links := Links(g.nodes[u]);
    var v := links[i];
    v < |g.nodes| &&
    (v in s.Above(g, u) ||
     (s.parent[v] == Some(u) && forall j :: 0 <= j < |links| && j != i ==> links[j] != v))
  }

  ghost predicate Unshared(g: Graph, s: Shape)
    requires g.Closed() && s.Valid(g)
  {
    forall u, i :: 0 <= u < |g.nodes| && 0 <= i < |Links(g.nodes[u])| ==> LinkUnshared(g, s, u, i)
  }

  /** The `i`-th link of `u` goes to an exception that does not stop, and everything above that
      one is above `u` too. Any number of links may do so. */
  ghost predicate LinkFails(g: Graph, s: Shape, u: nat, i: nat)
    requires g.Closed() && s.Valid(g) && u < |g.nodes| && i < |Links(g.nodes[u])|
  {
    var v := Links(g.nodes[u])[i];
    v < |g.nodes| && !Provable(g, {}, v) && s.Above(g, v) - {v} <= s.Above(g, u)
  }

  /** Exceptions that stop are not shared, except by links back to one still open. */
  ghost predicate StopsUnshared(g: Graph, s: Shape)
    requires g.Closed() && s.Valid(g)
  {
    forall u, i :: 0 <= u < |g.nodes| && 0 <= i < |Links(g.nodes[u])| ==>
      LinkUnshared(g, s, u, i) || LinkFails(g, s, u, i)
  }

  lemma LinksStay(g: Graph, u: nat)
    requires g.Closed() && u < |g.nodes|
    ensures var node := g.nodes[u];
      && (forall i :: 0 <= i < |Links(node)| ==> Links(node)[i] < |g.nodes|)
      && (forall i :: 0 <= i < |node.Children()| ==> Links(node)[i] == node.Children()[i])
      && (node.Next().Some? ==> |Links(node)| == |node.Children()| + 1 &&
                                Links(node)[|node.Children()|] == node.Next().value)
  {
  }

  lemma {:induction false} AboveNests(g: Graph, s: Shape, x: nat, v: nat)
    requires s.Valid(g) && v < |g.nodes| && x in s.Above(g, v)
    ensures x < |g.nodes| && s.Above(g, x) <= s.Above(g, v)
    ensures s.depth[x] <= s.depth[v] && (s.depth[x] == s.depth[v] ==> x == v)
    decreases s.depth[v]
  {
    if x != v {
      AboveNests(g, s, x, s.parent[v].value);
    }
  }

  /** Whatever a link of `u` goes to has nothing above it but what is above `u`. */
  lemma LinkStaysBelow(g: Graph, s: Shape, u: nat, i: nat)
    requires g.Closed() && s.Valid(g) && StopsUnshared(g, s) && u < |g.nodes| && i < |Links(g.nodes[u])|
    ensures var v := Links(g.nodes[u])[i]; v < |g.nodes| && s.Above(g, v) - {v} <= s.Above(g, u)
  {
    assert LinkUnshared(g, s, u, i) || LinkFails(g, s, u, i);
    var v := Links(g.nodes[u])[i];
    if v in s.Above(g, u) {
      AboveNests(g, s, v, u);
    }
  }

  // ----- what has been visited -----

  /** Whatever is visited was reached through its parent. */
  ghost predicate Upward(s: Shape, seen: set<nat>) {
    forall x :: 0 <= x < |s.parent| && x in seen && s.parent[x].Some? ==> s.parent[x].value in seen
  }

  /** `w` stops, is not visited, and only a link of its visited parent would visit it. */
  ghost predicate Waits(g: Graph, s: Shape, w: nat, seen: set<nat>)
    requires g.Closed() && s.Valid(g)
  {
    && w < |g.nodes| && w !in seen && Provable(g, {}, w)
    && s.parent[w].Some? && s.parent[w].value in seen
  }

  lemma VisitKeepsUpward(g: Graph, s: Shape, v: nat, seen: set<nat>)
    requires s.Valid(g) && v < |g.nodes| && s.Above(g, v) - {v} <= seen && Upward(s, seen)
    ensures Upward(s, seen + {v})
  {
    if s.parent[v].Some? {
      var p := s.parent[v].value;
      assert p in s.Above(g, p);
    }
  }

  /** No link of an exception that is being visited goes to one that waits for its own parent. */
  lemma LinkMissesWaiting(g: Graph, s: Shape, w: nat, v: nat, i: nat, seen: set<nat>)
    requires g.Closed() && s.Valid(g) && StopsUnshared(g, s) && v < |g.nodes| && i < |Links(g.nodes[v])|
    requires v !in seen && s.Above(g, v) - {v} <= seen && Waits(g, s, w, seen) && v != w
    ensures Links(g.nodes[v])[i] != w
  {
    assert LinkUnshared(g, s, v, i) || LinkFails(g, s, v, i);
  }

  lemma {:induction false} ChainKeeps(g: Graph, s: Shape, w: nat, v: nat, seen: set<nat>)
    requires g.Closed() && s.Valid(g) && StopsUnshared(g, s) && v < |g.nodes| && seen <= g.Ids()
    requires s.Above(g, v) - {v} <= seen && Upward(s, seen)
    ensures Upward(s, Chain(g, Some(v), seen).1)
    ensures Waits(g, s, w, seen) && v != w ==> Waits(g, s, w, Chain(g, Some(v), seen).1)
    decreases g.Ids() - seen, 0
  {
    if v !in seen {
      var node := g.nodes[v];
      var visited := seen + {v};
      assert v in g.Ids() - seen && g.Ids() - visited < g.Ids() - seen by { assert v in s.Above(g, v); }
      VisitKeepsUpward(g, s, v, seen);
      LinksStay(g, v);
      if Waits(g, s, w, seen) && v != w {
        forall i | 0 <= i < |Links(node)| ensures Links(node)[i] != w {
          LinkMissesWaiting(g, s, w, v, i, seen);
        }
      }
      if !Direct(node.kind) {
        AllKeeps(g, s, w, v, 0, visited);
        var members := All(g, node.Children(), 0, visited);
        if !(node.Children() != [] && members.0) && node.Next().Some? {
          assert g.Ids() - members.1 <= g.Ids() - visited;
          LinkStaysBelow(g, s, v, |node.Children()|);
          ChainKeeps(g, s, w, node.Next().value, members.1);
        }
      }
    }
  }

  lemma {:induction false} AllKeeps(g: Graph, s: Shape, w: nat, u: nat, i: nat, seen: set<nat>)
    requires g.Closed() && s.Valid(g) && StopsUnshared(g, s) && u < |g.nodes| && seen <= g.Ids()
    requires s.Above(g, u) <= seen && Upward(s, seen) && i <= |g.nodes[u].Children()|
    ensures var children := g.nodes[u].Children();
      var after := All(g, children, i, seen).1;
      && Upward(s, after)
      && (Waits(g, s, w, seen) && (forall j :: i <= j < |children| ==> children[j] != w) ==> Waits(g, s, w, after))
    decreases g.Ids() - seen, |g.nodes[u].Children()| - i + 1
  {
    var children := g.nodes[u].Children();
    if i < |children| {
      var first := Chain(g, Some(children[i]), seen);
      LinksStay(g, u);
      LinkStaysBelow(g, s, u, i);
      ChainKeeps(g, s, w, children[i], seen);
      if first.0 {
        assert g.Ids() - first.1 <= g.Ids() - seen;
        AllKeeps(g, s, w, u, i + 1, first.1);
      }
    }
  }

  // ----- exactness -----

  /** A link of the open exception `u` may be followed: it goes back, to an exception that does
      not stop, or to a child that is not visited. */
  ghost predicate Ready(g: Graph, s: Shape, u: nat, v: nat, seen: set<nat>)
    requires g.Closed() && s.Valid(g) && u < |g.nodes| && v < |g.nodes|
  {
    v in s.Above(g, u) || !Provable(g, {}, v) || (s.parent[v] == Some(u) && v !in seen)
  }

  lemma LinkReady(g: Graph, s: Shape, u: nat, j: nat, seen: set<nat>)
    requires g.Closed() && s.Valid(g) && StopsUnshared(g, s) && u < |g.nodes| && j < |Links(g.nodes[u])|
    requires Upward(s, seen) && u !in seen
    ensures Links(g.nodes[u])[j] < |g.nodes| && Ready(g, s, u, Links(g.nodes[u])[j], seen + {u})
  {
    assert LinkUnshared(g, s, u, j) || LinkFails(g, s, u, j);
    assert u in s.Above(g, u);
  }

  /** A link that is ready waits for its turn, or needs none. */
  lemma ReadyStays(g: Graph, s: Shape, u: nat, j: nat, seen: set<nat>, after: set<nat>)
    requires g.Closed() && s.Valid(g) && u < |g.nodes| && j < |Links(g.nodes[u])| && Links(g.nodes[u])[j] < |g.nodes|
    requires u in seen && Ready(g, s, u, Links(g.nodes[u])[j], seen)
    requires var w := Links(g.nodes[u])[j];
      Waits(g, s, w, seen) && w !in s.Above(g, u) ==> Waits(g, s, w, after)
    ensures Ready(g, s, u, Links(g.nodes[u])[j], after)
  {
  }

  /** A link to an exception that stops and is not open is the only one to it. */
  lemma OnlyLink(g: Graph, s: Shape, u: nat, i: nat, j: nat)
    requires g.Closed() && s.Valid(g) && StopsUnshared(g, s) && u < |g.nodes|
    requires i < |Links(g.nodes[u])| && j < |Links(g.nodes[u])| && i != j
    requires var w := Links(g.nodes[u])[j]; w < |g.nodes| && Provable(g, {}, w) && w !in s.Above(g, u)
    ensures Links(g.nodes[u])[i] != Links(g.nodes[u])[j]
  {
    assert LinkUnshared(g, s, u, j) || LinkFails(g, s, u, j);
  }

  lemma NotProvable(g: Graph, avoid: set<nat>, e: nat)
    requires g.Closed() && e < |g.nodes| && !Provable(g, {}, e)
    ensures !Provable(g, avoid, e)
  {
    if Provable(g, avoid, e) {
      var n: nat :| Stops(g, avoid, e, n);
      AvoidingLess(g, avoid, {}, e, n);
    }
  }

  lemma {:induction false} LinkExact(g: Graph, s: Shape, u: nat, v: nat, seen: set<nat>)
    requires g.Closed() && s.Valid(g) && StopsUnshared(g, s) && u < |g.nodes| && v < |g.nodes| && seen <= g.Ids()
    requires s.Above(g, u) <= seen && Upward(s, seen) && Ready(g, s, u, v, seen)
    ensures Chain(g, Some(v), seen).0 <==> Provable(g, s.Above(g, u), v)
    decreases g.Ids() - seen, 1
  {
    if v in s.Above(g, u) {
    } else if !Provable(g, {}, v) {
      NotProvable(g, s.Above(g, u), v);
      if Chain(g, Some(v), seen).0 {
        ChainSound(g, v, seen);
      }
    } else {
      assert s.Above(g, v) - {v} == s.Above(g, u);
      ChainExact(g, s, v, seen);
    }
  }

  /** The children of `u` from the `i`-th on. */
  lemma {:induction false} AllExact(g: Graph, s: Shape, u: nat, i: nat, seen: set<nat>)
    requires g.Closed() && s.Valid(g) && StopsUnshared(g, s) && u < |g.nodes| && seen <= g.Ids()
    requires s.Above(g, u) <= seen && Upward(s, seen) && i <= |g.nodes[u].Children()|
    requires forall j :: i <= j < |g.nodes[u].Children()| ==> Ready(g, s, u, g.nodes[u].Children()[j], seen)
    ensures var children := g.nodes[u].Children();
      All(g, children, i, seen).0 <==> forall j :: i <= j < |children| ==> Provable(g, s.Above(g, u), children[j])
    decreases g.Ids() - seen, |g.nodes[u].Children()| - i + 2
  {
    var children := g.nodes[u].Children();
    if i < |children| {
      var first := Chain(g, Some(children[i]), seen);
      LinkExact(g, s, u, children[i], seen);
      if first.0 {
        assert g.Ids() - first.1 <= g.Ids() - seen;
        LinksStay(g, u);
        LinkStaysBelow(g, s, u, i);
        ChainKeeps(g, s, u, children[i], seen);
        forall j | i < j < |children| ensures Ready(g, s, u, children[j], first.1) {
          FirstKeepsReady(g, s, u, i, j, seen);
        }
        AllExact(g, s, u, i + 1, first.1);
      }
    }
  }

  lemma FirstKeepsReady(g: Graph, s: Shape, u: nat, i: nat, j: nat, seen: set<nat>)
    requires g.Closed() && s.Valid(g) && StopsUnshared(g, s) && u < |g.nodes| && seen <= g.Ids()
    requires s.Above(g, u) <= seen && Upward(s, seen) && i < j < |g.nodes[u].Children()|
    requires Ready(g, s, u, g.nodes[u].Children()[j], seen)
    ensures Ready(g, s, u, g.nodes[u].Children()[j], Chain(g, Some(g.nodes[u].Children()[i]), seen).1)
  {
    var children := g.nodes[u].Children();
    LinksStay(g, u);
    LinkStaysBelow(g, s, u, i);
    ChainKeeps(g, s, children[j], children[i], seen);
    if Provable(g, {}, children[j]) && children[j] !in s.Above(g, u) {
      OnlyLink(g, s, u, i, j);
    }
    ReadyStays(g, s, u, j, seen, Chain(g, Some(children[i]), seen).1);
  }

  lemma MembersKeepReady(g: Graph, s: Shape, u: nat, seen: set<nat>)
    requires g.Closed() && s.Valid(g) && StopsUnshared(g, s) && u < |g.nodes| && seen <= g.Ids()
    requires s.Above(g, u) <= seen && Upward(s, seen) && g.nodes[u].Next().Some?
    requires Ready(g, s, u, g.nodes[u].Next().value, seen)
    ensures Ready(g, s, u, g.nodes[u].Next().value, All(g, g.nodes[u].Children(), 0, seen).1)
  {
    var children, last := g.nodes[u].Children(), g.nodes[u].Next().value;
    LinksStay(g, u);
    AllKeeps(g, s, last, u, 0, seen);
    if Provable(g, {}, last) && last !in s.Above(g, u) {
      forall i | 0 <= i < |children| ensures children[i] != last {
        OnlyLink(g, s, u, i, |children|);
      }
    }
    ReadyStays(g, s, u, |children|, seen, All(g, children, 0, seen).1);
  }

  lemma {:induction false} ChainExact(g: Graph, s: Shape, u: nat, seen: set<nat>)
    requires g.Closed() && s.Valid(g) && StopsUnshared(g, s) && u < |g.nodes| && seen <= g.Ids()
    requires s.Above(g, u) - {u} <= seen && Upward(s, seen) && u !in seen
    ensures Chain(g, Some(u), seen).0 <==> Provable(g, s.Above(g, u) - {u}, u)
    decreases g.Ids() - seen, 0
  {
    var node := g.nodes[u];
    var above, visited := s.Above(g, u), seen + {u};
    assert u in g.Ids() - seen && g.Ids() - visited < g.Ids() - seen;
    StepIff(g, above - {u}, u);
    assert above - {u} + {u} == above;
    if !Direct(node.kind) {
      VisitKeepsUpward(g, s, u, seen);
      LinksStay(g, u);
      forall j | 0 <= j < |Links(node)| ensures Ready(g, s, u, Links(node)[j], visited) {
        LinkReady(g, s, u, j, seen);
      }
      AllExact(g, s, u, 0, visited);
      var members := All(g, node.Children(), 0, visited);
      if !(node.Children() != [] && members.0) && node.Next().Some? {
        MembersKeepReady(g, s, u, visited);
        AllKeeps(g, s, u, u, 0, visited);
        assert g.Ids() - members.1 <= g.Ids() - visited;
        LinkExact(g, s, u, node.Next().value, members.1);
      }
    }
  }

  lemma StepIff(g: Graph, avoid: set<nat>, e: nat)
    requires g.Closed() && e < |g.nodes| && e !in avoid
    ensures Provable(g, avoid, e) <==> OneStep(g, avoid + {e}, e)
  {
    if Provable(g, avoid, e) {
      StepTaken(g, avoid, e);
    } else if OneStep(g, avoid + {e}, e) {
      StepBuilds(g, avoid, e);
    }
  }

  /** The answer is exact when no exception that stops is shared, except by links back to one
      still open. Exceptions that do not stop may be shared freely below the one they all hang on. */
  lemma ExactWhenStopsAreUnshared(g: Graph, s: Shape, exc: nat)
    requires g.Closed() && s.Valid(g) && StopsUnshared(g, s) && exc < |g.nodes| && s.parent[exc].None?
    ensures Chain(g, Some(exc), {}).0 <==> Provable(g, {}, exc)
  {
    assert s.Above(g, exc) - {exc} == {};
    ChainExact(g, s, exc, {});
  }

  /** In particular it is exact when nothing at all is shared. */
  lemma ExactWithoutSharing(g: Graph, s: Shape, exc: nat)
    requires g.Closed() && s.Valid(g) && Unshared(g, s) && exc < |g.nodes| && s.parent[exc].None?
    ensures Chain(g, Some(exc), {}).0 <==> Provable(g, {}, exc)
  {
    ExactWhenStopsAreUnshared(g, s, exc);
  }

  /** A group of two failures with one shared billing cause: both stop, but the second is not
      seen to, because its cause was visited for the first. */
  function SharedCause(): Graph {
    Graph([Node(Group([1, 2]), None, None), Node(Kind.Other, Some(3), None), Node(Kind.Other, Some(3), None),
           Node(ProviderStop, None, None)])
  }

  lemma SharedMember(g: Graph, e: nat, seen: set<nat>)
    requires g == SharedCause() && g.Closed() && (e == 1 || e == 2) && e !in seen && seen <= g.Ids()
    ensures Chain(g, Some(e), seen) == if 3 in seen then (false, seen + {e}) else (true, seen + {e} + {3})
  {
    assert g.nodes[e].Children() == [] && g.nodes[e].Next() == Some(3);
    assert All(g, [], 0, seen + {e}) == (true, seen + {e});
    assert Chain(g, Some(3), seen + {e}) == if 3 in seen then (false, seen + {e}) else (true, seen + {e} + {3});
  }

  lemma SharedStops()
    ensures SharedCause().Closed() && Provable(SharedCause(), {}, 0)
  {
    var g := SharedCause();
    StopsAt(g, 3, 0);
    StopsAt(g, 1, 1);
    StopsAt(g, 2, 1);
    var n: nat := 3;
    assert forall j :: 0 <= j < |g.nodes[0].Children()| ==> Stops(g, {}, g.nodes[0].Children()[j], n - 1);
    assert Stops(g, {}, 0, n);
  }

  lemma StopsAt(g: Graph, e: nat, n: nat)
    requires g == SharedCause() && g.Closed() && 1 <= e <= 3
    requires n == if e == 3 then 0 else 1
    ensures Stops(g, {}, e, n + 1)
    decreases n
  {
    if e != 3 {
      StopsAt(g, 3, 0);
      assert g.nodes[e].Next() == Some(3);
    }
  }

  lemma SharingLosesAStop()
    ensures SharedCause().Closed()
    ensures !Chain(SharedCause(), Some(0), {}).0
    ensures Provable(SharedCause(), {}, 0)
  {
    var g := SharedCause();
    assert forall i :: 0 <= i < 4 ==> g.nodes[i].Next().None? || g.nodes[i].Next() == Some(3);
    SharedStops();
    SharedMember(g, 1, {0});
    SharedMember(g, 2, {0, 1, 3});
    assert {0} + {1} + {3} == {0, 1, 3};
    assert !All(g, [1, 2], 1, {0, 1, 3}).0;
    assert !All(g, [1, 2], 0, {0}).0;
    assert {} + {0} == {0} && g.nodes[0].Children() == [1, 2];
    assert !Chain(g, Some(0), {}).0;
  }

  /** The same group when the shared cause is an ordinary failure. */
  function SharedFailure(): Graph {
    Graph([Node(Group([1, 2]), None, None), Node(Kind.Other, Some(3), None), Node(Kind.Other, Some(3), None),
           Node(Kind.Other, None, None)])
  }

  lemma {:induction false} FailuresNeverStop(e: nat, n: nat)
    requires SharedFailure().Closed() && e < 4
    ensures !Stops(SharedFailure(), {}, e, n)
    decreases n
  {
    var g := SharedFailure();
    if n > 0 {
      if g.nodes[e].Next().Some? {
        FailuresNeverStop(3, n - 1);
      }
      if e == 0 {
        FailuresNeverStop(1, n - 1);
        assert g.nodes[0].Children()[0] == 1;
      }
    }
  }

  lemma CauseHangsOn(s: Shape, i: nat)
    requires SharedFailure().Closed() && s.Valid(SharedFailure()) && s.parent[0].None? && i < 2
    requires Unshared(SharedFailure(), s)
    ensures s.parent[3] == Some(i + 1)
  {
    var g := SharedFailure();
    assert s.Above(g, 0) == {0};
    assert LinkUnshared(g, s, 0, i) && Links(g.nodes[0])[i] == i + 1;
    assert s.Above(g, i + 1) == {0, i + 1};
    assert LinkUnshared(g, s, i + 1, 0) && Links(g.nodes[i + 1])[0] == 3;
  }

  /** The shared cause keeps every search tree from leaving nothing shared. */
  lemma SharedFailureIsShared(s: Shape)
    requires SharedFailure().Closed() && s.Valid(SharedFailure()) && s.parent[0].None?
    ensures !Unshared(SharedFailure(), s)
  {
    if Unshared(SharedFailure(), s) {
      CauseHangsOn(s, 0);
      CauseHangsOn(s, 1);
      assert false;
    }
  }

  /** Yet nothing that stops is shared. */
  lemma SharedFailureCostsNothing() returns (s: Shape)
    ensures SharedFailure().Closed() && s.Valid(SharedFailure()) && s.parent[0].None?
    ensures StopsUnshared(SharedFailure(), s)
  {
    var g := SharedFailure();
    s := Shape([None, Some(0), Some(0), Some(0)], [0, 1, 1, 1]);
    forall v | 1 <= v < 4 ensures s.Above(g, v) == {0, v} {
      assert s.Above(g, 0) == {0};
    }
    forall u, i | 0 <= u < 4 && 0 <= i < |Links(g.nodes[u])| ensures LinkFails(g, s, u, i) {
      var v := Links(g.nodes[u])[i];
      assert 1 <= v < 4 && s.Above(g, v) == {0, v};
      assert 0 in s.Above(g, u);
      forall n: nat ensures !Stops(g, {}, v, n) {
        FailuresNeverStop(v, n);
      }
    }
  }

  // ----- one exception, and what it links to -----

  /** `part` stands somewhere in the text. */
  ghost predicate Around(text: string, before: string, part: string, after: string) {
    text == before + part + after
  }

  lemma AroundIsAt(before: string, part: string, after: string)
    ensures (before + part + after)[|before|..] == part + after && part <= part + after
  {
  }

  lemma FoundAround(text: string, part: string, i: nat) returns (after: string)
    requires i <= |text| && part <= text[i..]
    ensures Around(text, text[..i], part, after)
  {
    after := text[i + |part|..];
    assert text[i..i + |part|] == text[i..][..|part|] == part;
    assert text == text[..i] + text[i..i + |part|] + after;
  }

  lemma AroundFound(text: string, before: string, part: string, after: string)
    requires Around(text, before, part, after)
    ensures Contains(text, part)
  {
    AroundIsAt(before, part, after);
    assert part <= text[|before|..];
  }

  /** The provider's error codes that mean billing. */
  predicate BillingCode(code: string) {
    || code == "billing_hard_limit_reached" || code == "credit_balance_exhausted" || code == "insufficient_quota"
    || code == "organization_spend_limit_exceeded" || code == "project_spend_limit_exceeded"
  }

  ghost predicate Mentions(body: string, code: string, before: string, after: string) {
    BillingCode(code) && Around(body, before, code, after)
  }

  /** A credential status, or a billing code anywhere in the body. */
  ghost predicate StopsAlone(kind: Kind) {
    || kind.ProviderStop?
    || (kind.Http? && (kind.status in {401, 403} || exists code, before, after :: Mentions(kind.body, code, before, after)))
  }

  lemma MentionIff(body: string)
    ensures MentionsStopCode(body) <==> exists code, before, after :: Mentions(body, code, before, after)
  {
    if MentionsStopCode(body) {
      var i :| 0 <= i < |STOP_CODES| && Contains(body, STOP_CODES[i]);
      var at :| 0 <= at <= |body| && STOP_CODES[i] <= body[at..];
      var after := FoundAround(body, STOP_CODES[i], at);
      CodesBill(i);
      assert Mentions(body, STOP_CODES[i], body[..at], after);
    }
    if code, before, after :| Mentions(body, code, before, after) {
      AroundFound(body, before, code, after);
      var i := CodeIndex(code);
    }
  }

  lemma CodesBill(i: nat)
    requires i < |STOP_CODES|
    ensures BillingCode(STOP_CODES[i])
  {
  }

  lemma StopsAloneIff(kind: Kind)
    ensures Direct(kind) <==> StopsAlone(kind)
  {
    if kind.Http? {
      MentionIff(kind.body);
    }
  }

  lemma CodeIndex(code: string) returns (i: nat)
    requires BillingCode(code)
    ensures i < |STOP_CODES| && STOP_CODES[i] == code
  {
    if code == STOP_CODES[0] {
      i := 0;
    } else if code == STOP_CODES[1] {
      i := 1;
    } else if code == STOP_CODES[2] {
      i := 2;
    } else if code == STOP_CODES[3] {
      i := 3;
    } else {
      i := 4;
    }
  }

  /** An exception that is no group stops exactly when it stops alone or what it was raised from
      does: its cause if it has one, and only otherwise its context. */
  lemma LinksInOrder(g: Graph, e: nat, seen: set<nat>)
    requires g.Closed() && e < |g.nodes| && seen <= g.Ids() && e !in seen && !g.nodes[e].kind.Group?
    ensures var node := g.nodes[e];
      var from := if node.cause.Some? then node.cause else node.context;
      && seen + {e} <= g.Ids() && (from.Some? ==> from.value < |g.nodes|)
      && (Chain(g, Some(e), seen).0 <==> StopsAlone(node.kind) || Chain(g, from, seen + {e}).0)
  {
    StopsAloneIff(g.nodes[e].kind);
  }

  /** An exception without members and links. */
  lemma LoneException(g: Graph, e: nat)
    requires g.Closed() && e < |g.nodes| && !g.nodes[e].kind.Group? && g.nodes[e].cause.None? && g.nodes[e].context.None?
    ensures Chain(g, Some(e), {}).0 <==> StopsAlone(g.nodes[e].kind)
  {
    LinksInOrder(g, e, {});
  }
}
