/** Connectivity checks on an execution graph (app/planner/planner.py, `validate_graph`). */
module GraphValidator {
  import opened Wrappers
  import opened ExecutionGraph

  datatype ValidationError =
    | MissingEntry
    | UnknownEntry
    | UnknownEndpoint(edge: Edge)
    | Orphan(id: string)
    | Unreachable(ids: set<string>)

  ghost predicate EntryExists(g: Graph)
  {
    Truthy(g.entry) && g.entry.value in NodeIds(g)
  }

  ghost predicate EndpointsExist(g: Graph)
  {
    EndpointsIn(g.edges, NodeIds(g))
  }

  ghost predicate EndpointsIn(edges: seq<Edge>, ids: set<string>)
  {
    forall e :: e in edges ==> e.source in ids && e.target in ids
  }

  ghost predicate AllReachable(g: Graph)
    requires g.entry.Some?
  {
    forall id :: id in NodeIds(g) ==> Reachable(g.edges, g.entry.value, id)
  }

  /** What each rejection says about the graph. */
  ghost predicate Explains(error: ValidationError, g: Graph)
  {
    match error
    case MissingEntry => !Truthy(g.entry)
    case UnknownEntry => Truthy(g.entry) && g.entry.value !in NodeIds(g)
    case UnknownEndpoint(e) => e in g.edges && !(e.source in NodeIds(g) && e.target in NodeIds(g))
    case Orphan(id) => EntryExists(g) && id in NodeIds(g) && !Reachable(g.edges, g.entry.value, id)
    case Unreachable(ids) =>
      EntryExists(g) && ids != {} &&
      forall id :: id in ids <==> id in NodeIds(g) && !Reachable(g.edges, g.entry.value, id)
  }

  /** The targets of the edges leaving `a`, in order. */
  ghost function Targets(edges: seq<Edge>, a: string): seq<string>
  {
    if edges == [] then []
    else
      var last := edges[|edges| - 1];
      Targets(edges[..|edges| - 1], a) + if last.source == a then [last.target] else []
  }

  ghost function InDegree(edges: seq<Edge>, b: string): nat
  {
    if edges == [] then 0
    else InDegree(edges[..|edges| - 1], b) + if edges[|edges| - 1].target == b then 1 else 0
  }

  lemma {:induction false} TargetsMembers(edges: seq<Edge>, a: string)
    ensures forall b :: b in Targets(edges, a) <==> HasEdge(edges, a, b)
  {
    if edges != [] {
      var front, last := edges[..|edges| - 1], edges[|edges| - 1];
      TargetsMembers(front, a);
      assert edges == front + [last];
      forall b
        ensures HasEdge(edges, a, b) <==> HasEdge(front, a, b) || (last.source == a && last.target == b)
      {
        assert last in edges;
        if HasEdge(front, a, b) {
          var e :| e in front && e.source == a && e.target == b;
          assert e in edges;
        }
      }
    }
  }

  lemma {:induction false} InDegreeZero(edges: seq<Edge>, b: string)
    ensures InDegree(edges, b) == 0 <==> forall e :: e in edges ==> e.target != b
  {
    if edges != [] {
      InDegreeZero(edges[..|edges| - 1], b);
      assert edges == edges[..|edges| - 1] + [edges[|edges| - 1]];
    }
  }

  /** The adjacency lists and counters agree with the edges read so far. */
  ghost predicate Mapped(adj: map<string, seq<string>>, incoming: map<string, nat>, ids: set<string>, edges: seq<Edge>)
  {
    && adj.Keys == ids && incoming.Keys == ids
    && (forall a :: a in ids ==> adj[a] == Targets(edges, a))
    && (forall b :: b in ids ==> incoming[b] == InDegree(edges, b))
  }

  ghost predicate Lists(adj: map<string, seq<string>>, edges: seq<Edge>)
  {
    forall a, b :: a in adj ==> (b in adj[a] <==> HasEdge(edges, a, b))
  }

  /** The recursive search of the validator, over adjacency lists. */
  class Search {
    const adj: map<string, seq<string>>
    var visited: set<string>

    constructor (adj: map<string, seq<string>>)
      ensures this.adj == adj && visited == {}
    {
      this.adj := adj;
      visited := {};
    }

    method Dfs(curr: string, ghost edges: seq<Edge>)
      requires Lists(adj, edges)
      requires forall a, b :: a in adj && HasEdge(edges, a, b) ==> b in adj
      requires curr in adj && curr !in visited && visited <= adj.Keys
      modifies this
      ensures old(visited) + {curr} <= visited <= adj.Keys
      ensures forall b :: b in visited && b !in old(visited) ==> Reachable(edges, curr, b)
      ensures forall a, b :: a in visited && a !in old(visited) && HasEdge(edges, a, b) ==> b in visited
      decreases adj.Keys - visited
    {
      visited := visited + {curr};
      ReachableRefl(edges, curr);
      for i := 0 to |adj[curr]|
        invariant old(visited) + {curr} <= visited <= adj.Keys
        invariant forall j :: 0 <= j < i ==> adj[curr][j] in visited
        invariant forall b :: b in visited && b !in old(visited) ==> Reachable(edges, curr, b)
        invariant forall a, b :: a in visited && a !in old(visited) && a != curr && HasEdge(edges, a, b)
                    ==> b in visited
      {
        var neighbor := adj[curr][i];
        assert neighbor in adj[curr] && HasEdge(edges, curr, neighbor);
        if neighbor !in visited {
          ghost var before := visited;
          Dfs(neighbor, edges);
          forall b | b in visited && b !in before
            ensures Reachable(edges, curr, b)
          {
            ReachableThrough(edges, curr, neighbor, b);
          }
        }
      }
    }
  }

  lemma {:induction false} ReachableAlong(edges: seq<Edge>, a: string, p: seq<string>)
    requires IsPath(edges, p) && HasEdge(edges, a, p[0])
    ensures Reachable(edges, a, p[|p| - 1])
    decreases |p|
  {
    if |p| == 1 {
      ReachableRefl(edges, a);
      ReachableStep(edges, a, a, p[0]);
    } else {
      var q := p[..|p| - 1];
      assert forall i :: 0 <= i < |q| ==> q[i] == p[i];
      ReachableAlong(edges, a, q);
      assert HasEdge(edges, p[|p| - 2], p[|p| - 1]);
      ReachableStep(edges, a, q[|q| - 1], p[|p| - 1]);
    }
  }

  lemma ReachableThrough(edges: seq<Edge>, a: string, b: string, c: string)
    requires HasEdge(edges, a, b) && Reachable(edges, b, c)
    ensures Reachable(edges, a, c)
  {
    var p :| IsPath(edges, p) && p[0] == b && p[|p| - 1] == c;
    ReachableAlong(edges, a, p);
  }

  /** Every node reached from another node has an incoming edge, so the orphan check adds nothing. */
  lemma OrphansAreUnreachable(edges: seq<Edge>, a: string, b: string)
    requires a != b && forall e :: e in edges ==> e.target != b
    ensures !Reachable(edges, a, b)
  {
    forall p | IsPath(edges, p) && p[0] == a
      ensures p[|p| - 1] != b
    {
      if |p| > 1 {
        assert HasEdge(edges, p[|p| - 2], p[|p| - 1]);
      }
    }
  }

  lemma MapOneEdge(adj: map<string, seq<string>>, incoming: map<string, nat>, ids: set<string>,
                   edges: seq<Edge>, edge: Edge)
    requires EndpointsIn(edges, ids) && Mapped(adj, incoming, ids, edges)
    requires edge.source in ids && edge.target in ids
    ensures EndpointsIn(edges + [edge], ids)
    ensures Mapped(adj[edge.source := adj[edge.source] + [edge.target]],
                   incoming[edge.target := incoming[edge.target] + 1], ids, edges + [edge])
  {
    var after := edges + [edge];
    assert after[..|after| - 1] == edges && after[|after| - 1] == edge;
    forall a
      ensures Targets(after, a) == Targets(edges, a) + if edge.source == a then [edge.target] else []
      ensures InDegree(after, a) == InDegree(edges, a) + if edge.target == a then 1 else 0
    {
    }
  }

  method MapEdges(g: Graph) returns (bad: Option<Edge>, adj: map<string, seq<string>>, incoming: map<string, nat>)
    ensures bad.Some? ==> Explains(UnknownEndpoint(bad.value), g)
    ensures bad.None? ==> EndpointsExist(g) && Mapped(adj, incoming, NodeIds(g), g.edges)
  {
    var ids := NodeIds(g);
    adj := map id | id in ids :: [];
    incoming := map id | id in ids :: 0;
    for i := 0 to |g.edges|
      invariant EndpointsIn(g.edges[..i], ids) && Mapped(adj, incoming, ids, g.edges[..i])
    {
      var edge := g.edges[i];
      assert edge in g.edges;
      if edge.source !in ids || edge.target !in ids {
        return Some(edge), adj, incoming;
      }
      assert g.edges[..i + 1] == g.edges[..i] + [edge];
      MapOneEdge(adj, incoming, ids, g.edges[..i], edge);
      adj := adj[edge.source := adj[edge.source] + [edge.target]];
      incoming := incoming[edge.target := incoming[edge.target] + 1];
    }
    assert g.edges[..|g.edges|] == g.edges;
    bad := None;
  }

  method ValidateGraph(g: Graph) returns (r: Result<bool, ValidationError>)
    ensures r.Ok? ==> r.value
    ensures |g.nodes| == 1 ==> (r.Ok? <==> EntryExists(g))
    ensures |g.nodes| != 1 ==> (r.Ok? <==> EntryExists(g) && EndpointsExist(g) && AllReachable(g))
    ensures r.Err? ==> Explains(r.error, g)
  {
    var ids := NodeIds(g);
    if !Truthy(g.entry) {
      return Err(MissingEntry);
    }
    var entry := g.entry.value;
    if entry !in ids {
      return Err(UnknownEntry);
    }
    if |g.nodes| == 1 {
      return Ok(true);
    }
    var bad, adj, incoming := MapEdges(g);
    if bad.Some? {
      return Err(UnknownEndpoint(bad.value));
    }
    var unchecked := ids;
    while unchecked != {}
      invariant unchecked <= ids
    {
      var id :| id in unchecked;
      unchecked := unchecked - {id};
      if id != entry && incoming[id] == 0 {
        InDegreeZero(g.edges, id);
        OrphansAreUnreachable(g.edges, entry, id);
        return Err(Orphan(id));
      }
    }
    forall a { TargetsMembers(g.edges, a); }
    var search := new Search(adj);
    search.Dfs(entry, g.edges);
    ClosedContainsReachable(g.edges, search.visited, entry);
    var unreachable := ids - search.visited;
    if unreachable != {} {
      var some :| some in unreachable;
      return Err(Unreachable(unreachable));
    }
    return Ok(true);
  }
}
