/** The graph a runbook compiles to (app/agent/graph.py) and what it means to reach a node in it. */
module ExecutionGraph {
  import opened Wrappers

  datatype Node = Node(id: string, stepId: string, name: string, actionType: Option<string>)

  /** A parsed branch condition; how it is evaluated is left to the caller. */
  datatype Branch = Branch(expression: string)

  datatype Edge = Edge(source: string, target: string, condition: Option<string>, branch: Option<Branch>)

  datatype Graph = Graph(nodes: seq<Node>, edges: seq<Edge>, entry: Option<string>)

  function NodeIds(g: Graph): set<string>
  {
    set n | n in g.nodes :: n.id
  }

  /** Python's truth of an optional string. */
  predicate Truthy(s: Option<string>)
  {
    s.Some? && s.value != ""
  }

  /** An edge taken when no branch condition holds. */
  predicate IsDefault(e: Edge)
  {
    e.branch.None? && !Truthy(e.condition)
  }

  /** The edges leaving a node, in graph order. */
  function Outgoing(edges: seq<Edge>, id: string): (out: seq<Edge>)
    ensures forall e :: e in out <==> e in edges && e.source == id
  {
    if edges == [] then []
    else
      var front, last := edges[..|edges| - 1], edges[|edges| - 1];
      assert edges == front + [last];
      Outgoing(front, id) + if last.source == id then [last] else []
  }

  ghost predicate HasEdge(edges: seq<Edge>, a: string, b: string)
  {
    exists e :: e in edges && e.source == a && e.target == b
  }

  ghost predicate IsPath(edges: seq<Edge>, p: seq<string>)
  {
    && p != []
    && forall i :: 0 < i < |p| ==> HasEdge(edges, p[i - 1], p[i])
  }

  ghost predicate Reachable(edges: seq<Edge>, a: string, b: string)
  {
    exists p :: IsPath(edges, p) && p[0] == a && p[|p| - 1] == b
  }

  lemma ReachableRefl(edges: seq<Edge>, a: string)
    ensures Reachable(edges, a, a)
  {
    assert IsPath(edges, [a]);
  }

  lemma ReachableStep(edges: seq<Edge>, a: string, b: string, c: string)
    requires Reachable(edges, a, b) && HasEdge(edges, b, c)
    ensures Reachable(edges, a, c)
  {
    var p :| IsPath(edges, p) && p[0] == a && p[|p| - 1] == b;
    var q := p + [c];
    forall i | 0 < i < |q|
      ensures HasEdge(edges, q[i - 1], q[i])
    {
      assert i < |p| ==> q[i - 1] == p[i - 1] && q[i] == p[i];
    }
    assert IsPath(edges, q);
  }

  ghost predicate Closed(edges: seq<Edge>, s: set<string>)
  {
    forall a, b :: a in s && HasEdge(edges, a, b) ==> b in s
  }

  lemma {:induction false} ClosedUnderPaths(edges: seq<Edge>, s: set<string>, p: seq<string>)
    requires Closed(edges, s) && IsPath(edges, p) && p[0] in s
    ensures p[|p| - 1] in s
    decreases |p|
  {
    if |p| > 1 {
      var q := p[..|p| - 1];
      assert forall i :: 0 <= i < |q| ==> q[i] == p[i];
      ClosedUnderPaths(edges, s, q);
      assert HasEdge(edges, p[|p| - 2], p[|p| - 1]);
    }
  }

  lemma ClosedContainsReachable(edges: seq<Edge>, s: set<string>, a: string)
    requires Closed(edges, s) && a in s
    ensures forall b :: Reachable(edges, a, b) ==> b in s
  {
    forall b | Reachable(edges, a, b)
      ensures b in s
    {
      var p :| IsPath(edges, p) && p[0] == a && p[|p| - 1] == b;
      ClosedUnderPaths(edges, s, p);
    }
  }
}
