/**
 * The part of a networkx `DiGraph` that the table-building code touches:
 * its nodes in iteration order, the `name` attribute of the nodes that
 * have one, and its edges in `G.edges` iteration order with their
 * attribute dictionaries.
 */
module NetworkGraph {
  import opened Wrappers

  /** Node identifiers are the tokens of the edge-list file, kept as strings. */
  type NodeId = string

  datatype Edge = Edge(source: NodeId, target: NodeId, attrs: map<string, real>)

  datatype GraphValue = GraphValue(nodes: seq<NodeId>, names: map<NodeId, string>, edges: seq<Edge>)

  /** Python's `d.get(key)`: the value under `key`, or `None`. */
  function AttrGet<K, V>(d: map<K, V>, key: K): (r: Option<V>) {
    if key in d then Some(d[key]) else None
  }

  /**
   * What a `DiGraph` guarantees: each node once, attributes only on
   * nodes, edge endpoints are nodes, and at most one edge per ordered
   * pair of nodes (a `DiGraph` merges a repeated edge into the first).
   */
  ghost predicate WellFormed(g: GraphValue) {
    && (forall i, j :: 0 <= i < j < |g.nodes| ==> g.nodes[i] != g.nodes[j])
    && (forall n :: n in g.names ==> n in g.nodes)
    && (forall e :: e in g.edges ==> e.source in g.nodes && e.target in g.nodes)
    && (forall i, j :: 0 <= i < j < |g.edges| ==>
          g.edges[i].source != g.edges[j].source || g.edges[i].target != g.edges[j].target)
  }

  /** The graph object `G`, which the naming loop changes in place. */
  class DiGraph {
    var nodes: seq<NodeId>
    var names: map<NodeId, string>
    var edges: seq<Edge>

    function Value(): (g: GraphValue)
      reads this
    {
      GraphValue(nodes, names, edges)
    }

    ghost predicate Valid()
      reads this
    {
      WellFormed(Value())
    }

    /** The graph as `nx.read_edgelist` leaves it. */
    constructor (g: GraphValue)
      requires WellFormed(g)
      ensures Valid() && Value() == g
    {
      nodes, names, edges := g.nodes, g.names, g.edges;
    }

    /**
     * `G.add_node(n, name=v)`: a node not yet in the graph is appended to
     * the node order; either way its `name` attribute becomes `v`.
     */
    method AddNode(n: NodeId, name: string)
      requires Valid()
      modifies this
      ensures Valid()
      ensures nodes == if n in old(nodes) then old(nodes) else old(nodes) + [n]
      ensures names == old(names)[n := name]
      ensures edges == old(edges)
    {
      if n !in nodes {
        nodes := nodes + [n];
      }
      names := names[n := name];
    }
  }
}
