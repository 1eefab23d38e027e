/**
 * The three loops that turn the graph `G` into two tables and name its
 * nodes: the edge table (Source, Target, Weight), the positional naming
 * loop guarded by the variable `data`, and the node table (id, name).
 * Each loop is a method over the `DiGraph` object, proved against a
 * function that states what it computes; the lemmas say what those
 * functions mean.
 */
module Tables {
  import opened Wrappers
  import opened NetworkGraph
  import PyInt

  /** One one-row DataFrame of the edge table. */
  datatype EdgeRow = EdgeRow(source: NodeId, target: NodeId, weight: Option<real>)

  /** One one-row DataFrame of the node table. */
  datatype NodeRow = NodeRow(id: int, name: Option<string>)

  datatype Error =
    | NoObjectsToConcatenate        // `pd.concat([])` raises `ValueError`
    | InvalidIntLiteral(text: string) // `int(text)` raises `ValueError`

  /** The keys of the dict the edge loop binds to `data`. */
  const EdgeRowKeys: set<string> := {"Source", "Target", "Weight"}

  /**
   * What the variable `data` holds: the DataFrame read from the JSON
   * file (with the row-0 cell of its `usernameList` column, if it has
   * that column), or the dict the edge loop rebinds it to.
   */
  datatype Data =
    | JsonFrame(usernameList: Option<seq<string>>)
    | EdgeRowDict(row: EdgeRow)

  /** What `key in data` tests: a column label of a DataFrame, a key of a dict. */
  function Keys(data: Data): (keys: set<string>) {
    match data
    case JsonFrame(list) => if list.Some? then {"usernameList"} else {}
    case EdgeRowDict(_) => EdgeRowKeys
  }

  /** `data['usernameList'][0]` */
  function UsernameList(data: Data): (list: seq<string>)
    requires "usernameList" in Keys(data)
  {
    data.usernameList.value
  }

  /** The test of the naming loop with counter `i`. */
  predicate Guard(data: Data, i: nat) {
    "usernameList" in Keys(data) && i < |UsernameList(data)|
  }

  function Min(a: int, b: int): (m: int) {
    if a <= b then a else b
  }

  /** `pd.concat(dfs, ignore_index=True)` on a list of one-row frames. */
  function ConcatFrames<T>(dfs: seq<T>): (r: Result<seq<T>, Error>) {
    if dfs == [] then Failure(NoObjectsToConcatenate) else Success(dfs)
  }

  // ---------------------------------------------------------------- edge table

  /** The row `{'Source': s, 'Target': t, 'Weight': wei.get('weight', None)}` of one edge. */
  function EdgeRowOf(e: Edge): (row: EdgeRow) {
    EdgeRow(e.source, e.target, AttrGet(e.attrs, "weight"))
  }

  /** The list `dfs` after the edge loop has visited `edges`. */
  function EdgeRows(edges: seq<Edge>): (rows: seq<EdgeRow>) {
    if edges == [] then []
    else
      EdgeRows(edges[..|edges| - 1]) + [EdgeRowOf(edges[|edges| - 1])]
  }

  function EdgeTableOf(edges: seq<Edge>): (r: Result<seq<EdgeRow>, Error>) {
    ConcatFrames(EdgeRows(edges))
  }

  /** What `data` holds after the edge loop has visited `edges`. */
  function DataAfterEdgeLoop(data: Data, edges: seq<Edge>): (d: Data) {
    if edges == [] then data
    else
      EdgeRowDict(EdgeRowOf(edges[|edges| - 1]))
  }

  /** One row per edge, in edge order, endpoints copied, `weight` or `None`. */
  lemma {:induction false} EdgeRowsProjection(edges: seq<Edge>)
    ensures |EdgeRows(edges)| == |edges|
    ensures forall k :: 0 <= k < |edges| ==>
      && EdgeRows(edges)[k].source == edges[k].source
      && EdgeRows(edges)[k].target == edges[k].target
      && (if "weight" in edges[k].attrs
          then EdgeRows(edges)[k].weight == Some(edges[k].attrs["weight"])
          else EdgeRows(edges)[k].weight == None)
  {
    if edges != [] {
      var p := edges[..|edges| - 1];
      EdgeRowsProjection(p);
      assert forall k :: 0 <= k < |p| ==> edges[k] == p[k];
    }
  }

  /**
   * The edge table is the projection of every edge, and the step raises
   * exactly when the graph has no edges.
   */
  lemma EdgeTableSpec(edges: seq<Edge>)
    ensures EdgeTableOf(edges).Failure? <==> edges == []
    ensures EdgeTableOf(edges).Failure? ==> EdgeTableOf(edges).error == NoObjectsToConcatenate
    ensures EdgeTableOf(edges).Success? ==> EdgeTableOf(edges).value == EdgeRows(edges)
  {
  }

  /**
   * The edge loop and the concatenation after it: Network_Analysis_App.py
   * lines 44-56, Tester/Tester.py lines 23-33.
   */
  method EdgeTable(g: DiGraph, data: Data) returns (table: Result<seq<EdgeRow>, Error>, dataAfter: Data)
    ensures table == EdgeTableOf(g.edges)
    ensures dataAfter == DataAfterEdgeLoop(data, g.edges)
  {
    var dfs: seq<EdgeRow> := [];
    dataAfter := data;
    var k := 0;
    while k < |g.edges|
      invariant 0 <= k <= |g.edges|
      invariant dfs == EdgeRows(g.edges[..k])
      invariant dataAfter == DataAfterEdgeLoop(data, g.edges[..k])
    {
      var row := EdgeRowOf(g.edges[k]);
      dataAfter := EdgeRowDict(row);
      dfs := dfs + [row];
      assert g.edges[..k + 1][..k] == g.edges[..k];
      k := k + 1;
    }
    assert g.edges[..k] == g.edges;
    if dfs == [] {
      table := Failure(NoObjectsToConcatenate);
    } else {
      table := Success(dfs);
    }
  }

  // ---------------------------------------------------------------- naming loop

  /**
   * The `name` attributes and the counter `i` after the naming loop has
   * visited `nodes`, with `data` fixed throughout.
   */
  function NameLoop(nodes: seq<NodeId>, names: map<NodeId, string>, data: Data): (r: (map<NodeId, string>, nat)) {
    if nodes == [] then (names, 0)
    else
      var r := NameLoop(nodes[..|nodes| - 1], names, data);
      if Guard(data, r.1) then (r.0[nodes[|nodes| - 1] := UsernameList(data)[r.1]], r.1 + 1)
      else r
  }

  /** `i` ends at the number of names handed out and never passes the list's length. */
  lemma {:induction false} NameLoopCounter(nodes: seq<NodeId>, names: map<NodeId, string>, data: Data)
    ensures NameLoop(nodes, names, data).1 ==
      if "usernameList" in Keys(data) then Min(|nodes|, |UsernameList(data)|) else 0
  {
    if nodes != [] {
      NameLoopCounter(nodes[..|nodes| - 1], names, data);
    }
  }

  /**
   * Naming is positional: the k-th node gets the k-th username while the
   * guard holds, every other node keeps the name it had.
   */
  lemma {:induction false} NameLoopPositional(nodes: seq<NodeId>, names: map<NodeId, string>, data: Data)
    requires forall i, j :: 0 <= i < j < |nodes| ==> nodes[i] != nodes[j]
    ensures forall k :: 0 <= k < |nodes| ==>
      AttrGet(NameLoop(nodes, names, data).0, nodes[k]) ==
        if Guard(data, k) then Some(UsernameList(data)[k]) else AttrGet(names, nodes[k])
    ensures forall n :: n !in nodes ==> AttrGet(NameLoop(nodes, names, data).0, n) == AttrGet(names, n)
  {
    if nodes != [] {
      var m := |nodes| - 1;
      var p := nodes[..m];
      NameLoopPositional(p, names, data);
      NameLoopCounter(p, names, data);
      assert forall k :: 0 <= k < m ==> nodes[k] == p[k];
      assert nodes[m] !in p;
    }
  }

  /**
   * When `data` is an edge-row dict the guard never holds: no node is
   * named and `i` stays 0.
   */
  lemma {:induction false} ShadowedGuardNeverHolds(nodes: seq<NodeId>, names: map<NodeId, string>, row: EdgeRow)
    ensures NameLoop(nodes, names, EdgeRowDict(row)) == (names, 0)
  {
    if nodes != [] {
      ShadowedGuardNeverHolds(nodes[..|nodes| - 1], names, row);
    }
  }

  /**
   * The naming loop, calling `G.add_node` on nodes already in `G`:
   * Network_Analysis_App.py lines 62-66, Tester/Tester.py lines 35-39.
   */
  method AssignNames(g: DiGraph, data: Data) returns (i: nat)
    requires g.Valid()
    modifies g
    ensures g.Valid()
    ensures g.nodes == old(g.nodes) && g.edges == old(g.edges)
    ensures (g.names, i) == NameLoop(old(g.nodes), old(g.names), data)
  {
    i := 0;
    var k := 0;
    while k < |g.nodes|
      invariant 0 <= k <= |g.nodes|
      invariant g.Valid()
      invariant g.nodes == old(g.nodes) && g.edges == old(g.edges)
      invariant (g.names, i) == NameLoop(g.nodes[..k], old(g.names), data)
    {
      var node := g.nodes[k];
      if "usernameList" in Keys(data) && i < |UsernameList(data)| {
        g.AddNode(node, UsernameList(data)[i]);
        i := i + 1;
      }
      assert g.nodes[..k + 1][..k] == g.nodes[..k];
      k := k + 1;
    }
    assert g.nodes[..k] == g.nodes;
  }

  // ---------------------------------------------------------------- node table

  /** The list `dfs` after the node loop has visited `nodes`, or the error `int(id)` raised. */
  function NodeRows(nodes: seq<NodeId>, names: map<NodeId, string>): (r: Result<seq<NodeRow>, Error>) {
    if nodes == [] then Success([])
    else
      var id := nodes[|nodes| - 1];
      match NodeRows(nodes[..|nodes| - 1], names)
      case Failure(e) => Failure(e)
      case Success(rows) =>
        match PyInt.Parse(id)
        case None => Failure(InvalidIntLiteral(id))
        case Some(v) => Success(rows + [NodeRow(v, AttrGet(names, id))])
  }

  function NodeTableOf(nodes: seq<NodeId>, names: map<NodeId, string>): (r: Result<seq<NodeRow>, Error>) {
    match NodeRows(nodes, names)
    case Failure(e) => Failure(e)
    case Success(rows) => ConcatFrames(rows)
  }

  /** Once `int(id)` has raised, the loop never gets further. */
  lemma {:induction false} NodeRowsFailurePersists(nodes: seq<NodeId>, names: map<NodeId, string>, k: nat)
    requires k <= |nodes| && NodeRows(nodes[..k], names).Failure?
    ensures NodeRows(nodes, names) == NodeRows(nodes[..k], names)
  {
    if k < |nodes| {
      var p := nodes[..|nodes| - 1];
      assert p[..k] == nodes[..k];
      NodeRowsFailurePersists(p, names, k);
    } else {
      assert nodes[..k] == nodes;
    }
  }

  /** The node rows exist exactly when every id is an integer literal. */
  lemma {:induction false} NodeRowsSucceedIff(nodes: seq<NodeId>, names: map<NodeId, string>)
    ensures NodeRows(nodes, names).Success? <==> forall k :: 0 <= k < |nodes| ==> PyInt.Parse(nodes[k]).Some?
  {
    if nodes != [] {
      var m := |nodes| - 1;
      var p := nodes[..m];
      NodeRowsSucceedIff(p, names);
      assert forall k :: 0 <= k < m ==> nodes[k] == p[k];
    }
  }

  /**
   * Successful node rows are one per node, in node order, holding
   * `int(id)` and the node's `name` or `None`.
   */
  lemma {:induction false} NodeRowsValues(nodes: seq<NodeId>, names: map<NodeId, string>)
    requires NodeRows(nodes, names).Success?
    ensures |NodeRows(nodes, names).value| == |nodes|
    ensures forall k :: 0 <= k < |nodes| ==>
      PyInt.Parse(nodes[k]).Some? &&
      NodeRows(nodes, names).value[k] == NodeRow(PyInt.Parse(nodes[k]).value, AttrGet(names, nodes[k]))
  {
    if nodes != [] {
      var m := |nodes| - 1;
      var p := nodes[..m];
      var rows := NodeRows(p, names).value;
      NodeRowsValues(p, names);
      var r := NodeRows(nodes, names).value;
      assert r == rows + [NodeRow(PyInt.Parse(nodes[m]).value, AttrGet(names, nodes[m]))];
      forall k | 0 <= k < m
        ensures PyInt.Parse(nodes[k]).Some? && r[k] == NodeRow(PyInt.Parse(nodes[k]).value, AttrGet(names, nodes[k]))
      {
        assert nodes[k] == p[k];
        assert r[k] == rows[k];
      }
    }
  }

  /** A failing node loop reports the first id that is not an integer literal. */
  lemma {:induction false} NodeRowsFirstFailure(nodes: seq<NodeId>, names: map<NodeId, string>)
    requires NodeRows(nodes, names).Failure?
    ensures exists k ::
      && 0 <= k < |nodes|
      && PyInt.Parse(nodes[k]).None?
      && (forall j :: 0 <= j < k ==> PyInt.Parse(nodes[j]).Some?)
      && NodeRows(nodes, names).error == InvalidIntLiteral(nodes[k])
  {
    var m := |nodes| - 1;
    var p := nodes[..m];
    assert forall j :: 0 <= j < m ==> nodes[j] == p[j];
    if NodeRows(p, names).Failure? {
      NodeRowsFirstFailure(p, names);
      var k :| 0 <= k < |p| && PyInt.Parse(p[k]).None?
        && (forall j :: 0 <= j < k ==> PyInt.Parse(p[j]).Some?)
        && NodeRows(p, names).error == InvalidIntLiteral(p[k]);
      assert nodes[k] == p[k];
    } else {
      NodeRowsSucceedIff(p, names);
      assert PyInt.Parse(nodes[m]).None? && NodeRows(nodes, names).error == InvalidIntLiteral(nodes[m]);
    }
  }

  /**
   * The node table exists exactly when the graph has a node and every id
   * parses; then it has one row per node in node order.
   */
  lemma NodeTableSpec(nodes: seq<NodeId>, names: map<NodeId, string>)
    ensures NodeTableOf(nodes, names).Success? <==>
      nodes != [] && forall k :: 0 <= k < |nodes| ==> PyInt.Parse(nodes[k]).Some?
    ensures NodeTableOf(nodes, names).Success? ==>
      && |NodeTableOf(nodes, names).value| == |nodes|
      && forall k :: 0 <= k < |nodes| ==>
           NodeTableOf(nodes, names).value[k] == NodeRow(PyInt.Parse(nodes[k]).value, AttrGet(names, nodes[k]))
  {
    NodeRowsSucceedIff(nodes, names);
    if NodeRows(nodes, names).Success? {
      NodeRowsValues(nodes, names);
    }
  }

  /**
   * The node loop, `int(id)` raising on a bad id, and the concatenation:
   * Network_Analysis_App.py lines 68-82, Tester/Tester.py lines 41-50.
   */
  method NodeTable(g: DiGraph) returns (table: Result<seq<NodeRow>, Error>)
    ensures table == NodeTableOf(g.nodes, g.names)
  {
    var dfs: seq<NodeRow> := [];
    var k := 0;
    while k < |g.nodes|
      invariant 0 <= k <= |g.nodes|
      invariant NodeRows(g.nodes[..k], g.names) == Success(dfs)
    {
      var id := g.nodes[k];
      assert g.nodes[..k + 1][..k] == g.nodes[..k];
      var v := PyInt.Parse(id);
      if v.None? {
        NodeRowsFailurePersists(g.nodes, g.names, k + 1);
        return Failure(InvalidIntLiteral(id));
      }
      dfs := dfs + [NodeRow(v.value, AttrGet(g.names, id))];
      k := k + 1;
    }
    assert g.nodes[..k] == g.nodes;
    if dfs == [] {
      table := Failure(NoObjectsToConcatenate);
    } else {
      table := Success(dfs);
    }
  }
}
