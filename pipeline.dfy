/**
 * The whole table-building run, from the loaded graph and the JSON frame
 * to the edge table, the node names and the node table, as a function.
 * Both scripts run it; in both, the edge loop rebinds `data`, so by the
 * time the naming loop reads `data` it is the last edge-row dict and not
 * the JSON frame. `AsWritten` is that run; `Corrected` is the run the
 * comment above the naming loop describes, where `data` still holds the
 * JSON frame.
 */
module Pipeline {
  import opened Wrappers
  import opened NetworkGraph
  import opened Tables
  import PyInt

  datatype Outputs = Outputs(
    edgeTable: seq<EdgeRow>,
    names: map<NodeId, string>,  // the `name` attributes of `G` after naming
    counter: nat,                // the final value of `i`
    nodeTable: seq<NodeRow>)

  /** The three steps, given what `data` holds when the naming loop starts. */
  function RunFrom(g: GraphValue, dataAtNameLoop: Data): (r: Result<Outputs, Error>) {
    match EdgeTableOf(g.edges)
    case Failure(e) => Failure(e)
    case Success(edgeTable) =>
      var named := NameLoop(g.nodes, g.names, dataAtNameLoop);
      match NodeTableOf(g.nodes, named.0)
      case Failure(e) => Failure(e)
      case Success(nodeTable) => Success(Outputs(edgeTable, named.0, named.1, nodeTable))
  }

  /** The run as the scripts are written: `data` rebound by the edge loop. */
  function AsWritten(g: GraphValue, frame: Data): (r: Result<Outputs, Error>) {
    RunFrom(g, DataAfterEdgeLoop(frame, g.edges))
  }

  /** The intended run: the naming loop reads the JSON frame. */
  function Corrected(g: GraphValue, frame: Data): (r: Result<Outputs, Error>) {
    RunFrom(g, frame)
  }

  /**
   * Either run fails at the edge concatenation, before naming anything,
   * exactly when `G` has no edges; with an edge, a failing run fails at
   * `int(id)`. A run succeeds exactly when `G` has an edge and every node
   * id is an integer literal; the edge table is then one row per edge.
   */
  lemma RunFromOutcome(g: GraphValue, dataAtNameLoop: Data)
    requires WellFormed(g)
    ensures g.edges == [] ==> RunFrom(g, dataAtNameLoop) == Failure(NoObjectsToConcatenate)
    ensures g.edges != [] && RunFrom(g, dataAtNameLoop).Failure? ==>
      RunFrom(g, dataAtNameLoop).error.InvalidIntLiteral?
    ensures RunFrom(g, dataAtNameLoop).Success? <==>
      g.edges != [] && forall k :: 0 <= k < |g.nodes| ==> PyInt.Parse(g.nodes[k]).Some?
    ensures RunFrom(g, dataAtNameLoop).Success? ==>
      RunFrom(g, dataAtNameLoop).value.edgeTable == EdgeRows(g.edges)
  {
    EdgeTableSpec(g.edges);
    var named := NameLoop(g.nodes, g.names, dataAtNameLoop);
    NodeTableSpec(g.nodes, named.0);
    if g.edges != [] {
      assert g.edges[0] in g.edges;
      if NodeRows(g.nodes, named.0).Failure? {
        NodeRowsFirstFailure(g.nodes, named.0);
      } else {
        NodeRowsValues(g.nodes, named.0);
      }
    }
  }

  /**
   * As written, no node is named: `i` stays 0, the graph's names are what
   * they were, and every node-table row carries the name the node had
   * before (`None` for a graph fresh from the edge list).
   */
  lemma AsWrittenNamesNoNode(g: GraphValue, frame: Data)
    requires WellFormed(g)
    requires AsWritten(g, frame).Success?
    ensures AsWritten(g, frame).value.counter == 0
    ensures AsWritten(g, frame).value.names == g.names
    ensures |AsWritten(g, frame).value.nodeTable| == |g.nodes|
    ensures forall k :: 0 <= k < |g.nodes| ==>
      AsWritten(g, frame).value.nodeTable[k].name == AttrGet(g.names, g.nodes[k])
  {
    ShadowedGuardNeverHolds(g.nodes, g.names, EdgeRowOf(g.edges[|g.edges| - 1]));
    NodeTableSpec(g.nodes, g.names);
  }

  /**
   * Corrected, naming is positional: `i` ends at the smaller of the node
   * count and the list length, the k-th node's row carries the k-th
   * username while there is one, and later nodes keep their old name.
   */
  lemma CorrectedNamesPositionally(g: GraphValue, usernames: seq<string>)
    requires WellFormed(g)
    requires Corrected(g, JsonFrame(Some(usernames))).Success?
    ensures Corrected(g, JsonFrame(Some(usernames))).value.counter == Min(|g.nodes|, |usernames|)
    ensures |Corrected(g, JsonFrame(Some(usernames))).value.nodeTable| == |g.nodes|
    ensures forall k :: 0 <= k < |g.nodes| ==>
      Corrected(g, JsonFrame(Some(usernames))).value.nodeTable[k].name ==
        if k < |usernames| then Some(usernames[k]) else AttrGet(g.names, g.nodes[k])
  {
    var frame := JsonFrame(Some(usernames));
    var named := NameLoop(g.nodes, g.names, frame);
    NameLoopCounter(g.nodes, g.names, frame);
    NameLoopPositional(g.nodes, g.names, frame);
    NodeTableSpec(g.nodes, named.0);
  }

  /** The graph of the two-line edge list `1 2 {'weight': 4}` / `2 3`. */
  function ScenarioGraph(): (g: GraphValue) {
    GraphValue(["1", "2", "3"], map[], [Edge("1", "2", map["weight" := 4.0]), Edge("2", "3", map[])])
  }

  /** The JSON frame holding the usernames Alice, Bob and Carol. */
  function ScenarioFrame(): (frame: Data) {
    JsonFrame(Some(["Alice", "Bob", "Carol"]))
  }

  /** The scenario's node ids are integer literals for 1, 2 and 3. */
  lemma ScenarioIdsParse()
    ensures PyInt.Parse("1") == Some(1) && PyInt.Parse("2") == Some(2) && PyInt.Parse("3") == Some(3)
  {
    assert PyInt.ShowNat(1) == "1" && PyInt.ShowNat(2) == "2" && PyInt.ShowNat(3) == "3";
    PyInt.ParseShow(1);
    PyInt.ParseShow(2);
    PyInt.ParseShow(3);
  }

  lemma ScenarioFacts()
    ensures WellFormed(ScenarioGraph())
    ensures forall k :: 0 <= k < 3 ==> PyInt.Parse(ScenarioGraph().nodes[k]) == Some(k + 1)
    ensures EdgeRows(ScenarioGraph().edges) == [EdgeRow("1", "2", Some(4.0)), EdgeRow("2", "3", None)]
  {
    var es := ScenarioGraph().edges;
    ScenarioIdsParse();
    assert es[..1][..0] == [];
    assert EdgeRows(es[..1]) == [EdgeRowOf(es[0])];
    assert es[..|es| - 1] == es[..1];
    assert EdgeRowOf(es[0]) == EdgeRow("1", "2", Some(4.0));
    assert EdgeRowOf(es[1]) == EdgeRow("2", "3", None);
  }

  /**
   * As written, the scenario yields the expected edge table and a node
   * table in which no node has a name.
   */
  lemma ShadowingCounterexample()
    ensures AsWritten(ScenarioGraph(), ScenarioFrame()) == Success(Outputs(
      [EdgeRow("1", "2", Some(4.0)), EdgeRow("2", "3", None)], map[], 0,
      [NodeRow(1, None), NodeRow(2, None), NodeRow(3, None)]))
  {
    var g, frame := ScenarioGraph(), ScenarioFrame();
    ScenarioFacts();
    RunFromOutcome(g, DataAfterEdgeLoop(frame, g.edges));
    AsWrittenNamesNoNode(g, frame);
    NodeTableSpec(g.nodes, g.names);
    var r := AsWritten(g, frame).value;
    assert r.nodeTable == [NodeRow(1, None), NodeRow(2, None), NodeRow(3, None)];
  }

  /** The intended run names the scenario's nodes Alice, Bob and Carol, in order. */
  lemma CorrectedScenario()
    ensures Corrected(ScenarioGraph(), ScenarioFrame()).Success?
    ensures Corrected(ScenarioGraph(), ScenarioFrame()).value.nodeTable ==
      [NodeRow(1, Some("Alice")), NodeRow(2, Some("Bob")), NodeRow(3, Some("Carol"))]
  {
    var g, frame := ScenarioGraph(), ScenarioFrame();
    ScenarioFacts();
    RunFromOutcome(g, frame);
    CorrectedNamesPositionally(g, ["Alice", "Bob", "Carol"]);
    NodeTableSpec(g.nodes, NameLoop(g.nodes, g.names, frame).0);
    var r := Corrected(g, frame).value;
    assert |r.nodeTable| == 3;
    assert r.nodeTable[0] == NodeRow(1, Some("Alice"));
    assert r.nodeTable[1] == NodeRow(2, Some("Bob"));
    assert r.nodeTable[2] == NodeRow(3, Some("Carol"));
    assert r.nodeTable == [NodeRow(1, Some("Alice")), NodeRow(2, Some("Bob")), NodeRow(3, Some("Carol"))];
  }
}
