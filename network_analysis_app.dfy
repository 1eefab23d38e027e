/**
 * The dashboard script's table-building steps: with the graph `G` read
 * from the edge list and `data` read from the JSON file, it builds the
 * edge table, runs the naming loop and builds the node table (`names_df`).
 */
module NetworkAnalysisApp {
  import opened Wrappers
  import opened NetworkGraph
  import opened Tables
  import opened Pipeline

  /**
   * The script as written. The edge loop leaves `data` bound to the last
   * edge-row dict, so the naming loop changes nothing in `G`.
   */
  method Run(g: DiGraph, frame: Data) returns (r: Result<Outputs, Error>)
    requires g.Valid()
    modifies g
    ensures r == AsWritten(old(g.Value()), frame)
    ensures g.Value() == old(g.Value())
  {
    EdgeTableSpec(g.edges);
    var edgeTable, data := EdgeTable(g, frame);
    if edgeTable.Failure? {
      return Failure(edgeTable.error);
    }
    ShadowedGuardNeverHolds(g.nodes, g.names, data.row);
    var i := AssignNames(g, data);
    var namesTable := NodeTable(g);
    if namesTable.Failure? {
      return Failure(namesTable.error);
    }
    r := Success(Outputs(edgeTable.value, g.names, i, namesTable.value));
  }

  /**
   * The script as its comment on the naming loop intends it: the edge
   * loop binds its row dict to a variable of its own, so the naming loop
   * reads the JSON frame and names `G`'s nodes in order.
   */
  method RunCorrected(g: DiGraph, frame: Data) returns (r: Result<Outputs, Error>)
    requires g.Valid()
    modifies g
    ensures r == Corrected(old(g.Value()), frame)
    ensures g.Valid() && g.nodes == old(g.nodes) && g.edges == old(g.edges)
    ensures g.names == if old(g.edges) == [] then old(g.names) else NameLoop(old(g.nodes), old(g.names), frame).0
  {
    EdgeTableSpec(g.edges);
    var edgeTable, _ := EdgeTable(g, frame);
    if edgeTable.Failure? {
      return Failure(edgeTable.error);
    }
    var i := AssignNames(g, frame);
    var namesTable := NodeTable(g);
    if namesTable.Failure? {
      return Failure(namesTable.error);
    }
    r := Success(Outputs(edgeTable.value, g.names, i, namesTable.value));
  }
}
