/**
 * The tester script repeats the dashboard's table-building steps line
 * for line (edge table into `df`, naming loop, node table into
 * `names_df`), with the same rebinding of `data` in its edge loop.
 */
module Tester {
  import opened Wrappers
  import opened NetworkGraph
  import opened Tables
  import opened Pipeline

  /** The tester's steps as written: no node of `G` is named. */
  method Run(g: DiGraph, frame: Data) returns (r: Result<Outputs, Error>)
    requires g.Valid()
    modifies g
    ensures r == AsWritten(old(g.Value()), frame)
    ensures g.Value() == old(g.Value())
  {
    EdgeTableSpec(g.edges);
    var df, data := EdgeTable(g, frame);
    if df.Failure? {
      return Failure(df.error);
    }
    ShadowedGuardNeverHolds(g.nodes, g.names, data.row);
    var i := AssignNames(g, data);
    var namesDf := NodeTable(g);
    if namesDf.Failure? {
      return Failure(namesDf.error);
    }
    r := Success(Outputs(df.value, g.names, i, namesDf.value));
  }
}
