# Congress network tables: a Dafny model

The two Streamlit scripts of this repository, `Network_Analysis_App.py` and
`Tester/Tester.py`, read a directed graph `G` of congressional social-media
accounts from an edge-list file and a JSON file holding a `usernameList`.
They then run the same three steps:

1. an **edge loop** that turns each edge of `G` into a one-row frame
   `(Source, Target, Weight)`, where `Weight` is the edge's `weight`
   attribute or `None`, and concatenates the frames;
2. a **naming loop** that walks the nodes with a counter `i` and, while
   `'usernameList' in data and i < len(data['usernameList'][0])`, gives the
   current node `name = data['usernameList'][0][i]` through `G.add_node`;
3. a **node loop** that turns each node into a one-row frame
   `(int(id), name or None)` and concatenates those frames.

This project models those steps. The graph is a class (`NetworkGraph.DiGraph`)
whose `AddNode` the naming loop calls in place. Each loop is a method
(`Tables.EdgeTable`, `Tables.AssignNames`, `Tables.NodeTable`) proved against a
function that says what it computes (`EdgeTableOf`, `NameLoop`,
`NodeTableOf`). Lemmas state what those functions mean. `Pipeline.AsWritten`
chains the three steps as the scripts do, and each script's `Run` method is
proved to compute it.

The variable `data` is the centre of the model. It first holds the JSON
frame. The edge loop then rebinds it, on every iteration, to the dict
`{'Source': …, 'Target': …, 'Weight': …}`. So when the naming loop starts,
`data` has no `usernameList` key, the guard is false, and no node is ever
named (`Pipeline.AsWrittenNamesNoNode`). `Pipeline.Corrected` is the run
that the comment above the naming loop describes: there the naming loop
reads the JSON frame, and names are handed out by position
(`Pipeline.CorrectedNamesPositionally`). If `G` has no edges,
`pd.concat([])` raises before the naming loop is reached.

Python's `int(str)` is modelled in `PyInt`. It strips ASCII whitespace
(space and `\t` through `\r`; not the separators `\x1c`..`\x1f`), takes an
optional sign, and accepts decimal digits where single underscores may
separate digits. It also accepts at most 4300 digits, the default limit on
integer string conversion. Otherwise it raises `ValueError`, and
`PyInt.Parse` returns `None`. `PyInt.ParseShow` proves that
`int(str(n)) == n` for every integer that `str` converts.

Facts about the code that the model relies on:
- A networkx `DiGraph` keeps at most one edge per ordered pair of nodes. `NetworkGraph.WellFormed` says so.
- `int()` on a string that is not an integer literal raises `ValueError`. This is modelled as
  `Tables.Error.InvalidIntLiteral`.
- A graph without edges raises at the first `pd.concat`, before the naming loop.
- The edge table follows `G.edges` iteration order. That order is part of the given graph value.

## Model

| member | source | states |
|---|---|---|
| `NetworkGraph.DiGraph.constructor` | Network_Analysis_App.py:39 | the graph object holds exactly the given well-formed graph (nodes in order, names, edges in iteration order) |
| `NetworkGraph.DiGraph.AddNode` | Network_Analysis_App.py:65 | `G.add_node(n, name=v)` appends `n` only when it is new, sets its `name` to `v`, leaves the edges alone and keeps the graph well-formed |
| `Tables.EdgeTable` | Network_Analysis_App.py:44-56 | the edge loop plus concat yields exactly the edge table of `G`'s edges, and leaves `data` bound to the last edge-row dict (or unchanged when there are no edges) |
| `Tables.EdgeRowsProjection` | Network_Analysis_App.py:49-53 | one row per edge in edge order; Source/Target are the edge's endpoints; Weight is the `weight` attribute when present and `None` otherwise |
| `Tables.EdgeTableSpec` | Network_Analysis_App.py:56 | the edge-table step raises (no objects to concatenate) exactly when `G` has no edges; otherwise it yields the projected rows |
| `Tables.AssignNames` | Network_Analysis_App.py:62-66 | the naming loop keeps the node sequence and the edges unchanged and leaves the names and `i` as `NameLoop` computes them from the old graph and `data` |
| `Tables.NameLoopCounter` | Network_Analysis_App.py:62-66 | `i` ends at min(node count, list length) when `data` has `usernameList`, else at 0; it never exceeds the list length |
| `Tables.NameLoopPositional` | Network_Analysis_App.py:63-65 | for distinct nodes, the k-th node gets the k-th username exactly when the guard holds at k; every other node, in or out of the loop, keeps its previous name |
| `Tables.ShadowedGuardNeverHolds` | Network_Analysis_App.py:64 | with `data` an edge-row dict, the naming loop leaves every name as it was and `i` at 0 |
| `Tables.NodeTable` | Network_Analysis_App.py:68-80 | the node loop plus concat yields exactly the node table of the graph, stopping at the first id `int` rejects |
| `Tables.NodeRowsFailurePersists` | Network_Analysis_App.py:75 | once `int(id)` has raised on a node, the whole node loop ends with that error |
| `Tables.NodeRowsSucceedIff` | Network_Analysis_App.py:73-77 | the node loop completes if and only if every node id is an integer literal |
| `Tables.NodeRowsValues` | Network_Analysis_App.py:73-77 | a completed node loop has one row per node, in node order, holding `int(id)` and the node's `name` or `None` |
| `Tables.NodeRowsFirstFailure` | Network_Analysis_App.py:75 | a failed node loop reports the first node id, in node order, that is not an integer literal |
| `Tables.NodeTableSpec` | Network_Analysis_App.py:73-80 | the node table exists exactly when there is a node and every id parses; then it has one `(int(id), name)` row per node in node order |
| `PyInt.Parse` | Network_Analysis_App.py:75 | `int(id)` yields a value only when the stripped id is non-empty, and a negative value only when it starts with `-` |
| `PyInt.ParseSkipsOnlyAsciiSpace` | Network_Analysis_App.py:75 | `int` skips vertical tab and form feed around a literal but raises on the separators `\x1c` and `\x1f` |
| `PyInt.TrimStartDropsSpaces` | Network_Analysis_App.py:75 | stripping before `int` removes a run of leading whitespace and nothing else |
| `PyInt.TrimEndDropsSpaces` | Network_Analysis_App.py:75 | stripping before `int` removes a run of trailing whitespace and nothing else |
| `PyInt.StripIsInfix` | Network_Analysis_App.py:75 | the stripped id is a contiguous stretch of the id with only whitespace around it |
| `PyInt.StripKeeps` | Network_Analysis_App.py:75 | an id whose first and last characters are not whitespace is unchanged by stripping |
| `PyInt.ShowNatIsDigitRun` | Network_Analysis_App.py:75 | the decimal spelling of a natural number is a non-empty run of digits whose value is that number |
| `PyInt.DigitCountOfDigits` | Network_Analysis_App.py:75 | a string of digits counts one digit per character towards the conversion limit |
| `PyInt.ParseShow` | Network_Analysis_App.py:75 | `int(str(n)) == n` for every integer `n` of at most 4300 digits (the integers `str` converts) |
| `PyInt.ParseRejectsOverLimit` | Network_Analysis_App.py:75 | a node id of more than 4300 digits makes `int(id)` raise |
| `PyInt.ParseOnlyLiterals` | Network_Analysis_App.py:75 | `int(id)` raises unless `id` is non-empty and made only of digits, underscores, signs and whitespace |
| `Pipeline.RunFromOutcome` | Network_Analysis_App.py:47-82 | a run fails at the edge concat exactly when `G` has no edges (with an edge, any failure is `int(id)`'s), succeeds exactly when `G` has an edge and every id is an integer literal, and then its edge table is the projection of the edges |
| `Pipeline.AsWrittenNamesNoNode` | Network_Analysis_App.py:51 | as written, a successful run leaves `i` at 0 and the names unchanged, and every node-table row carries the name the node had before |
| `Pipeline.CorrectedNamesPositionally` | Network_Analysis_App.py:60-66 | with `data` left as the JSON frame, `i` ends at min(nodes, usernames), and the k-th row is named with the k-th username while there is one; later rows keep their old name |
| `Pipeline.ScenarioIdsParse` | Network_Analysis_App.py:75 | `int` turns the scenario ids "1", "2", "3" into 1, 2, 3 |
| `Pipeline.ScenarioFacts` | Network_Analysis_App.py:49-53 | the two-edge scenario graph is well formed, its ids parse to 1, 2, 3, and its edge rows are ("1","2",4.0) and ("2","3",None), Source and Target being the string tokens of the edge list |
| `Pipeline.ShadowingCounterexample` | Network_Analysis_App.py:41-82 | on the scenario graph with usernames Alice, Bob, Carol, the scripts' run yields rows (1,None), (2,None), (3,None) and `i == 0` |
| `Pipeline.CorrectedScenario` | Network_Analysis_App.py:60-61 | on the same input the intended run names the nodes Alice, Bob, Carol in order |
| `NetworkAnalysisApp.Run` | Network_Analysis_App.py:41-82 | the dashboard's three steps compute `AsWritten` of the loaded graph and frame and leave `G` unchanged |
| `NetworkAnalysisApp.RunCorrected` | Network_Analysis_App.py:60-66 | the intended steps compute `Corrected`, keep nodes and edges, and leave `G`'s names as the positional naming loop over the JSON frame sets them |
| `Tester.Run` | Tester/Tester.py:20-50 | the tester's three steps compute the same `AsWritten` run and leave `G` unchanged: with `data` rebound at line 29 the guard at line 37 never holds |

## Findings

| source | as written | input that shows it | evidently intended | confidence | as-written member | corrected member |
|---|---|---|---|---|---|---|
| Network_Analysis_App.py:51 | the edge loop rebinds `data`, the JSON frame, to the edge-row dict, so the guard at line 64 is false and no node gets a name | edge list `1 2 {'weight': 4}` / `2 3` with usernames Alice, Bob, Carol: node table (1,None), (2,None), (3,None) | the comment at lines 60-61: nodes named Alice, Bob, Carol in node order | high (proved on the model; not executed) | `Pipeline.ShadowingCounterexample` | `Pipeline.CorrectedNamesPositionally` |
| Tester/Tester.py:29 | the same rebinding of `data`, so the guard at line 37 is false and no node gets a name | the same edge list and usernames | nodes named by position from `usernameList` | high (proved on the model; not executed) | `Tester.Run` | `NetworkAnalysisApp.RunCorrected` |

## Left out

- Fetching and parsing at Network_Analysis_App.py:36-41 and Tester/Tester.py:12-20 are left out. These are `urlopen`, `nx.read_edgelist` and `pd.read_json`. The graph is an input value. The merging of repeated edges and the first-seen node order are networkx's, and the model takes them as given.
- The JSON frame is reduced to two facts: whether it has a `usernameList` column, and the list in that column's row 0. Its other columns are not modelled. A frame without row 0, which would raise `KeyError`, is not modelled either.
- Node attributes other than `name` are not modelled, because the edge-list reader creates none. Edge attribute values are modelled as `real`. Other Python value types are not modelled.
- `PyInt.Parse`: Unicode digits and non-ASCII whitespace (such as `\xa0` or `\u2003`), which Python's `int` also accepts, are not modelled. Node ids are ASCII tokens of the edge-list file.
- `PyInt.Parse` fixes the digit limit at its default of 4300. Interpreters without the limit (CPython before 3.11, except 3.7.14, 3.8.14, 3.9.14, 3.10.7 and every later release of those branches) accept any length. A limit changed through `sys.set_int_max_str_digits`, the `PYTHONINTMAXSTRDIGITS` environment variable or the `-X int_max_str_digits` option is not modelled.
- `PyInt.Show` does not model the limit, because `str(n)` is not called by the modelled code. `PyInt.ParseShow` is stated only for integers within the limit.
- pandas internals are not modelled. Tables are sequences of rows, and the index created by `ignore_index=True` is left out.
- The empty frames created at Network_Analysis_App.py:44 and :68 are not modelled. Both are overwritten before anyone reads them.
- Some later rebindings are not modelled, because the modelled core never reads them. These are `data` in the node loop (Network_Analysis_App.py:75, Tester/Tester.py:45) and `df` (Network_Analysis_App.py:76, Tester/Tester.py:46).
- The Kamada–Kawai layout at Network_Analysis_App.py:85 is left out. It is library floating-point numerics.
- The centrality branch at Network_Analysis_App.py:97-112 is left out. It is library centrality, a float sort and plotting.
- The Streamlit, holoviews and bokeh glue at Network_Analysis_App.py:17-29 and :87-95 is left out, because it is UI.
- Tester's selection branch at Tester/Tester.py:53-100 is left out. It is UI and HTML file output, and it calls DataFrame columns and methods that do not exist.
- An exception ends the script. The model returns `Failure` and stops at that step, and the graph keeps whatever changes were made before it.
