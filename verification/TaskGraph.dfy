/** Building the task graph (examples/MANGO/utilities.py, `build_graph`): each workflow becomes a path
    from node 0 to node 1 through nodes shared with earlier, similar subtasks. Embeddings are inputs
    and similarity is an uninterpreted function. */
module TaskGraph {
  import opened Ordering

  // ---------------------------------------------------------------- vectors and running centroids

  type Vector = seq<real>

  function Coordinate(v: Vector, i: nat): real
  {
    if i < |v| then v[i] else 0.0
  }

  function Sum(vs: seq<Vector>, i: nat): real
  {
    if vs == [] then 0.0 else Sum(vs[..|vs| - 1], i) + Coordinate(vs[|vs| - 1], i)
  }

  /** The mean of some vectors, to `dim` coordinates. */
  function Mean(vs: seq<Vector>, dim: nat): Vector
    requires vs != []
  {
    seq(dim, (i: nat) => Sum(vs, i) / |vs| as real)
  }

  /** `(centroid * (n - 1) + x) / n`. */
  function Averaged(centroid: Vector, n: nat, x: Vector): Vector
    requires n > 0
  {
    seq(|x|, (i: nat) => AveragedAt(Coordinate(centroid, i), n as real, Coordinate(x, i)))
  }

  function AveragedAt(c: real, n: real, x: real): real
    requires n != 0.0
  {
    (c * (n - 1.0) + x) / n
  }

  /** Updating the running centroid gives the mean of all vectors so far. */
  lemma RunningMean(vs: seq<Vector>, x: Vector, dim: nat)
    requires vs != [] && |x| == dim
    ensures Averaged(Mean(vs, dim), |vs| + 1, x) == Mean(vs + [x], dim)
  {
    var n := |vs|;
    assert (vs + [x])[..n] == vs;
    forall i: nat | i < dim
      ensures AveragedAt(Coordinate(Mean(vs, dim), i), (n + 1) as real, x[i]) == Sum(vs + [x], i) / (n + 1) as real
    {
      Cancel(Sum(vs, i), n as real);
    }
  }

  lemma Cancel(s: real, n: real)
    requires n != 0.0
    ensures s / n * n == s
  {
  }

  lemma MeanOfOne(x: Vector)
    ensures Mean([x], |x|) == x
  {
    assert [x][..0] == [];
    forall i: nat | i < |x| ensures Mean([x], |x|)[i] == x[i] {
      assert Sum([x], i) == x[i];
    }
  }

  // ---------------------------------------------------------------- the graph and its history

  /** A subtask of a workflow, with its two embeddings. */
  datatype Subtask = Subtask(concrete: string, role: string, content: Vector, rd: Vector)

  datatype Visit = Visit(node: nat, subtask: Subtask)

  /** One workflow as built: the node each of its subtasks went to. */
  datatype Run = Run(tid: string, visits: seq<Visit>)

  function NodeOf(v: Visit): nat { v.node }
  function SubtaskOf(v: Visit): Subtask { v.subtask }

  /** `current_node_path` before the target node is added. */
  function Walked(r: Run): seq<nat>
  {
    [0] + Map(NodeOf, r.visits)
  }

  /** `tid_to_path`: from the source node 0 to the target node 1. */
  function Path(r: Run): seq<nat>
  {
    Walked(r) + [1]
  }

  datatype Entry = Entry(tid: string, subtask: Subtask)

  /** The attributes of a node in the graph. */
  datatype NodeData = NodeData(subtasks: seq<string>, roles: seq<string>, contents: seq<Vector>, rds: seq<Vector>,
      tids: seq<string>)

  function Concrete(e: Entry): string { e.subtask.concrete }
  function Role(e: Entry): string { e.subtask.role }
  function Content(e: Entry): Vector { e.subtask.content }
  function Rd(e: Entry): Vector { e.subtask.rd }
  function Tid(e: Entry): string { e.tid }

  function DataOf(es: seq<Entry>): NodeData
  {
    NodeData(Map(Concrete, es), Map(Role, es), Map(Content, es), Map(Rd, es), Map(Tid, es))
  }

  /** What the visits of one run assigned to a node. */
  function AssignedBy(tid: string, visits: seq<Visit>, n: nat): seq<Entry>
  {
    if visits == [] then []
    else
      var k := |visits| - 1;
      AssignedBy(tid, visits[..k], n) + if visits[k].node == n then [Entry(tid, visits[k].subtask)] else []
  }

  /** What all runs assigned to a node, in order. */
  function Assigned(log: seq<Run>, n: nat): seq<Entry>
  {
    if log == [] then []
    else
      var k := |log| - 1;
      Assigned(log[..k], n) + AssignedBy(log[k].tid, log[k].visits, n)
  }

  ghost predicate UsesEdge(path: seq<nat>, u: nat, v: nat)
  {
    exists j :: 0 <= j < |path| - 1 && path[j] == u && path[j + 1] == v
  }

  /** The tasks whose path uses an edge, in order. */
  ghost function TidsUsing(log: seq<Run>, u: nat, v: nat): seq<string>
  {
    if log == [] then []
    else
      var k := |log| - 1;
      TidsUsing(log[..k], u, v) + if UsesEdge(Path(log[k]), u, v) then [log[k].tid] else []
  }

  function Pairs(path: seq<nat>): (ps: seq<(nat, nat)>)
    ensures |ps| == if |path| < 2 then 0 else |path| - 1
    ensures forall j :: 0 <= j < |path| - 1 ==> ps[j] == (path[j], path[j + 1])
  {
    if |path| < 2 then [] else Pairs(path[..|path| - 1]) + [(path[|path| - 2], path[|path| - 1])]
  }

  /** `query_to_edge`: the edges of the task's paths, in order. */
  function EdgesOf(log: seq<Run>, tid: string): seq<(nat, nat)>
  {
    if log == [] then []
    else
      var k := |log| - 1;
      EdgesOf(log[..k], tid) + if log[k].tid == tid then Pairs(Path(log[k])) else []
  }

  /** `starting_nodes`: the first interior node of each path that has one. */
  function Starts(log: seq<Run>): seq<nat>
  {
    if log == [] then []
    else
      var k := |log| - 1;
      Starts(log[..k]) + if log[k].visits == [] then [] else [log[k].visits[0].node]
  }

  // ---------------------------------------------------------------- what stays consistent

  /** A run so far: distinct interior nodes below `counter`, all embeddings of dimension `dim`. */
  ghost predicate RunOk(r: Run, counter: nat, dim: nat)
  {
    && (forall i :: 0 <= i < |r.visits| ==> VisitOk(r.visits[i], counter, dim))
    && (forall i, j :: 0 <= i < j < |r.visits| ==> r.visits[i].node != r.visits[j].node)
  }

  ghost predicate VisitOk(v: Visit, counter: nat, dim: nat)
  {
    2 <= v.node < counter && |v.subtask.content| == dim && |v.subtask.rd| == dim
  }

  ghost predicate LogOk(log: seq<Run>, counter: nat, dim: nat)
  {
    forall k :: 0 <= k < |log| ==> LoggedOk(log, k, counter, dim)
  }

  ghost predicate LoggedOk(log: seq<Run>, k: nat, counter: nat, dim: nat)
    requires k < |log|
  {
    RunOk(log[k], counter, dim)
  }

  /** A node holds exactly what the runs assigned to it, and its two running centroids are the means of
      its stored vectors. */
  ghost predicate NodeOk(data: NodeData, content: Vector, rd: Vector, es: seq<Entry>, dim: nat)
  {
    es != [] && data == DataOf(es) && content == Mean(Map(Content, es), dim) && rd == Mean(Map(Rd, es), dim)
  }

  datatype Tables = Tables(nodes: map<nat, NodeData>, contents: map<nat, Vector>, rds: map<nat, Vector>)

  /** The nodes are those from 2 up to `counter`; node 1 has vectors only. */
  ghost predicate KeysOk(t: Tables, counter: nat)
  {
    && counter >= 2
    && (forall n :: n in t.nodes <==> 2 <= n < counter)
    && (forall n :: n in t.contents <==> 1 <= n < counter)
    && (forall n :: n in t.rds <==> 1 <= n < counter)
  }

  ghost predicate Holds(t: Tables, n: nat, es: seq<Entry>, dim: nat)
  {
    n in t.nodes && n in t.contents && n in t.rds && NodeOk(t.nodes[n], t.contents[n], t.rds[n], es, dim)
  }

  ghost predicate TablesOk(t: Tables, log: seq<Run>, counter: nat, dim: nat)
  {
    && KeysOk(t, counter)
    && forall n: nat :: 2 <= n < counter ==> HoldsRuns(t, n, log, dim)
  }

  ghost predicate HoldsRuns(t: Tables, n: nat, log: seq<Run>, dim: nat)
  {
    Holds(t, n, Assigned(log, n), dim)
  }

  /** An edge exists exactly when some path uses it, and its `tids` are the tasks that do, in order. */
  ghost predicate EdgesOk(edges: map<(nat, nat), seq<string>>, log: seq<Run>)
  {
    forall u: nat, v: nat :: EdgeOk(edges, log, u, v)
  }

  ghost predicate EdgeOk(edges: map<(nat, nat), seq<string>>, log: seq<Run>, u: nat, v: nat)
  {
    EdgeTids(edges, u, v) == TidsUsing(log, u, v) && ((u, v) in edges <==> TidsUsing(log, u, v) != [])
  }

  function EdgeTids(edges: map<(nat, nat), seq<string>>, u: nat, v: nat): seq<string>
  {
    if (u, v) in edges then edges[(u, v)] else []
  }

  /** Every built path runs from node 0 to node 1 without repeating a node. */
  lemma PathDistinct(r: Run, counter: nat, dim: nat)
    requires RunOk(r, counter, dim)
    ensures Path(r)[0] == 0 && Path(r)[|Path(r)| - 1] == 1 && Distinct(Path(r))
    ensures |Path(r)| == |r.visits| + 2 && forall i :: 0 <= i < |r.visits| ==> Path(r)[i + 1] == r.visits[i].node
  {
    var p := Path(r);
    forall i | 0 < i < |p| - 1 ensures p[i] == r.visits[i - 1].node {
    }
    forall i, j | 0 <= i < j < |p| ensures p[i] != p[j] {
      if 0 < i {
        assert VisitOk(r.visits[i - 1], counter, dim);
      }
      if j < |p| - 1 {
        assert VisitOk(r.visits[j - 1], counter, dim);
      }
    }
  }

  // ---------------------------------------------------------------- one more subtask in a run

  function Step(r: Run, v: Visit): Run
  {
    Run(r.tid, r.visits + [v])
  }

  function Absorbed(data: NodeData, e: Entry): NodeData
  {
    NodeData(data.subtasks + [e.subtask.concrete], data.roles + [e.subtask.role],
             data.contents + [e.subtask.content], data.rds + [e.subtask.rd], data.tids + [e.tid])
  }

  lemma StepAssigns(log: seq<Run>, r: Run, v: Visit, n: nat)
    ensures Assigned(log + [Step(r, v)], n)
         == Assigned(log + [r], n) + if v.node == n then [Entry(r.tid, v.subtask)] else []
  {
    assert (log + [r])[..|log|] == log && (log + [Step(r, v)])[..|log|] == log;
    assert (r.visits + [v])[..|r.visits|] == r.visits;
    Regroup(Assigned(log, n), AssignedBy(r.tid, r.visits, n), if v.node == n then [Entry(r.tid, v.subtask)] else []);
  }

  lemma {:induction false} UnseenNode(log: seq<Run>, counter: nat, dim: nat, n: nat)
    requires LogOk(log, counter, dim) && n >= counter
    ensures Assigned(log, n) == []
  {
    if log != [] {
      var k := |log| - 1;
      LogOkPrefix(log, k, counter, dim);
      UnseenNode(log[..k], counter, dim, n);
      UnvisitedNode(log[k].tid, log[k].visits, counter, dim, n);
    }
  }

  lemma LogOkPrefix(log: seq<Run>, k: nat, counter: nat, dim: nat)
    requires LogOk(log, counter, dim) && k < |log|
    ensures LogOk(log[..k], counter, dim) && RunOk(log[k], counter, dim)
  {
    assert LoggedOk(log, k, counter, dim);
    forall j | 0 <= j < k ensures LoggedOk(log[..k], j, counter, dim) {
      assert LoggedOk(log, j, counter, dim);
    }
  }

  lemma LastRunOk(log: seq<Run>, r: Run, counter: nat, dim: nat)
    requires LogOk(log + [r], counter, dim)
    ensures RunOk(r, counter, dim)
  {
    LogOkPrefix(log + [r], |log|, counter, dim);
  }

  lemma {:induction false} UnvisitedNode(tid: string, visits: seq<Visit>, counter: nat, dim: nat, n: nat)
    requires (forall i :: 0 <= i < |visits| ==> VisitOk(visits[i], counter, dim)) && n >= counter
    ensures AssignedBy(tid, visits, n) == []
  {
    if visits != [] {
      UnvisitedNode(tid, visits[..|visits| - 1], counter, dim, n);
    }
  }

  lemma AppendedData(es: seq<Entry>, e: Entry)
    ensures DataOf(es + [e]) == Absorbed(DataOf(es), e)
  {
    MapConcat(Concrete, es, [e]);
    MapConcat(Role, es, [e]);
    MapConcat(Content, es, [e]);
    MapConcat(Rd, es, [e]);
    MapConcat(Tid, es, [e]);
  }

  lemma AbsorbedNodeOk(data: NodeData, content: Vector, rd: Vector, es: seq<Entry>, e: Entry, dim: nat)
    requires NodeOk(data, content, rd, es, dim) && |e.subtask.content| == dim && |e.subtask.rd| == dim
    ensures NodeOk(Absorbed(data, e), Averaged(content, |data.subtasks| + 1, e.subtask.content),
                   Averaged(rd, |data.subtasks| + 1, e.subtask.rd), es + [e], dim)
  {
    RunningMean(data.contents, e.subtask.content, dim);
    RunningMean(data.rds, e.subtask.rd, dim);
    AppendedData(es, e);
  }

  const BLANK := NodeData([], [], [], [], [])

  lemma FreshNodeOk(e: Entry, dim: nat)
    requires |e.subtask.content| == dim && |e.subtask.rd| == dim
    ensures NodeOk(Absorbed(BLANK, e), e.subtask.content, e.subtask.rd, [e], dim)
  {
    MeanOfOne(e.subtask.content);
    MeanOfOne(e.subtask.rd);
    AppendedData([], e);
    assert [] + [e] == [e];
  }

  /** Adding `e` to node `n`, which is either there already or the next new node. */
  function Placed(t: Tables, n: nat, e: Entry): Tables
  {
    var s := e.subtask;
    if n in t.nodes && n in t.contents && n in t.rds then
      var count := |t.nodes[n].subtasks| + 1;
      Tables(t.nodes[n := Absorbed(t.nodes[n], e)], t.contents[n := Averaged(t.contents[n], count, s.content)],
             t.rds[n := Averaged(t.rds[n], count, s.rd)])
    else
      Tables(t.nodes[n := Absorbed(BLANK, e)], t.contents[n := s.content], t.rds[n := s.rd])
  }

  lemma PlacedKeepsTables(t: Tables, log: seq<Run>, r: Run, counter: nat, dim: nat, v: Visit)
    requires TablesOk(t, log + [r], counter, dim) && LogOk(log + [r], counter, dim)
    requires 2 <= v.node <= counter && |v.subtask.content| == dim && |v.subtask.rd| == dim
    ensures TablesOk(Placed(t, v.node, Entry(r.tid, v.subtask)), log + [Step(r, v)],
                     counter + if v.node == counter then 1 else 0, dim)
  {
    var e := Entry(r.tid, v.subtask);
    PlacedKeys(t, counter, v.node, e);
    forall n: nat | 2 <= n < counter || n == v.node
      ensures HoldsRuns(Placed(t, v.node, e), n, log + [Step(r, v)], dim)
    {
      StepAssigns(log, r, v, n);
      var es := Assigned(log + [r], n);
      if n == v.node {
        PlacedHolds(t, log + [r], counter, dim, n, e);
      } else {
        assert HoldsRuns(t, n, log + [r], dim) && es + [] == es;
        PlacedElsewhere(t, v.node, e, n, es, dim);
      }
    }
  }

  lemma PlacedKeys(t: Tables, counter: nat, n: nat, e: Entry)
    requires KeysOk(t, counter) && 2 <= n <= counter
    ensures KeysOk(Placed(t, n, e), counter + if n == counter then 1 else 0)
  {
  }

  lemma PlacedElsewhere(t: Tables, n: nat, e: Entry, m: nat, es: seq<Entry>, dim: nat)
    requires m != n && Holds(t, m, es, dim)
    ensures Holds(Placed(t, n, e), m, es, dim)
  {
  }

  lemma PlacedHolds(t: Tables, log: seq<Run>, counter: nat, dim: nat, n: nat, e: Entry)
    requires TablesOk(t, log, counter, dim) && LogOk(log, counter, dim)
    requires 2 <= n <= counter && |e.subtask.content| == dim && |e.subtask.rd| == dim
    ensures Holds(Placed(t, n, e), n, Assigned(log, n) + [e], dim)
  {
    var es := Assigned(log, n);
    if n == counter {
      UnseenNode(log, counter, dim, n);
      FreshNodeOk(e, dim);
      assert es + [e] == [e];
    } else {
      assert HoldsRuns(t, n, log, dim);
      AbsorbedNodeOk(t.nodes[n], t.contents[n], t.rds[n], es, e, dim);
    }
  }

  lemma CounterUnused(log: seq<Run>, r: Run, counter: nat, dim: nat)
    requires LogOk(log + [r], counter, dim) && counter >= 2
    ensures counter !in Walked(r)
  {
    LastRunOk(log, r, counter, dim);
    forall i | 0 <= i < |r.visits| ensures r.visits[i].node != counter {
      assert VisitOk(r.visits[i], counter, dim);
    }
  }

  lemma StepKeepsLog(log: seq<Run>, r: Run, counter: nat, dim: nat, v: Visit)
    requires LogOk(log + [r], counter, dim) && v.node !in Walked(r)
    requires 2 <= v.node <= counter && |v.subtask.content| == dim && |v.subtask.rd| == dim
    ensures LogOk(log + [Step(r, v)], counter + if v.node == counter then 1 else 0, dim)
  {
    var c := counter + if v.node == counter then 1 else 0;
    LastRunOk(log, r, counter, dim);
    StepKeepsRun(r, counter, dim, v);
    forall k | 0 <= k < |log| + 1 ensures LoggedOk(log + [Step(r, v)], k, c, dim) {
      if k < |log| {
        assert LoggedOk(log + [r], k, counter, dim) && (log + [r])[k] == log[k];
        LaterRunOk(log[k], counter, c, dim);
      }
    }
  }

  lemma LaterRunOk(r: Run, counter: nat, c: nat, dim: nat)
    requires RunOk(r, counter, dim) && counter <= c
    ensures RunOk(r, c, dim)
  {
    forall i | 0 <= i < |r.visits| ensures VisitOk(r.visits[i], c, dim) {
      assert VisitOk(r.visits[i], counter, dim);
    }
  }

  lemma StepKeepsRun(r: Run, counter: nat, dim: nat, v: Visit)
    requires RunOk(r, counter, dim) && v.node !in Walked(r)
    requires 2 <= v.node <= counter && |v.subtask.content| == dim && |v.subtask.rd| == dim
    ensures RunOk(Step(r, v), counter + if v.node == counter then 1 else 0, dim)
  {
    LaterRunOk(r, counter, counter + if v.node == counter then 1 else 0, dim);
    forall i | 0 <= i < |r.visits| ensures r.visits[i].node != v.node {
      assert Walked(r)[i + 1] == r.visits[i].node;
    }
  }

  // ---------------------------------------------------------------- the edges of one more path

  /** `edges` is `before` with `tid` added to every edge of `path`. */
  ghost predicate EdgesAdded(before: map<(nat, nat), seq<string>>, edges: map<(nat, nat), seq<string>>, tid: string,
                             path: seq<nat>)
  {
    forall u: nat, v: nat :: EdgeAddedTo(before, edges, tid, path, u, v)
  }

  ghost predicate EdgeAddedTo(before: map<(nat, nat), seq<string>>, edges: map<(nat, nat), seq<string>>, tid: string,
                              path: seq<nat>,
                              u: nat, v: nat)
  {
    if UsesEdge(path, u, v) then (u, v) in edges && EdgeTids(edges, u, v) == EdgeTids(before, u, v) + [tid]
    else ((u, v) in edges <==> (u, v) in before) && EdgeTids(edges, u, v) == EdgeTids(before, u, v)
  }

  lemma UsesNext(path: seq<nat>, j: nat, u: nat, v: nat)
    requires Distinct(path) && j + 1 < |path|
    ensures UsesEdge(path[..j + 2], u, v) <==> UsesEdge(path[..j + 1], u, v) || (u == path[j] && v == path[j + 1])
    ensures !UsesEdge(path[..j + 1], path[j], path[j + 1])
  {
    var shorter, longer := path[..j + 1], path[..j + 2];
    if UsesEdge(shorter, u, v) {
      var i :| 0 <= i < |shorter| - 1 && shorter[i] == u && shorter[i + 1] == v;
      assert longer[i] == u && longer[i + 1] == v;
    }
    if u == path[j] && v == path[j + 1] {
      assert longer[j] == u && longer[j + 1] == v;
    }
    if UsesEdge(longer, u, v) {
      var i :| 0 <= i < |longer| - 1 && longer[i] == u && longer[i + 1] == v;
      assert i < j ==> shorter[i] == u && shorter[i + 1] == v;
    }
  }

  lemma EdgeAdded(before: map<(nat, nat), seq<string>>, edges: map<(nat, nat), seq<string>>, tid: string,
                  path: seq<nat>, j: nat)
    requires Distinct(path) && j + 1 < |path| && EdgesAdded(before, edges, tid, path[..j + 1])
    ensures EdgesAdded(before, edges[(path[j], path[j + 1]) := EdgeTids(edges, path[j], path[j + 1]) + [tid]],
                       tid, path[..j + 2])
  {
    var after := edges[(path[j], path[j + 1]) := EdgeTids(edges, path[j], path[j + 1]) + [tid]];
    var shorter, longer := path[..j + 1], path[..j + 2];
    forall u: nat, v: nat ensures EdgeAddedTo(before, after, tid, longer, u, v) {
      UsesNext(path, j, u, v);
      assert EdgeAddedTo(before, edges, tid, shorter, u, v);
    }
  }

  lemma RunKeepsEdges(before: map<(nat, nat), seq<string>>, edges: map<(nat, nat), seq<string>>, log: seq<Run>, r: Run)
    requires EdgesOk(before, log) && EdgesAdded(before, edges, r.tid, Path(r))
    ensures EdgesOk(edges, log + [r])
  {
    assert (log + [r])[..|log|] == log;
    forall u: nat, v: nat ensures EdgeOk(edges, log + [r], u, v) {
      var ts := TidsUsing(log, u, v);
      assert EdgeOk(before, log, u, v) && EdgeAddedTo(before, edges, r.tid, Path(r), u, v);
      assert ts + [] == ts;
    }
  }

  // ---------------------------------------------------------------- what the tables say about one more run

  function Queried(q: map<string, seq<(nat, nat)>>, tid: string): seq<(nat, nat)>
  {
    if tid in q then q[tid] else []
  }

  /** `query_to_edge` lists the edges of every task's paths, `tid_to_path` its latest path, and
      `starting_nodes` where the paths start. */
  ghost predicate IndexOk(q: map<string, seq<(nat, nat)>>, paths: map<string, seq<nat>>, starts: seq<nat>,
                          log: seq<Run>)
  {
    (forall tid :: TaskOk(q, paths, log, tid)) && starts == Starts(log)
  }

  ghost predicate TaskOk(q: map<string, seq<(nat, nat)>>, paths: map<string, seq<nat>>, log: seq<Run>, tid: string)
  {
    Queried(q, tid) == EdgesOf(log, tid) && LatestPath(log, tid) == if tid in paths then [paths[tid]] else []
  }

  function LatestPath(log: seq<Run>, tid: string): seq<seq<nat>>
  {
    if log == [] then []
    else
      var k := |log| - 1;
      if log[k].tid == tid then [Path(log[k])] else LatestPath(log[..k], tid)
  }

  /** `after` is `before` with `pairs` added for `tid`. */
  ghost predicate QueriesAdded(before: map<string, seq<(nat, nat)>>, after: map<string, seq<(nat, nat)>>, tid: string,
                               pairs: seq<(nat, nat)>)
  {
    forall t :: QueryAddedTo(before, after, tid, pairs, t)
  }

  ghost predicate QueryAddedTo(before: map<string, seq<(nat, nat)>>, after: map<string, seq<(nat, nat)>>, tid: string,
                               pairs: seq<(nat, nat)>, t: string)
  {
    Queried(after, t) == if t == tid then Queried(before, t) + pairs else Queried(before, t)
  }

  lemma QueryAdded(before: map<string, seq<(nat, nat)>>, after: map<string, seq<(nat, nat)>>, tid: string,
                   pairs: seq<(nat, nat)>, p: (nat, nat))
    requires QueriesAdded(before, after, tid, pairs)
    ensures QueriesAdded(before, after[tid := Queried(after, tid) + [p]], tid, pairs + [p])
  {
    Regroup(Queried(before, tid), pairs, [p]);
    var next, longer := after[tid := Queried(after, tid) + [p]], pairs + [p];
    forall t ensures QueryAddedTo(before, next, tid, longer, t) {
      assert QueryAddedTo(before, after, tid, pairs, t);
    }
  }

  lemma RunKeepsIndex(before: map<string, seq<(nat, nat)>>, q: map<string, seq<(nat, nat)>>,
                      paths: map<string, seq<nat>>, starts: seq<nat>,
                      log: seq<Run>, r: Run)
    requires IndexOk(before, paths, starts, log) && QueriesAdded(before, q, r.tid, Pairs(Path(r)))
    ensures IndexOk(q, paths[r.tid := Path(r)], starts + if r.visits == [] then [] else [r.visits[0].node], log + [r])
  {
    assert (log + [r])[..|log|] == log;
    var newPaths, longer := paths[r.tid := Path(r)], log + [r];
    forall tid ensures TaskOk(q, newPaths, longer, tid) {
      var es := EdgesOf(log, tid);
      assert TaskOk(before, paths, log, tid) && QueryAddedTo(before, q, r.tid, Pairs(Path(r)), tid);
      assert es + [] == es;
    }
  }

  /** The edges and queries of the first `j` steps of a path are recorded. */
  ghost predicate EdgesUpTo(e0: map<(nat, nat), seq<string>>, e: map<(nat, nat), seq<string>>,
                            q0: map<string, seq<(nat, nat)>>,
                            q: map<string, seq<(nat, nat)>>, tid: string, path: seq<nat>, j: nat)
    requires j < |path|
  {
    EdgesAdded(e0, e, tid, path[..j + 1]) && QueriesAdded(q0, q, tid, Pairs(path[..j + 1]))
  }

  lemma EdgesUpToNext(e0: map<(nat, nat), seq<string>>, e: map<(nat, nat), seq<string>>,
                      q0: map<string, seq<(nat, nat)>>,
                      q: map<string, seq<(nat, nat)>>, tid: string, path: seq<nat>, j: nat)
    requires Distinct(path) && j + 1 < |path| && EdgesUpTo(e0, e, q0, q, tid, path, j)
    ensures EdgesUpTo(e0, e[(path[j], path[j + 1]) := EdgeTids(e, path[j], path[j + 1]) + [tid]], q0,
                      q[tid := Queried(q, tid) + [(path[j], path[j + 1])]], tid, path, j + 1)
  {
    EdgeAdded(e0, e, tid, path, j);
    PairsNext(path, j);
    QueryAdded(q0, q, tid, Pairs(path[..j + 1]), (path[j], path[j + 1]));
  }

  lemma EdgesUpToStart(e: map<(nat, nat), seq<string>>, q: map<string, seq<(nat, nat)>>, tid: string, path: seq<nat>)
    requires path != []
    ensures EdgesUpTo(e, e, q, q, tid, path, 0)
  {
    var first := path[..1];
    assert forall u, v :: !UsesEdge(first, u, v);
    assert Pairs(first) == [];
    assert Queried(q, tid) + [] == Queried(q, tid);
  }

  lemma EdgesUpToEnd(e0: map<(nat, nat), seq<string>>, e: map<(nat, nat), seq<string>>,
                     q0: map<string, seq<(nat, nat)>>,
                     q: map<string, seq<(nat, nat)>>, tid: string, path: seq<nat>, j: nat)
    requires j + 1 == |path| && EdgesUpTo(e0, e, q0, q, tid, path, j)
    ensures EdgesAdded(e0, e, tid, path) && QueriesAdded(q0, q, tid, Pairs(path))
  {
    assert path[..j + 1] == path;
  }

  lemma PairsNext(path: seq<nat>, j: nat)
    requires j + 1 < |path|
    ensures Pairs(path[..j + 2]) == Pairs(path[..j + 1]) + [(path[j], path[j + 1])]
  {
    assert path[..j + 2][..j + 1] == path[..j + 1];
  }

  lemma StartRun(t: Tables, log: seq<Run>, counter: nat, dim: nat, tid: string)
    requires TablesOk(t, log, counter, dim) && LogOk(log, counter, dim)
    ensures TablesOk(t, log + [Run(tid, [])], counter, dim) && LogOk(log + [Run(tid, [])], counter, dim)
  {
    var r := Run(tid, []);
    assert (log + [r])[..|log|] == log;
    forall n: nat | 2 <= n < counter ensures HoldsRuns(t, n, log + [r], dim) {
      assert HoldsRuns(t, n, log, dim) && Assigned(log, n) + [] == Assigned(log, n);
    }
    forall k | 0 <= k < |log| + 1 ensures LoggedOk(log + [r], k, counter, dim) {
      assert k < |log| ==> LoggedOk(log, k, counter, dim);
    }
  }

  /** The edge loop of `build_graph`. */
  method WalkEdges(edges: map<(nat, nat), seq<string>>, queries: map<string, seq<(nat, nat)>>, starts: seq<nat>,
                   tid: string, path: seq<nat>)
    returns (e: map<(nat, nat), seq<string>>, q: map<string, seq<(nat, nat)>>, s: seq<nat>)
    requires Distinct(path) && path != []
    ensures EdgesAdded(edges, e, tid, path) && QueriesAdded(queries, q, tid, Pairs(path))
    ensures s == starts + if |path| > 2 then [path[1]] else []
  {
    e, q, s := edges, queries, starts;
    var j := 0;
    EdgesUpToStart(edges, queries, tid, path);
    while j + 1 < |path|
      invariant 0 <= j < |path|
      invariant EdgesUpTo(edges, e, queries, q, tid, path, j)
      invariant s == starts + if j > 1 then [path[1]] else []
    {
      EdgesUpToNext(edges, e, queries, q, tid, path, j);
      var u, v := path[j], path[j + 1];
      e := e[(u, v) := EdgeTids(e, u, v) + [tid]];
      if j == 1 {
        s := s + [u];
      }
      q := q[tid := Queried(q, tid) + [(u, v)]];
      j := j + 1;
    }
    EdgesUpToEnd(edges, e, queries, q, tid, path, j);
  }

  // ---------------------------------------------------------------- matching

  function Lookup(m: map<nat, Vector>, n: nat): Vector
  {
    if n in m then m[n] else []
  }

  datatype Matcher = Matcher(cosine: (Vector, Vector) -> real, threshold: real)

  /** The mean of the two cosine similarities between a subtask and a node. */
  function Resemblance(m: Matcher, s: Subtask, content: Vector, rd: Vector): real
  {
    (m.cosine(s.content, content) + m.cosine(s.rd, rd)) / 2.0
  }

  function Similarity(m: Matcher, s: Subtask, t: Tables, n: nat): real
  {
    Resemblance(m, s, Lookup(t.contents, n), Lookup(t.rds, n))
  }

  /** Node `n` may take `s`: it is not on the path yet, and it is similar enough. The search starts
      from a maximum of -1, so a similarity of -1 never counts, whatever the threshold. */
  ghost predicate Candidate(t: Tables, m: Matcher, path: seq<nat>, s: Subtask, n: nat)
  {
    && n in t.contents && n !in path
    && Similarity(m, s, t, n) >= m.threshold && Similarity(m, s, t, n) > -1.0
  }

  ghost predicate Better(t: Tables, m: Matcher, s: Subtask, a: nat, b: nat)
  {
    || Similarity(m, s, t, a) > Similarity(m, s, t, b)
    || (Similarity(m, s, t, a) == Similarity(m, s, t, b) && a < b)
  }

  /** The most similar candidate, the earliest on a tie; -1 when there is none. */
  ghost predicate BestMatch(t: Tables, m: Matcher, path: seq<nat>, s: Subtask, best: int)
  {
    if best < 0 then
      best == -1 && forall n: nat :: !Candidate(t, m, path, s, n)
    else
      && Candidate(t, m, path, s, best)
      && forall n: nat :: Candidate(t, m, path, s, n) && n != best ==> Better(t, m, s, best, n)
  }

  /** The match is determined by the tables. */
  lemma BestMatchUnique(t: Tables, m: Matcher, path: seq<nat>, s: Subtask, a: int, b: int)
    requires BestMatch(t, m, path, s, a)
    ensures BestMatch(t, m, path, s, b) <==> a == b
  {
  }

  /** `similar` is the mean of the cosine similarities of the content and of the role vectors. */
  ghost predicate IsMeanCosine(m: Matcher, s: Subtask, t: Tables, similar: nat -> real)
  {
    forall n: nat :: n in t.contents && n in t.rds ==>
      2.0 * similar(n) == m.cosine(s.content, t.contents[n]) + m.cosine(s.rd, t.rds[n])
  }

  /** A node off the path, above -1 and not below the threshold. */
  ghost predicate Eligible(m: Matcher, t: Tables, path: seq<nat>, similar: nat -> real, n: nat)
  {
    n in t.contents && n !in path && similar(n) >= m.threshold && similar(n) > -1.0
  }

  /** The match is the eligible node of the greatest mean similarity, the least of several, and -1 when no
      node is eligible. */
  lemma BestMatchMeans(t: Tables, m: Matcher, path: seq<nat>, s: Subtask, best: int, similar: nat -> real)
    requires t.contents.Keys == t.rds.Keys && IsMeanCosine(m, s, t, similar)
    ensures best < 0 ==>
              (BestMatch(t, m, path, s, best) <==> best == -1 && forall n: nat :: !Eligible(m, t, path, similar, n))
    ensures best >= 0 ==>
              (BestMatch(t, m, path, s, best) <==>
                 Eligible(m, t, path, similar, best)
                 && forall n: nat :: Eligible(m, t, path, similar, n) && n != best ==>
                      similar(best) > similar(n) || (similar(best) == similar(n) && best < n))
  {
    forall n: nat ensures n in t.contents ==> Similarity(m, s, t, n) == similar(n) {
      assert n in t.contents ==> n in t.contents.Keys && n in t.rds;
    }
    forall n: nat ensures Candidate(t, m, path, s, n) <==> Eligible(m, t, path, similar, n) {
    }
  }

  // ---------------------------------------------------------------- the construction as a specification

  /** The nodes at one moment. */
  datatype Graph = Graph(t: Tables, counter: nat)

  function StartGraph(content1: Vector, rd1: Vector): Graph
  {
    Graph(Tables(map[], map[1 := content1], map[1 := rd1]), 2)
  }

  /** A subtask's visit follows the rule: it is to its best match, or to the next new node when it has
      none. A best match on node 1, which has no list of subtasks, allows no visit. */
  ghost predicate Joins(m: Matcher, g: Graph, path: seq<nat>, v: Visit)
  {
    v.node != 1 && BestMatch(g.t, m, path, v.subtask, if v.node == g.counter then -1 else v.node)
  }

  function Next(g: Graph, tid: string, v: Visit): Graph
  {
    Graph(Placed(g.t, v.node, Entry(tid, v.subtask)), g.counter + if v.node == g.counter then 1 else 0)
  }

  function After(g: Graph, tid: string, visits: seq<Visit>): Graph
  {
    if visits == [] then g
    else
      var k := |visits| - 1;
      Next(After(g, tid, visits[..k]), tid, visits[k])
  }

  function AfterRuns(g: Graph, log: seq<Run>): Graph
  {
    if log == [] then g
    else
      var k := |log| - 1;
      After(AfterRuns(g, log[..k]), log[k].tid, log[k].visits)
  }

  /** Every visit of a run follows the rule in the graph as it is when the subtask is reached. */
  ghost predicate Greedy(m: Matcher, g: Graph, r: Run)
  {
    forall k :: 0 <= k < |r.visits| ==> GreedyAt(m, g, r, k)
  }

  ghost predicate GreedyAt(m: Matcher, g: Graph, r: Run, k: nat)
    requires k < |r.visits|
  {
    Joins(m, After(g, r.tid, r.visits[..k]), Walked(Run(r.tid, r.visits[..k])), r.visits[k])
  }

  ghost predicate LogGreedy(m: Matcher, g: Graph, log: seq<Run>)
  {
    forall k :: 0 <= k < |log| ==> GreedyRun(m, g, log, k)
  }

  ghost predicate GreedyRun(m: Matcher, g: Graph, log: seq<Run>, k: nat)
    requires k < |log|
  {
    Greedy(m, AfterRuns(g, log[..k]), log[k])
  }

  /** Going on with `rest` from here, some subtask's best match, in the graph as it is then, is node 1. */
  ghost predicate Stops(m: Matcher, g: Graph, r: Run, rest: seq<Subtask>)
    decreases |rest|
  {
    rest != [] &&
    (BestMatch(g.t, m, Walked(r), rest[0], 1) ||
     exists node: nat :: StopsVia(m, g, r, Visit(node, rest[0]), rest))
  }

  ghost predicate StopsVia(m: Matcher, g: Graph, r: Run, v: Visit, rest: seq<Subtask>)
    requires rest != []
    decreases |rest|, 0
  {
    Joins(m, g, Walked(r), v) && Stops(m, Next(g, r.tid, v), Step(r, v), rest[1..])
  }

  type Workflow = (string, seq<Subtask>)

  /** `r` is the run of a whole workflow. */
  ghost predicate Completes(m: Matcher, g: Graph, r: Run, w: Workflow)
  {
    r.tid == w.0 && Map(SubtaskOf, r.visits) == w.1 && Greedy(m, g, r)
  }

  /** Building all the workflows, some workflow stops in this way. */
  ghost predicate StopsAll(m: Matcher, g: Graph, ws: seq<Workflow>)
    decreases |ws|
  {
    ws != [] && (Stops(m, g, Run(ws[0].0, []), ws[0].1) || exists r :: StopsAllVia(m, g, r, ws))
  }

  ghost predicate StopsAllVia(m: Matcher, g: Graph, r: Run, ws: seq<Workflow>)
    requires ws != []
    decreases |ws|, 0
  {
    Completes(m, g, r, ws[0]) && StopsAll(m, After(g, r.tid, r.visits), ws[1..])
  }

  /** There is one visit that follows the rule, or none when the best match is node 1. */
  lemma JoinsUnique(m: Matcher, g: Graph, path: seq<nat>, v: Visit, w: Visit)
    requires Joins(m, g, path, v) && v.subtask == w.subtask
    ensures Joins(m, g, path, w) <==> v == w
    ensures !BestMatch(g.t, m, path, v.subtask, 1)
  {
    var best := if v.node == g.counter then -1 else v.node;
    BestMatchUnique(g.t, m, path, v.subtask, best, 1);
    BestMatchUnique(g.t, m, path, v.subtask, best, if w.node == g.counter then -1 else w.node);
  }

  lemma StopsStep(m: Matcher, g: Graph, r: Run, v: Visit, rest: seq<Subtask>)
    requires rest != [] && rest[0] == v.subtask && Joins(m, g, Walked(r), v)
    ensures Stops(m, g, r, rest) <==> Stops(m, Next(g, r.tid, v), Step(r, v), rest[1..])
  {
    JoinsUnique(m, g, Walked(r), v, v);
    if node: nat :| StopsVia(m, g, r, Visit(node, rest[0]), rest) {
      JoinsUnique(m, g, Walked(r), v, Visit(node, rest[0]));
    }
    if Stops(m, Next(g, r.tid, v), Step(r, v), rest[1..]) {
      assert StopsVia(m, g, r, Visit(v.node, rest[0]), rest);
    }
  }

  lemma GreedyStep(m: Matcher, g: Graph, r: Run, v: Visit)
    requires Greedy(m, g, r) && Joins(m, After(g, r.tid, r.visits), Walked(r), v)
    ensures Greedy(m, g, Step(r, v))
    ensures After(g, r.tid, Step(r, v).visits) == Next(After(g, r.tid, r.visits), r.tid, v)
  {
    var longer, n := r.visits + [v], |r.visits|;
    assert longer[..n] == r.visits;
    forall k | 0 <= k < n + 1 ensures GreedyAt(m, g, Step(r, v), k) {
      assert longer[..k] == r.visits[..k];
      assert k < n ==> GreedyAt(m, g, r, k) && longer[k] == r.visits[k];
      assert r.visits[..n] == r.visits;
    }
  }

  lemma GreedyPrefix(m: Matcher, g: Graph, r: Run, n: nat)
    requires Greedy(m, g, r) && n <= |r.visits|
    ensures Greedy(m, g, Run(r.tid, r.visits[..n]))
  {
    var prefix := Run(r.tid, r.visits[..n]);
    forall k | 0 <= k < n ensures GreedyAt(m, g, prefix, k) {
      assert prefix.visits[..k] == r.visits[..k] && GreedyAt(m, g, r, k);
    }
  }

  /** A workflow's run is determined by the graph it starts from. */
  lemma {:induction false} GreedyUnique(m: Matcher, g: Graph, a: Run, b: Run)
    requires Greedy(m, g, a) && Greedy(m, g, b) && a.tid == b.tid
        && Map(SubtaskOf, a.visits) == Map(SubtaskOf, b.visits)
    ensures a == b
    decreases |a.visits|
  {
    if a.visits != [] {
      var k := |a.visits| - 1;
      assert |Map(SubtaskOf, a.visits)| == |a.visits| && |Map(SubtaskOf, b.visits)| == |b.visits|;
      var c, d := Run(a.tid, a.visits[..k]), Run(b.tid, b.visits[..k]);
      GreedyPrefix(m, g, a, k);
      GreedyPrefix(m, g, b, k);
      assert Map(SubtaskOf, c.visits) == Map(SubtaskOf, a.visits)[..k];
      assert Map(SubtaskOf, d.visits) == Map(SubtaskOf, b.visits)[..k];
      GreedyUnique(m, g, c, d);
      assert GreedyAt(m, g, a, k) && GreedyAt(m, g, b, k);
      assert Map(SubtaskOf, a.visits)[k] == a.visits[k].subtask && Map(SubtaskOf, b.visits)[k] == b.visits[k].subtask;
      JoinsUnique(m, After(g, a.tid, c.visits), Walked(c), a.visits[k], b.visits[k]);
      assert a.visits == c.visits + [a.visits[k]] && b.visits == d.visits + [b.visits[k]];
    } else {
      assert |Map(SubtaskOf, b.visits)| == |b.visits|;
    }
  }

  lemma StopsAllStep(m: Matcher, g: Graph, r: Run, ws: seq<Workflow>)
    requires ws != [] && Completes(m, g, r, ws[0]) && !Stops(m, g, Run(ws[0].0, []), ws[0].1)
    ensures StopsAll(m, g, ws) <==> StopsAll(m, After(g, r.tid, r.visits), ws[1..])
  {
    if q :| StopsAllVia(m, g, q, ws) {
      GreedyUnique(m, g, q, r);
    }
    if StopsAll(m, After(g, r.tid, r.visits), ws[1..]) {
      assert StopsAllVia(m, g, r, ws);
    }
  }

  lemma LogGreedyStep(m: Matcher, g: Graph, log: seq<Run>, r: Run)
    requires LogGreedy(m, g, log) && Greedy(m, AfterRuns(g, log), r)
    ensures LogGreedy(m, g, log + [r]) && AfterRuns(g, log + [r]) == After(AfterRuns(g, log), r.tid, r.visits)
  {
    var longer := log + [r];
    assert longer[..|log|] == log;
    forall k | 0 <= k < |log| + 1 ensures GreedyRun(m, g, longer, k) {
      assert longer[..k] == log[..k];
      assert k < |log| ==> GreedyRun(m, g, log, k);
      assert log[..|log|] == log;
    }
  }

  /** At the very start node 1 is the only candidate: a first subtask stops the construction exactly when
      it is similar enough to the target node, whatever follows it. */
  lemma FirstSubtaskStops(m: Matcher, content1: Vector, rd1: Vector, tid: string, s: Subtask, rest: seq<Subtask>)
    ensures var g, similarity := StartGraph(content1, rd1), Resemblance(m, s, content1, rd1);
      && (BestMatch(g.t, m, [0], s, 1) <==> similarity >= m.threshold && similarity > -1.0)
      && (similarity >= m.threshold && similarity > -1.0 ==> Stops(m, g, Run(tid, []), [s] + rest))
      && (Stops(m, g, Run(tid, []), [s]) ==> similarity >= m.threshold && similarity > -1.0)
  {
    var g, r := StartGraph(content1, rd1), Run(tid, []);
    assert Walked(r) == [0];
    assert forall n: nat :: n in g.t.contents <==> n == 1;
    assert ([s] + rest)[0] == s;
    forall node: nat ensures !StopsVia(m, g, r, Visit(node, s), [s]) {
      assert [s][1..] == [];
    }
  }

  /** What holds while a workflow is under way, and what one more subtask does to it. */
  ghost predicate Underway(t: Tables, log: seq<Run>, r: Run, counter: nat, dim: nat)
  {
    TablesOk(t, log + [r], counter, dim) && LogOk(log + [r], counter, dim)
  }

  lemma SubtaskPlaced(t: Tables, log: seq<Run>, r: Run, counter: nat, dim: nat, v: Visit)
    requires Underway(t, log, r, counter, dim) && |v.subtask.content| == dim && |v.subtask.rd| == dim
    requires v.node == counter || (v.node in t.contents && v.node != 1 && v.node !in Walked(r))
    ensures Underway(Placed(t, v.node, Entry(r.tid, v.subtask)), log, Step(r, v),
                     counter + if v.node == counter then 1 else 0, dim)
    ensures v.node in t.nodes <==> v.node != counter
    ensures v.node in t.nodes ==> v.node in t.contents && v.node in t.rds
  {
    CounterUnused(log, r, counter, dim);
    PlacedKeepsTables(t, log, r, counter, dim, v);
    StepKeepsLog(log, r, counter, dim, v);
  }

  /** The target node's vectors never change. */
  ghost predicate SameTarget(g: Graph, h: Graph)
  {
    Lookup(g.t.contents, 1) == Lookup(h.t.contents, 1) && Lookup(g.t.rds, 1) == Lookup(h.t.rds, 1)
  }

  /** After `i` subtasks of workflow `w`, begun in graph `g0`: the graph is `g` and the run so far `r`. */
  ghost predicate Progress(m: Matcher, dim: nat, log: seq<Run>, g0: Graph, w: Workflow, g: Graph, r: Run,
                           path: seq<nat>, i: nat)
  {
    && i <= |w.1| && Underway(g.t, log, r, g.counter, dim)
    && r.tid == w.0 && path == Walked(r) && Map(SubtaskOf, r.visits) == w.1[..i]
    && Greedy(m, g0, r) && g == After(g0, r.tid, r.visits) && SameTarget(g0, g)
    && (Stops(m, g0, Run(w.0, []), w.1) <==> Stops(m, g, r, w.1[i..]))
  }

  lemma ProgressStart(m: Matcher, dim: nat, log: seq<Run>, g: Graph, w: Workflow)
    requires Underway(g.t, log, Run(w.0, []), g.counter, dim)
    ensures Progress(m, dim, log, g, w, g, Run(w.0, []), [0], 0)
  {
    assert Walked(Run(w.0, [])) == [0];
  }

  lemma WalkedStep(r: Run, v: Visit, subtasks: seq<Subtask>, i: nat)
    requires i < |subtasks| && Map(SubtaskOf, r.visits) == subtasks[..i] && v.subtask == subtasks[i]
    ensures Walked(Step(r, v)) == Walked(r) + [v.node] && Map(SubtaskOf, Step(r, v).visits) == subtasks[..i + 1]
  {
    MapConcat(NodeOf, r.visits, [v]);
    MapConcat(SubtaskOf, r.visits, [v]);
    Regroup([0], Map(NodeOf, r.visits), [v.node]);
  }

  lemma NextKeepsTarget(g: Graph, tid: string, v: Visit)
    requires v.node != 1
    ensures SameTarget(g, Next(g, tid, v))
  {
  }

  lemma StopsNext(m: Matcher, g: Graph, r: Run, v: Visit, subtasks: seq<Subtask>, i: nat)
    requires i < |subtasks| && v.subtask == subtasks[i] && Joins(m, g, Walked(r), v)
    ensures Stops(m, g, r, subtasks[i..]) <==> Stops(m, Next(g, r.tid, v), Step(r, v), subtasks[i + 1..])
  {
    assert subtasks[i..][0] == v.subtask && subtasks[i..][1..] == subtasks[i + 1..];
    StopsStep(m, g, r, v, subtasks[i..]);
  }

  lemma ProgressStep(m: Matcher, dim: nat, log: seq<Run>, g0: Graph, w: Workflow, g: Graph, r: Run, path: seq<nat>,
                     i: nat, v: Visit)
    requires Progress(m, dim, log, g0, w, g, r, path, i) && i < |w.1| && v.subtask == w.1[i] && Joins(m, g, path, v)
    requires var h := Next(g, r.tid, v); Underway(h.t, log, Step(r, v), h.counter, dim)
    ensures Progress(m, dim, log, g0, w, Next(g, r.tid, v), Step(r, v), path + [v.node], i + 1)
  {
    WalkedStep(r, v, w.1, i);
    NextKeepsTarget(g, r.tid, v);
    GreedyStep(m, g0, r, v);
    StopsNext(m, g, r, v, w.1, i);
  }

  lemma ProgressEnd(m: Matcher, dim: nat, log: seq<Run>, g0: Graph, w: Workflow, g: Graph, r: Run, path: seq<nat>,
                    i: nat)
    requires Progress(m, dim, log, g0, w, g, r, path, i) && i == |w.1|
    ensures Underway(g.t, log, r, g.counter, dim) && r.tid == w.0 && path == Walked(r)
        && Map(SubtaskOf, r.visits) == w.1
    ensures Greedy(m, g0, r) && g == After(g0, w.0, r.visits) && SameTarget(g0, g) && !Stops(m, g0, Run(w.0, []), w.1)
  {
    assert w.1[..i] == w.1;
  }

  /** Some subtask is similar enough to the target node. */
  ghost predicate NearTarget(m: Matcher, g: Graph, subtasks: seq<Subtask>)
  {
    exists s :: s in subtasks && Resemblance(m, s, Lookup(g.t.contents, 1), Lookup(g.t.rds, 1)) >= m.threshold
  }

  lemma NearSame(m: Matcher, g: Graph, h: Graph, subtasks: seq<Subtask>)
    requires SameTarget(g, h)
    ensures NearTarget(m, g, subtasks) == NearTarget(m, h, subtasks)
  {
  }

  lemma StopsAtTarget(m: Matcher, dim: nat, log: seq<Run>, g0: Graph, w: Workflow, g: Graph, r: Run, path: seq<nat>,
                      i: nat)
    requires Progress(m, dim, log, g0, w, g, r, path, i) && i < |w.1| && BestMatch(g.t, m, path, w.1[i], 1)
    ensures Stops(m, g0, Run(w.0, []), w.1) && NearTarget(m, g, w.1)
  {
    assert w.1[i..][0] == w.1[i];
    assert w.1[i] in w.1;
  }

  /** What the finished runs say about building all of `ws` from graph `g0`. */
  ghost predicate Built(m: Matcher, g0: Graph, ws: seq<Workflow>, g: Graph, log: seq<Run>)
  {
    && |log| <= |ws| && (StopsAll(m, g0, ws) <==> StopsAll(m, g, ws[|log|..]))
    && forall k :: 0 <= k < |log| ==> log[k].tid == ws[k].0 && Map(SubtaskOf, log[k].visits) == ws[k].1
  }

  lemma BuiltStep(m: Matcher, g0: Graph, ws: seq<Workflow>, g: Graph, log: seq<Run>, r: Run)
    requires Built(m, g0, ws, g, log) && |log| < |ws| && Completes(m, g, r, ws[|log|])
    requires !Stops(m, g, Run(ws[|log|].0, []), ws[|log|].1)
    ensures Built(m, g0, ws, After(g, r.tid, r.visits), log + [r])
  {
    var rest := ws[|log|..];
    assert rest[0] == ws[|log|] && rest[1..] == ws[|log| + 1..];
    StopsAllStep(m, g, r, rest);
  }

  lemma BuiltStops(m: Matcher, g0: Graph, ws: seq<Workflow>, g: Graph, log: seq<Run>)
    requires Built(m, g0, ws, g, log) && |log| < |ws| && Stops(m, g, Run(ws[|log|].0, []), ws[|log|].1)
    ensures StopsAll(m, g0, ws)
  {
    assert ws[|log|..][0] == ws[|log|];
  }

  datatype Index = Index(queries: map<string, seq<(nat, nat)>>, paths: map<string, seq<nat>>, starts: seq<nat>)

  /** Everything built so far is what the finished runs say, and these followed the rule. */
  ghost predicate Sound(m: Matcher, dim: nat, start: Graph, g: Graph, edges: map<(nat, nat), seq<string>>, x: Index,
                        log: seq<Run>)
  {
    && TablesOk(g.t, log, g.counter, dim) && LogOk(log, g.counter, dim)
    && EdgesOk(edges, log) && IndexOk(x.queries, x.paths, x.starts, log)
    && g == AfterRuns(start, log) && LogGreedy(m, start, log)
  }

  /** `y` and `edges` are `x` and `before` with the path of run `r`. */
  ghost predicate PathRecorded(before: map<(nat, nat), seq<string>>, x: Index, edges: map<(nat, nat), seq<string>>,
                               y: Index, r: Run)
  {
    && EdgesAdded(before, edges, r.tid, Path(r)) && QueriesAdded(x.queries, y.queries, r.tid, Pairs(Path(r)))
    && y.paths == x.paths[r.tid := Path(r)]
    && y.starts == x.starts + if |Path(r)| > 2 then [Path(r)[1]] else []
  }

  /** A workflow's subtasks are all placed by the rule, and its path is yet to be recorded. */
  ghost predicate ReadyToRecord(m: Matcher, dim: nat, start: Graph, g: Graph, edges: map<(nat, nat), seq<string>>,
                                x: Index,
                                log: seq<Run>, r: Run)
  {
    && Underway(g.t, log, r, g.counter, dim) && EdgesOk(edges, log) && IndexOk(x.queries, x.paths, x.starts, log)
    && LogGreedy(m, start, log) && Greedy(m, AfterRuns(start, log), r)
    && g == After(AfterRuns(start, log), r.tid, r.visits)
  }

  lemma PathKeepsSound(m: Matcher, dim: nat, start: Graph, g: Graph, before: map<(nat, nat), seq<string>>, x: Index,
                       edges: map<(nat, nat), seq<string>>, y: Index, log: seq<Run>, r: Run)
    requires ReadyToRecord(m, dim, start, g, before, x, log, r) && PathRecorded(before, x, edges, y, r)
    ensures Sound(m, dim, start, g, edges, y, log + [r])
  {
    RecordKeepsIndexes(before, x, edges, y, log, r);
    LogGreedyStep(m, start, log, r);
  }

  lemma RecordKeepsIndexes(before: map<(nat, nat), seq<string>>, x: Index, edges: map<(nat, nat), seq<string>>,
                           y: Index,
                           log: seq<Run>, r: Run)
    requires EdgesOk(before, log) && IndexOk(x.queries, x.paths, x.starts, log) && PathRecorded(before, x, edges, y, r)
    ensures EdgesOk(edges, log + [r]) && IndexOk(y.queries, y.paths, y.starts, log + [r])
  {
    RunKeepsIndex(x.queries, y.queries, x.paths, x.starts, log, r);
    RunKeepsEdges(before, edges, log, r);
  }

  lemma ReadyDistinct(m: Matcher, dim: nat, start: Graph, g: Graph, edges: map<(nat, nat), seq<string>>, x: Index,
                      log: seq<Run>, r: Run)
    requires ReadyToRecord(m, dim, start, g, edges, x, log, r)
    ensures Distinct(Path(r))
  {
    LastRunOk(log, r, g.counter, dim);
    PathDistinct(r, g.counter, dim);
  }

  /** The path of a finished workflow and its edges. */
  method RecordPath(ghost m: Matcher, ghost dim: nat, ghost start: Graph, ghost g: Graph, ghost log: seq<Run>,
                    ghost r: Run, edges: map<(nat, nat), seq<string>>, queries: map<string, seq<(nat, nat)>>,
                    paths: map<string, seq<nat>>, starts: seq<nat>, tid: string, walked: seq<nat>)
    returns (e: map<(nat, nat), seq<string>>, q: map<string, seq<(nat, nat)>>, p: map<string, seq<nat>>, s: seq<nat>)
    requires ReadyToRecord(m, dim, start, g, edges, Index(queries, paths, starts), log, r)
    requires tid == r.tid && walked == Walked(r)
    ensures Sound(m, dim, start, g, e, Index(q, p, s), log + [r])
  {
    ReadyDistinct(m, dim, start, g, edges, Index(queries, paths, starts), log, r);
    var path := walked + [1];
    p := paths[tid := path];
    e, q, s := WalkEdges(edges, queries, starts, tid, path);
    PathKeepsSound(m, dim, start, g, edges, Index(queries, paths, starts), e, Index(q, p, s), log, r);
  }

  lemma FirstEntry(tid: string, s: Subtask)
    ensures Absorbed(BLANK, Entry(tid, s)) == NodeData([s.concrete], [s.role], [s.content], [s.rd], [tid])
  {
  }

  // ---------------------------------------------------------------- build_graph

  class GraphBuilder {
    const dim: nat
    const matcher: Matcher
    ghost const start: Graph
    var counter: nat
    var nodes: map<nat, NodeData>
    var contents: map<nat, Vector>
    var rds: map<nat, Vector>
    var edges: map<(nat, nat), seq<string>>
    var queryToEdge: map<string, seq<(nat, nat)>>
    var paths: map<string, seq<nat>>
    var startingNodes: seq<nat>
    ghost var log: seq<Run>

    ghost function State(): Tables
      reads this
    {
      Tables(nodes, contents, rds)
    }

    ghost function Now(): Graph
      reads this
    {
      Graph(State(), counter)
    }

    ghost function Indexes(): Index
      reads this
    {
      Index(queryToEdge, paths, startingNodes)
    }

    ghost predicate Valid()
      reads this
    {
      Sound(matcher, dim, start, Now(), edges, Indexes(), log)
    }

    constructor (dim: nat, m: Matcher, content1: Vector, rd1: Vector)
      ensures Valid() && log == []
      ensures this.dim == dim && this.matcher == m && start == StartGraph(content1, rd1) && Now() == start
    {
      this.dim, this.matcher, this.start := dim, m, StartGraph(content1, rd1);
      counter, nodes, contents, rds := 2, map[], map[1 := content1], map[1 := rd1];
      edges, queryToEdge, paths, startingNodes, log := map[], map[], map[], [], [];
    }

    method FindMatch(path: seq<nat>, s: Subtask) returns (best: int)
      requires KeysOk(State(), counter)
      ensures BestMatch(State(), matcher, path, s, best)
    {
      best := -1;
      var highest := -1.0;
      var node := 1;
      ghost var t := State();
      while node < counter
        invariant 1 <= node <= counter && -1 <= best < node
        invariant best < 0 ==> highest == -1.0
        invariant best >= 0 ==> Candidate(t, matcher, path, s, best) && highest == Similarity(matcher, s, t, best)
        invariant forall n: nat | n < node && Candidate(t, matcher, path, s, n) && n != best ::
            best >= 0 && Better(t, matcher, s, best, n)
      {
        if node !in path {
          var similarity := Similarity(matcher, s, Tables(nodes, contents, rds), node);
          if similarity >= matcher.threshold && similarity > highest {
            best, highest := node, similarity;
          }
        }
        node := node + 1;
      }
    }

    /** `s` joins node `node`, whose lists and running centroids are updated. */
    method Join(node: nat, tid: string, s: Subtask)
      requires node in nodes && node in contents && node in rds
      modifies `nodes, `contents, `rds
      ensures State() == Placed(old(State()), node, Entry(tid, s))
    {
      var data := nodes[node];
      data := NodeData(data.subtasks + [s.concrete], data.roles + [s.role], data.contents + [s.content],
                       data.rds + [s.rd], data.tids + [tid]);
      nodes := nodes[node := data];
      var n := |data.subtasks|;
      contents := contents[node := Averaged(contents[node], n, s.content)];
      rds := rds[node := Averaged(rds[node], n, s.rd)];
    }

    /** `s` becomes the first subtask of a new node. */
    method Open(node: nat, tid: string, s: Subtask)
      requires node !in nodes
      modifies `counter, `nodes, `contents, `rds
      ensures State() == Placed(old(State()), node, Entry(tid, s)) && counter == old(counter) + 1
    {
      FirstEntry(tid, s);
      nodes := nodes[node := NodeData([s.concrete], [s.role], [s.content], [s.rd], [tid])];
      contents := contents[node := s.content];
      rds := rds[node := s.rd];
      counter := counter + 1;
    }

    /** One subtask: it joins the best match, or a new node when nothing matches. A match on node 1,
        which has no list of subtasks, is an error. */
    method AddSubtask(ghost r: Run, tid: string, path: seq<nat>, s: Subtask) returns (ok: bool, node: nat)
      requires Underway(State(), log, r, counter, dim) && r.tid == tid && path == Walked(r)
      requires |s.content| == dim && |s.rd| == dim
      modifies `counter, `nodes, `contents, `rds
      ensures !ok <==> BestMatch(old(State()), matcher, path, s, 1)
      ensures ok ==> Underway(State(), log, Step(r, Visit(node, s)), counter, dim)
      ensures ok ==> Joins(matcher, old(Now()), path, Visit(node, s)) && Now() == Next(old(Now()), tid, Visit(node, s))
      ensures !ok ==> Now() == old(Now())
    {
      var best := FindMatch(path, s);
      BestMatchUnique(State(), matcher, path, s, best, 1);
      if best == 1 {
        return false, 1;
      }
      node := if best == -1 then counter else best;
      ok := true;
      SubtaskPlaced(State(), log, r, counter, dim, Visit(node, s));
      if best != -1 {
        Join(node, tid, s);
      } else {
        Open(node, tid, s);
      }
    }

    /** One workflow: a new path, or an error exactly when some subtask's best match, in the graph as it is
        when the subtask is reached, is node 1. */
    method AddWorkflow(w: Workflow) returns (ok: bool)
      requires Valid() && forall s :: s in w.1 ==> |s.content| == dim && |s.rd| == dim
      modifies this
      ensures SameTarget(old(Now()), Now())
      ensures !ok <==> Stops(matcher, old(Now()), Run(w.0, []), w.1)
      ensures ok ==> Valid() && |log| == |old(log)| + 1 && log == old(log) + [log[|old(log)|]]
      ensures ok ==> var r := log[|old(log)|];
                     Completes(matcher, old(Now()), r, w) && Now() == After(old(Now()), r.tid, r.visits)
      ensures !ok ==> NearTarget(matcher, old(Now()), w.1)
    {
      StartRun(State(), log, counter, dim, w.0);
      ghost var r;
      var path;
      ok, r, path := WalkWorkflow(w.0, w.1);
      if ok {
        FinishWorkflow(r, w.0, path);
      }
    }

    /** The target node closes the path, and its edges are recorded. */
    method FinishWorkflow(ghost r: Run, tid: string, walked: seq<nat>)
      requires ReadyToRecord(matcher, dim, start, Now(), edges, Indexes(), log, r) && r.tid == tid
          && walked == Walked(r)
      modifies `edges, `queryToEdge, `paths, `startingNodes, `log
      ensures Valid() && log == old(log) + [r]
    {
      ghost var g := Now();
      var e, q, p, s := RecordPath(matcher, dim, start, g, log, r, edges, queryToEdge, paths, startingNodes, tid,
                                   walked);
      edges, queryToEdge, paths, startingNodes := e, q, p, s;
      log := log + [r];
      assert Now() == g && Indexes() == Index(q, p, s);
    }

    /** The path of a workflow up to its target node. */
    method WalkWorkflow(tid: string, workflow: seq<Subtask>) returns (ok: bool, ghost r: Run, path: seq<nat>)
      requires Underway(State(), log, Run(tid, []), counter, dim)
      requires forall s :: s in workflow ==> |s.content| == dim && |s.rd| == dim
      modifies `counter, `nodes, `contents, `rds
      ensures SameTarget(old(Now()), Now())
      ensures ok ==> Underway(State(), log, r, counter, dim)
      ensures ok ==> r.tid == tid && path == Walked(r) && Map(SubtaskOf, r.visits) == workflow
      ensures ok ==> Greedy(matcher, old(Now()), r) && Now() == After(old(Now()), tid, r.visits)
      ensures !ok <==> Stops(matcher, old(Now()), Run(tid, []), workflow)
      ensures !ok ==> NearTarget(matcher, old(Now()), workflow)
    {
      r := Run(tid, []);
      path := [0];
      var i := 0;
      ghost var start, w := Now(), (tid, workflow);
      ProgressStart(matcher, dim, log, start, w);
      while i < |workflow|
        invariant Progress(matcher, dim, log, start, w, Now(), r, path, i)
      {
        ghost var now := Now();
        var added, node := AddSubtask(r, tid, path, workflow[i]);
        if !added {
          StopsAtTarget(matcher, dim, log, start, w, now, r, path, i);
          NearSame(matcher, start, now, workflow);
          return false, r, path;
        }
        ghost var v := Visit(node, workflow[i]);
        ProgressStep(matcher, dim, log, start, w, now, r, path, i, v);
        path := path + [node];
        r := Step(r, v);
        i := i + 1;
      }
      ProgressEnd(matcher, dim, log, start, w, Now(), r, path, i);
      ok := true;
    }
  }

  /** The whole construction: it succeeds unless some workflow stops, and then every workflow has its run. */
  method BuildGraph(dim: nat, m: Matcher, content1: Vector, rd1: Vector, workflows: seq<Workflow>)
    returns (ok: bool, g: GraphBuilder)
    requires forall k :: 0 <= k < |workflows| ==>
               forall s :: s in workflows[k].1 ==> |s.content| == dim && |s.rd| == dim
    ensures fresh(g) && g.dim == dim && g.matcher == m && g.start == StartGraph(content1, rd1)
    ensures !ok <==> StopsAll(m, StartGraph(content1, rd1), workflows)
    ensures ok ==> g.Valid() && |g.log| == |workflows|
    ensures ok ==> forall k :: 0 <= k < |workflows| ==>
        g.log[k].tid == workflows[k].0 && Map(SubtaskOf, g.log[k].visits) == workflows[k].1
    ensures !ok ==> exists k :: 0 <= k < |workflows| && NearTarget(m, StartGraph(content1, rd1), workflows[k].1)
  {
    g := new GraphBuilder(dim, m, content1, rd1);
    ghost var start := StartGraph(content1, rd1);
    var i := 0;
    while i < |workflows|
      invariant 0 <= i <= |workflows| && fresh(g) && g.Valid() && |g.log| == i
      invariant g.dim == dim && g.matcher == m && g.start == start && SameTarget(start, g.Now())
      invariant Built(m, start, workflows, g.Now(), g.log)
    {
      ghost var log, now := g.log, g.Now();
      var added := g.AddWorkflow(workflows[i]);
      if !added {
        BuiltStops(m, start, workflows, now, log);
        NearSame(m, start, now, workflows[i].1);
        return false, g;
      }
      BuiltStep(m, start, workflows, now, log, g.log[i]);
      i := i + 1;
    }
    ok := true;
  }
}
