/**
 `validateGraph`: the issues it lists, in its order, and the breadth-first search behind the last of
 them. What it lists is exactly what is wrong, so an empty list means a valid graph.
 */
module FlowValidator {
  import opened Wrappers
  import opened FlowGraph

  // ---------- The lists ----------

  function CountId(nodes: seq<Node>, id: string): nat {
    if |nodes| == 0 then 0
    else CountId(nodes[..|nodes| - 1], id) + if nodes[|nodes| - 1].id == id then 1 else 0
  }

  function NodeIssues(g: Graph, nodes: seq<Node>): seq<Issue> {
    if |nodes| == 0 then []
    else
      var n := nodes[|nodes| - 1];
      NodeIssues(g, nodes[..|nodes| - 1])
      + (if CountId(g.nodes, n.id) > 1 then [DuplicateNodeId(n.id)] else [])
      + (if TypeOf(n.typ).None? then [UnknownType(n.id)] else [])
  }

  function LegacyIssues(s: Schemas, nodes: seq<Node>): seq<Issue> {
    if |nodes| == 0 then []
    else
      var n := nodes[|nodes| - 1];
      LegacyIssues(s, nodes[..|nodes| - 1])
      + if n.typ == "time_condition" && s.isLegacy(n.config) then [LegacyTimeCondition(n.id)] else []
  }

  function EntryIssues(g: Graph, entries: seq<EntryPoint>): seq<Issue> {
    if |entries| == 0 then []
    else
      var e := entries[|entries| - 1];
      EntryIssues(g, entries[..|entries| - 1]) + if !IsNode(g, e.target) then [BadEntryPoint(e.name)] else []
  }

  function EdgeIssues(g: Graph, edges: seq<Edge>): seq<Issue> {
    if |edges| == 0 then []
    else
      EdgeIssues(g, edges[..|edges| - 1]) + IssuesOfEdge(g, edges[|edges| - 1])
  }

  function IssuesOfEdge(g: Graph, e: Edge): seq<Issue> {
    if !IsNode(g, e.from) then [EdgeFromNowhere(e)]
    else (if !IsNode(g, e.to) then [EdgeToNowhere(e)] else []) + (if !AllowsPort(g, e) then [NoSuchPort(e)] else [])
  }

  /** A map from keys to counts, in the order its keys came. */
  type Tally = seq<(string, nat)>

  function Counted(tally: Tally, key: string): Tally {
    if |tally| == 0 then [(key, 1)]
    else if tally[0].0 == key then [(key, tally[0].1 + 1)] + tally[1..]
    else [tally[0]] + Counted(tally[1..], key)
  }

  function KeyTally(g: Graph, edges: seq<Edge>): Tally {
    if |edges| == 0 then []
    else
      var e, before := edges[|edges| - 1], KeyTally(g, edges[..|edges| - 1]);
      if IsNode(g, e.from) then Counted(before, EdgeKey(e)) else before
  }

  function KeyIssues(tally: Tally): seq<Issue> {
    if |tally| == 0 then []
    else (if tally[0].1 <= 1 then [] else [PortWiredTwice(tally[0].0)]) + KeyIssues(tally[1..])
  }

  function MissingPorts(g: Graph, id: string, ports: seq<string>): seq<Issue> {
    if |ports| == 0 then []
    else
      var port := ports[|ports| - 1];
      MissingPorts(g, id, ports[..|ports| - 1]) + if !IsWired(g, id, port) then [MissingPort(id, port)] else []
  }

  function PortIssues(g: Graph, nodes: seq<Node>): seq<Issue> {
    if |nodes| == 0 then []
    else
      PortIssues(g, nodes[..|nodes| - 1]) + PortIssuesOf(g, nodes[|nodes| - 1])
  }

  function PortIssuesOf(g: Graph, n: Node): seq<Issue> {
    var t := TypeOf(n.typ);
    if t.Some? then MissingPorts(g, n.id, RequiredPorts(t.value)) else []
  }

  function ReachIssues(reachable: set<string>, nodes: seq<Node>): seq<Issue> {
    if |nodes| == 0 then []
    else
      var n := nodes[|nodes| - 1];
      ReachIssues(reachable, nodes[..|nodes| - 1]) + if n.id !in reachable then [Unreachable(n.id)] else []
  }

  /** All of them, `reachable` being what the search found. */
  function Issues(g: Graph, s: Schemas, reachable: set<string>): seq<Issue> {
    NodeIssues(g, g.nodes) + LegacyIssues(s, g.nodes)
    + (EntryIssues(g, g.entryPoints) + (if |g.entryPoints| == 0 then [NoEntryPoint] else []))
    + EdgeIssues(g, g.edges) + KeyIssues(KeyTally(g, g.edges))
    + PortIssues(g, g.nodes) + ReachIssues(reachable, g.nodes)
  }

  // ---------- What is in each list ----------

  lemma {:induction false} CountedOnce(nodes: seq<Node>, id: string)
    ensures CountId(nodes, id) > 0 <==> exists i :: 0 <= i < |nodes| && nodes[i].id == id
  {
    if |nodes| > 0 {
      CountedOnce(nodes[..|nodes| - 1], id);
    }
  }

  lemma {:induction false} CountedTwice(nodes: seq<Node>, id: string)
    ensures CountId(nodes, id) > 1 <==> exists i, j :: 0 <= i < j < |nodes| && nodes[i].id == id == nodes[j].id
  {
    if |nodes| > 0 {
      var n := |nodes| - 1;
      CountedTwice(nodes[..n], id);
      CountedOnce(nodes[..n], id);
    }
  }

  lemma {:induction false} NodeIssuesAre(g: Graph, nodes: seq<Node>, issue: Issue)
    ensures issue in NodeIssues(g, nodes) <==> exists n <- nodes ::
              (issue == DuplicateNodeId(n.id) && IsDuplicate(g, n.id)) || (issue == UnknownType(n.id) && TypeOf(n.typ).None?)
  {
    if |nodes| > 0 {
      var n := nodes[|nodes| - 1];
      assert nodes == nodes[..|nodes| - 1] + [n];
      NodeIssuesAre(g, nodes[..|nodes| - 1], issue);
      CountedTwice(g.nodes, n.id);
    }
  }

  lemma {:induction false} LegacyIssuesAre(s: Schemas, nodes: seq<Node>, issue: Issue)
    ensures issue in LegacyIssues(s, nodes) <==>
            exists n <- nodes :: issue == LegacyTimeCondition(n.id) && n.typ == "time_condition" && s.isLegacy(n.config)
  {
    if |nodes| > 0 {
      assert nodes == nodes[..|nodes| - 1] + [nodes[|nodes| - 1]];
      LegacyIssuesAre(s, nodes[..|nodes| - 1], issue);
    }
  }

  lemma {:induction false} EntryIssuesAre(g: Graph, entries: seq<EntryPoint>, issue: Issue)
    ensures issue in EntryIssues(g, entries) <==> exists e <- entries :: issue == BadEntryPoint(e.name) && !IsNode(g, e.target)
  {
    if |entries| > 0 {
      assert entries == entries[..|entries| - 1] + [entries[|entries| - 1]];
      EntryIssuesAre(g, entries[..|entries| - 1], issue);
    }
  }

  predicate IsEdgeIssue(g: Graph, e: Edge, issue: Issue) {
    if !IsNode(g, e.from) then issue == EdgeFromNowhere(e)
    else (issue == EdgeToNowhere(e) && !IsNode(g, e.to)) || (issue == NoSuchPort(e) && !AllowsPort(g, e))
  }

  lemma {:induction false} EdgeIssuesAre(g: Graph, edges: seq<Edge>, issue: Issue)
    ensures issue in EdgeIssues(g, edges) <==> exists e <- edges :: IsEdgeIssue(g, e, issue)
  {
    if |edges| > 0 {
      var n := |edges| - 1;
      assert edges == edges[..n] + [edges[n]];
      EdgeIssuesAre(g, edges[..n], issue);
      assert issue in IssuesOfEdge(g, edges[n]) <==> IsEdgeIssue(g, edges[n], issue);
      assert issue in EdgeIssues(g, edges) <==> issue in EdgeIssues(g, edges[..n]) || issue in IssuesOfEdge(g, edges[n]);
    }
  }

  /** The count a tally holds for a key. */
  function CountIn(tally: Tally, key: string): nat {
    if |tally| == 0 then 0 else if tally[0].0 == key then tally[0].1 else CountIn(tally[1..], key)
  }

  predicate KeysDiffer(tally: Tally) {
    forall i, j :: 0 <= i < j < |tally| ==> tally[i].0 != tally[j].0
  }

  lemma {:induction false} CountedAddsOne(tally: Tally, key: string, other: string)
    ensures CountIn(Counted(tally, key), other) == CountIn(tally, other) + if other == key then 1 else 0
  {
    if |tally| > 0 && tally[0].0 != key {
      CountedAddsOne(tally[1..], key, other);
    }
  }

  lemma {:induction false} CountedKeepsKeys(tally: Tally, key: string)
    requires KeysDiffer(tally)
    ensures KeysDiffer(Counted(tally, key))
    ensures forall p <- Counted(tally, key) :: p.0 == key || exists q <- tally :: q.0 == p.0
  {
    if |tally| > 0 && tally[0].0 != key {
      CountedKeepsKeys(tally[1..], key);
    }
  }

  lemma {:induction false} TallyKeysDiffer(g: Graph, edges: seq<Edge>)
    ensures KeysDiffer(KeyTally(g, edges))
  {
    if |edges| > 0 {
      TallyKeysDiffer(g, edges[..|edges| - 1]);
      CountedKeepsKeys(KeyTally(g, edges[..|edges| - 1]), EdgeKey(edges[|edges| - 1]));
    }
  }

  lemma {:induction false} KeyIssuesAre(tally: Tally, issue: Issue)
    requires KeysDiffer(tally)
    ensures issue in KeyIssues(tally) <==> issue.PortWiredTwice? && CountIn(tally, issue.key) > 1
  {
    if |tally| > 0 {
      KeyIssuesAre(tally[1..], issue);
      if issue.PortWiredTwice? && issue.key == tally[0].0 {
        NotCounted(tally[1..], issue.key);
      }
    }
  }

  lemma {:induction false} NotCounted(tally: Tally, key: string)
    requires forall i :: 0 <= i < |tally| ==> tally[i].0 != key
    ensures CountIn(tally, key) == 0
  {
    if |tally| > 0 {
      NotCounted(tally[1..], key);
    }
  }

  predicate HasKey(g: Graph, e: Edge, key: string) {
    IsNode(g, e.from) && EdgeKey(e) == key
  }

  lemma {:induction false} TallyOnce(g: Graph, edges: seq<Edge>, key: string)
    ensures CountIn(KeyTally(g, edges), key) > 0 <==> exists i :: 0 <= i < |edges| && HasKey(g, edges[i], key)
  {
    if |edges| > 0 {
      var n := |edges| - 1;
      TallyOnce(g, edges[..n], key);
      CountedAddsOne(KeyTally(g, edges[..n]), EdgeKey(edges[n]), key);
    }
  }

  lemma {:induction false} TallyTwice(g: Graph, edges: seq<Edge>, key: string)
    ensures CountIn(KeyTally(g, edges), key) > 1 <==>
            exists i, j :: 0 <= i < j < |edges| && HasKey(g, edges[i], key) && HasKey(g, edges[j], key)
  {
    if |edges| > 0 {
      var n := |edges| - 1;
      TallyTwice(g, edges[..n], key);
      TallyOnce(g, edges[..n], key);
      CountedAddsOne(KeyTally(g, edges[..n]), EdgeKey(edges[n]), key);
    }
  }

  lemma {:induction false} MissingPortsAre(g: Graph, id: string, ports: seq<string>, issue: Issue)
    ensures issue in MissingPorts(g, id, ports) <==> exists port <- ports :: issue == MissingPort(id, port) && !IsWired(g, id, port)
  {
    if |ports| > 0 {
      assert ports == ports[..|ports| - 1] + [ports[|ports| - 1]];
      MissingPortsAre(g, id, ports[..|ports| - 1], issue);
    }
  }

  predicate IsPortIssue(g: Graph, n: Node, issue: Issue) {
    && issue.MissingPort? && issue.id == n.id && TypeOf(n.typ).Some?
    && issue.port in RequiredPorts(TypeOf(n.typ).value) && !IsWired(g, n.id, issue.port)
  }

  lemma {:induction false} PortIssuesOfAre(g: Graph, n: Node, issue: Issue)
    ensures issue in PortIssuesOf(g, n) <==> IsPortIssue(g, n, issue)
  {
    if TypeOf(n.typ).Some? {
      MissingPortsAre(g, n.id, RequiredPorts(TypeOf(n.typ).value), issue);
    }
  }

  lemma {:induction false} PortIssuesAre(g: Graph, nodes: seq<Node>, issue: Issue)
    ensures issue in PortIssues(g, nodes) <==> exists n <- nodes :: IsPortIssue(g, n, issue)
  {
    if |nodes| > 0 {
      var n := |nodes| - 1;
      assert nodes == nodes[..n] + [nodes[n]];
      PortIssuesAre(g, nodes[..n], issue);
      PortIssuesOfAre(g, nodes[n], issue);
      assert issue in PortIssues(g, nodes) <==> issue in PortIssues(g, nodes[..n]) || issue in PortIssuesOf(g, nodes[n]);
    }
  }

  lemma {:induction false} ReachIssuesAre(reachable: set<string>, nodes: seq<Node>, issue: Issue)
    ensures issue in ReachIssues(reachable, nodes) <==> exists n <- nodes :: issue == Unreachable(n.id) && n.id !in reachable
  {
    if |nodes| > 0 {
      assert nodes == nodes[..|nodes| - 1] + [nodes[|nodes| - 1]];
      ReachIssuesAre(reachable, nodes[..|nodes| - 1], issue);
    }
  }

  ghost predicate IsReachableSet(g: Graph, reachable: set<string>) {
    forall id :: id in reachable <==> Reachable(g, id)
  }

  lemma {:induction false} TwiceIsTwice(g: Graph, key: string)
    ensures CountIn(KeyTally(g, g.edges), key) > 1 <==> IsKeyTwice(g, key)
  {
    TallyTwice(g, g.edges, key);
    if i, j :| 0 <= i < j < |g.edges| && HasKey(g, g.edges[i], key) && HasKey(g, g.edges[j], key) {
      assert EdgeKey(g.edges[i]) == key == EdgeKey(g.edges[j]);
    }
    if IsKeyTwice(g, key) {
      var i, j :| 0 <= i < j < |g.edges|
        && EdgeKey(g.edges[i]) == key == EdgeKey(g.edges[j]) && IsNode(g, g.edges[i].from) && IsNode(g, g.edges[j].from);
      assert HasKey(g, g.edges[i], key) && HasKey(g, g.edges[j], key);
    }
  }

  lemma {:induction false} NodeDefects(g: Graph, s: Schemas, issue: Issue)
    ensures issue in NodeIssues(g, g.nodes) <==> (issue.DuplicateNodeId? || issue.UnknownType?) && IsDefect(g, s, issue)
    ensures issue in LegacyIssues(s, g.nodes) <==> issue.LegacyTimeCondition? && IsDefect(g, s, issue)
  {
    NodeIssuesAre(g, g.nodes, issue);
    LegacyIssuesAre(s, g.nodes, issue);
    if issue.DuplicateNodeId? && IsDuplicate(g, issue.id) {
      var i :| 0 <= i < |g.nodes| && g.nodes[i].id == issue.id;
      assert g.nodes[i] in g.nodes;
    }
  }

  lemma {:induction false} EdgeDefects(g: Graph, s: Schemas, issue: Issue)
    ensures issue in EntryIssues(g, g.entryPoints) <==> issue.BadEntryPoint? && IsDefect(g, s, issue)
    ensures issue in EdgeIssues(g, g.edges) <==>
            (issue.EdgeFromNowhere? || issue.EdgeToNowhere? || issue.NoSuchPort?) && IsDefect(g, s, issue)
    ensures issue in KeyIssues(KeyTally(g, g.edges)) <==> issue.PortWiredTwice? && IsDefect(g, s, issue)
  {
    EntryIssuesAre(g, g.entryPoints, issue);
    EdgeIssuesAre(g, g.edges, issue);
    TallyKeysDiffer(g, g.edges);
    KeyIssuesAre(KeyTally(g, g.edges), issue);
    if issue.PortWiredTwice? {
      TwiceIsTwice(g, issue.key);
    }
  }

  lemma {:induction false} PortAndReachDefects(g: Graph, s: Schemas, reachable: set<string>, issue: Issue)
    requires IsReachableSet(g, reachable)
    ensures issue in PortIssues(g, g.nodes) <==> issue.MissingPort? && IsDefect(g, s, issue)
    ensures issue in ReachIssues(reachable, g.nodes) <==> issue.Unreachable? && IsDefect(g, s, issue)
  {
    PortIssuesAre(g, g.nodes, issue);
    ReachIssuesAre(reachable, g.nodes, issue);
  }

  /** The list holds an issue exactly when the graph has that defect. */
  lemma {:induction false} IssuesAreDefects(g: Graph, s: Schemas, reachable: set<string>, issue: Issue)
    requires IsReachableSet(g, reachable)
    ensures issue in Issues(g, s, reachable) <==> IsDefect(g, s, issue)
  {
    NodeDefects(g, s, issue);
    EdgeDefects(g, s, issue);
    PortAndReachDefects(g, s, reachable, issue);
  }

  /** Nothing is listed exactly when the graph is valid. */
  lemma {:induction false} NoIssueMeansValid(g: Graph, s: Schemas, reachable: set<string>)
    requires IsReachableSet(g, reachable)
    ensures Issues(g, s, reachable) == [] <==> Valid(g, s)
  {
    ValidIsNoDefect(g, s);
    forall issue: Issue
      ensures issue in Issues(g, s, reachable) <==> IsDefect(g, s, issue)
    {
      IssuesAreDefects(g, s, reachable, issue);
    }
    if Issues(g, s, reachable) != [] {
      assert IsDefect(g, s, Issues(g, s, reachable)[0]);
    }
  }

  // ---------- The search ----------

  lemma {:induction false} EntryIsReachable(g: Graph, id: string)
    requires IsNode(g, id) && exists e <- g.entryPoints :: e.target == id
    ensures Reachable(g, id)
  {
    assert IsPath(g, [id]);
  }

  lemma {:induction false} FollowingIsReachable(g: Graph, from: string, to: string)
    requires Reachable(g, from) && Follows(g, from, to)
    ensures Reachable(g, to)
  {
    var path :| IsPath(g, path) && path[|path| - 1] == from;
    assert IsPath(g, path + [to]);
  }

  /** A set that holds the entry points and whatever follows from it holds every node of every path. */
  lemma {:induction false} ClosedHoldsPaths(g: Graph, found: set<string>, path: seq<string>)
    requires forall e <- g.entryPoints :: IsNode(g, e.target) ==> e.target in found
    requires forall from: string, to: string :: from in found && Follows(g, from, to) ==> to in found
    requires IsPath(g, path)
    ensures path[|path| - 1] in found
  {
    if |path| > 1 {
      var shorter := path[..|path| - 1];
      assert IsPath(g, shorter);
      ClosedHoldsPaths(g, found, shorter);
      assert Follows(g, path[|path| - 2], path[|path| - 1]);
    }
  }

  method EntryNodes(g: Graph) returns (queue: seq<string>)
    ensures forall id :: id in queue <==> IsNode(g, id) && exists e <- g.entryPoints :: e.target == id
  {
    queue := [];
    for k := 0 to |g.entryPoints|
      invariant forall id :: id in queue <==> IsNode(g, id) && exists i :: 0 <= i < k && g.entryPoints[i].target == id
    {
      if IsNode(g, g.entryPoints[k].target) {
        queue := queue + [g.entryPoints[k].target];
      }
    }
  }

  method Successors(g: Graph, current: string) returns (next: seq<string>)
    ensures forall id :: id in next <==> Follows(g, current, id)
  {
    next := [];
    for k := 0 to |g.edges|
      invariant forall id :: id in next <==>
                  IsNode(g, id) && exists i :: 0 <= i < k && g.edges[i].from == current && g.edges[i].to == id
    {
      if g.edges[k].from == current && IsNode(g, g.edges[k].to) {
        next := next + [g.edges[k].to];
      }
    }
  }

  /** What is left to do is in the queue: whatever an entry point names, and whatever follows from what was found. */
  ghost predicate Frontier(g: Graph, found: set<string>, queue: seq<string>) {
    && (forall id :: id in found || id in queue ==> IsNode(g, id) && Reachable(g, id))
    && (forall e <- g.entryPoints :: IsNode(g, e.target) ==> e.target in found || e.target in queue)
    && (forall from: string, to: string :: from in found && Follows(g, from, to) ==> to in found || to in queue)
  }

  lemma {:induction false} FrontierMoves(g: Graph, found: set<string>, queue: seq<string>, next: seq<string>)
    requires |queue| > 0 && Frontier(g, found, queue)
    requires queue[0] !in found ==> forall id :: id in next <==> Follows(g, queue[0], id)
    requires queue[0] in found ==> next == []
    ensures Frontier(g, found + {queue[0]}, queue[1..] + next)
  {
    assert queue == [queue[0]] + queue[1..];
    if queue[0] !in found {
      forall id | id in next
        ensures IsNode(g, id) && Reachable(g, id)
      {
        FollowingIsReachable(g, queue[0], id);
      }
    }
  }

  lemma {:induction false} EmptyFrontierIsAll(g: Graph, found: set<string>)
    requires Frontier(g, found, [])
    ensures IsReachableSet(g, found)
  {
    forall id | Reachable(g, id)
      ensures id in found
    {
      var path :| IsPath(g, path) && path[|path| - 1] == id;
      ClosedHoldsPaths(g, found, path);
    }
  }

  lemma {:induction false} EntriesAreFrontier(g: Graph, queue: seq<string>)
    requires forall id :: id in queue <==> IsNode(g, id) && exists e <- g.entryPoints :: e.target == id
    ensures Frontier(g, {}, queue)
  {
    forall id | id in queue
      ensures Reachable(g, id)
    {
      EntryIsReachable(g, id);
    }
  }

  /** How many nodes are not found yet. */
  ghost function Missing(g: Graph, found: set<string>): nat {
    |NodeIds(g) - found|
  }

  lemma {:induction false} SearchProgresses(g: Graph, found: set<string>, id: string)
    requires IsNode(g, id)
    ensures if id in found then found + {id} == found else Missing(g, found + {id}) < Missing(g, found)
  {
    if id in found {
      assert found + {id} == found;
    } else {
      assert NodeIds(g) - found == (NodeIds(g) - (found + {id})) + {id};
    }
  }

  ghost function NodeIds(g: Graph): set<string> {
    set n <- g.nodes :: n.id
  }

  /** The breadth-first search finds exactly the nodes some path leads to, and it ends. */
  method FindReachable(g: Graph) returns (reachable: set<string>)
    ensures IsReachableSet(g, reachable)
  {
    reachable := {};
    var queue := EntryNodes(g);
    EntriesAreFrontier(g, queue);
    while |queue| > 0
      invariant Frontier(g, reachable, queue)
      decreases Missing(g, reachable), |queue|
    {
      var next := [];
      if queue[0] !in reachable {
        next := Successors(g, queue[0]);
      }
      FrontierMoves(g, reachable, queue, next);
      SearchProgresses(g, reachable, queue[0]);
      reachable := reachable + {queue[0]};
      queue := queue[1..] + next;
    }
    EmptyFrontierIsAll(g, reachable);
  }

  // ---------- The loops over nodes, entry points and edges ----------

  method CheckNodes(g: Graph) returns (issues: seq<Issue>)
    ensures issues == NodeIssues(g, g.nodes)
  {
    issues := [];
    for k := 0 to |g.nodes|
      invariant issues == NodeIssues(g, g.nodes[..k])
    {
      assert g.nodes[..k + 1][..k] == g.nodes[..k];
      if CountId(g.nodes, g.nodes[k].id) > 1 {
        issues := issues + [DuplicateNodeId(g.nodes[k].id)];
      }
      if TypeOf(g.nodes[k].typ).None? {
        issues := issues + [UnknownType(g.nodes[k].id)];
      }
    }
    assert g.nodes[..|g.nodes|] == g.nodes;
  }

  method CheckLegacy(s: Schemas, nodes: seq<Node>) returns (issues: seq<Issue>)
    ensures issues == LegacyIssues(s, nodes)
  {
    issues := [];
    for k := 0 to |nodes|
      invariant issues == LegacyIssues(s, nodes[..k])
    {
      assert nodes[..k + 1][..k] == nodes[..k];
      if nodes[k].typ == "time_condition" && s.isLegacy(nodes[k].config) {
        issues := issues + [LegacyTimeCondition(nodes[k].id)];
      }
    }
    assert nodes[..|nodes|] == nodes;
  }

  method CheckEntryPoints(g: Graph) returns (issues: seq<Issue>)
    ensures issues == EntryIssues(g, g.entryPoints) + (if |g.entryPoints| == 0 then [NoEntryPoint] else [])
  {
    issues := [];
    for k := 0 to |g.entryPoints|
      invariant issues == EntryIssues(g, g.entryPoints[..k])
    {
      assert g.entryPoints[..k + 1][..k] == g.entryPoints[..k];
      if !IsNode(g, g.entryPoints[k].target) {
        issues := issues + [BadEntryPoint(g.entryPoints[k].name)];
      }
    }
    assert g.entryPoints[..|g.entryPoints|] == g.entryPoints;
    if |g.entryPoints| == 0 {
      issues := issues + [NoEntryPoint];
    }
  }

  method CheckEdges(g: Graph) returns (issues: seq<Issue>, tally: Tally)
    ensures issues == EdgeIssues(g, g.edges) && tally == KeyTally(g, g.edges)
  {
    issues, tally := [], [];
    for k := 0 to |g.edges|
      invariant issues == EdgeIssues(g, g.edges[..k]) && tally == KeyTally(g, g.edges[..k])
    {
      assert g.edges[..k + 1][..k] == g.edges[..k];
      var e := g.edges[k];
      if !IsNode(g, e.from) {
        issues := issues + [EdgeFromNowhere(e)];
        continue;
      }
      var ofEdge: seq<Issue> := [];
      if !IsNode(g, e.to) {
        ofEdge := [EdgeToNowhere(e)];
      }
      if !AllowsPort(g, e) {
        ofEdge := ofEdge + [NoSuchPort(e)];
      }
      issues := issues + ofEdge;
      tally := Counted(tally, EdgeKey(e));
    }
    assert g.edges[..|g.edges|] == g.edges;
  }

  method CheckKeys(tally: Tally) returns (issues: seq<Issue>)
    ensures issues == KeyIssues(tally)
  {
    issues := [];
    for k := 0 to |tally|
      invariant issues + KeyIssues(tally[k..]) == KeyIssues(tally)
    {
      assert tally[k..][1..] == tally[k + 1..];
      if tally[k].1 > 1 {
        issues := issues + [PortWiredTwice(tally[k].0)];
      }
    }
    assert tally[|tally|..] == [];
  }

  method CheckPorts(g: Graph) returns (issues: seq<Issue>)
    ensures issues == PortIssues(g, g.nodes)
  {
    issues := [];
    for k := 0 to |g.nodes|
      invariant issues == PortIssues(g, g.nodes[..k])
    {
      assert g.nodes[..k + 1][..k] == g.nodes[..k];
      var t := TypeOf(g.nodes[k].typ);
      if t.Some? {
        var missing := CheckPortsOf(g, g.nodes[k].id, RequiredPorts(t.value));
        issues := issues + missing;
      }
    }
    assert g.nodes[..|g.nodes|] == g.nodes;
  }

  method CheckPortsOf(g: Graph, id: string, ports: seq<string>) returns (issues: seq<Issue>)
    ensures issues == MissingPorts(g, id, ports)
  {
    issues := [];
    for k := 0 to |ports|
      invariant issues == MissingPorts(g, id, ports[..k])
    {
      assert ports[..k + 1][..k] == ports[..k];
      if !IsWired(g, id, ports[k]) {
        issues := issues + [MissingPort(id, ports[k])];
      }
    }
    assert ports[..|ports|] == ports;
  }

  method CheckReachable(reachable: set<string>, nodes: seq<Node>) returns (issues: seq<Issue>)
    ensures issues == ReachIssues(reachable, nodes)
  {
    issues := [];
    for k := 0 to |nodes|
      invariant issues == ReachIssues(reachable, nodes[..k])
    {
      assert nodes[..k + 1][..k] == nodes[..k];
      if nodes[k].id !in reachable {
        issues := issues + [Unreachable(nodes[k].id)];
      }
    }
    assert nodes[..|nodes|] == nodes;
  }

  method CollectIssues(g: Graph, s: Schemas) returns (issues: seq<Issue>, ghost reachable: set<string>)
    ensures IsReachableSet(g, reachable)
    ensures issues == Issues(g, s, reachable)
  {
    var nodeIssues := CheckNodes(g);
    var legacyIssues := CheckLegacy(s, g.nodes);
    var entryIssues := CheckEntryPoints(g);
    var edgeIssues, tally := CheckEdges(g);
    var keyIssues := CheckKeys(tally);
    var portIssues := CheckPorts(g);
    var found := FindReachable(g);
    var reachIssues := CheckReachable(found, g.nodes);
    reachable := found;
    issues := nodeIssues + legacyIssues + entryIssues + edgeIssues + keyIssues + portIssues + reachIssues;
  }

  /** Lists exactly the graph's defects, each at least once, and nothing for a valid graph only. */
  method ValidateGraph(g: Graph, s: Schemas) returns (issues: seq<Issue>)
    ensures forall issue: Issue :: issue in issues <==> IsDefect(g, s, issue)
    ensures issues == [] <==> Valid(g, s)
  {
    ghost var reachable;
    issues, reachable := CollectIssues(g, s);
    NoIssueMeansValid(g, s, reachable);
    forall issue: Issue
      ensures issue in issues <==> IsDefect(g, s, issue)
    {
      IssuesAreDefects(g, s, reachable, issue);
    }
  }
}
