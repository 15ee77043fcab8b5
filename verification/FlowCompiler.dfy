/**
 `compileGraph`: a valid graph's edges resolved into ports inside each node. Walking the compiled form
 by port lookup visits what walking the authored edge list visits.
 */
module FlowCompiler {
  import opened Wrappers
  import opened FlowGraph
  import opened FlowValidator

  datatype CompiledNode = CompiledNode(id: string, typ: NodeType, config: Config, ports: map<string, string>)

  datatype FlowIR = FlowIR(entryPoints: seq<EntryPoint>, nodes: map<string, CompiledNode>)

  /** Assigning to this name of a plain object changes its prototype and adds no property. */
  const PROTO := "__proto__"

  function Put(nodes: map<string, CompiledNode>, id: string, n: CompiledNode): map<string, CompiledNode> {
    if id == PROTO then nodes else nodes[id := n]
  }

  function PortsOf(edges: seq<Edge>, id: string): map<string, string> {
    if |edges| == 0 then map[]
    else
      var e, before := edges[|edges| - 1], PortsOf(edges[..|edges| - 1], id);
      if e.from == id then before[e.port := e.to] else before
  }

  predicate ConfigFits(s: Schemas, n: Node) {
    TypeOf(n.typ).Some? ==> s.check(TypeOf(n.typ).value, n.config)
  }

  function CompiledNodes(edges: seq<Edge>, nodes: seq<Node>): map<string, CompiledNode> {
    if |nodes| == 0 then map[]
    else
      var n, before := nodes[|nodes| - 1], CompiledNodes(edges, nodes[..|nodes| - 1]);
      match TypeOf(n.typ)
      case None => before
      case Some(t) => Put(before, n.id, CompiledNode(n.id, t, n.config, PortsOf(edges, n.id)))
  }

  method CompilePorts(edges: seq<Edge>, id: string) returns (ports: map<string, string>)
    ensures ports == PortsOf(edges, id)
  {
    ports := map[];
    for k := 0 to |edges|
      invariant ports == PortsOf(edges[..k], id)
    {
      assert edges[..k + 1][..k] == edges[..k];
      if edges[k].from == id {
        ports := ports[edges[k].port := edges[k].to];
      }
    }
    assert edges[..|edges|] == edges;
  }

  method CompileNodes(g: Graph, s: Schemas) returns (r: Result<map<string, CompiledNode>, Issue>)
    ensures r.Ok? <==> forall n <- g.nodes :: ConfigFits(s, n)
    ensures r.Ok? ==> r.value == CompiledNodes(g.edges, g.nodes)
    ensures r.Err? ==> exists n <- g.nodes :: !ConfigFits(s, n) && r.error == BadConfig(n.id)
  {
    var nodes: map<string, CompiledNode> := map[];
    for k := 0 to |g.nodes|
      invariant forall i :: 0 <= i < k ==> ConfigFits(s, g.nodes[i])
      invariant nodes == CompiledNodes(g.edges, g.nodes[..k])
    {
      assert g.nodes[..k + 1][..k] == g.nodes[..k];
      var n := g.nodes[k];
      var t := TypeOf(n.typ);
      if t.Some? {
        if !s.check(t.value, n.config) {
          assert n in g.nodes && !ConfigFits(s, n);
          return Err(BadConfig(n.id));
        }
        var ports := CompilePorts(g.edges, n.id);
        nodes := Put(nodes, n.id, CompiledNode(n.id, t.value, n.config, ports));
      }
    }
    assert g.nodes[..|g.nodes|] == g.nodes;
    r := Ok(nodes);
  }

  /** Compiles valid graphs whose configurations fit, and no others; refuses with every defect, or with a misfit. */
  method CompileGraph(g: Graph, s: Schemas) returns (r: Result<FlowIR, seq<Issue>>)
    ensures r.Ok? <==> Valid(g, s) && forall n <- g.nodes :: ConfigFits(s, n)
    ensures r.Ok? ==> r.value == FlowIR(g.entryPoints, CompiledNodes(g.edges, g.nodes))
    ensures r.Err? && !Valid(g, s) ==> forall issue: Issue :: issue in r.error <==> IsDefect(g, s, issue)
    ensures r.Err? && Valid(g, s) ==> exists n <- g.nodes :: !ConfigFits(s, n) && r.error == [BadConfig(n.id)]
  {
    var issues := ValidateGraph(g, s);
    if |issues| > 0 {
      return Err(issues);
    }
    var nodes := CompileNodes(g, s);
    if nodes.Err? {
      return Err([nodes.error]);
    }
    r := Ok(FlowIR(g.entryPoints, nodes.value));
  }

  // ---------- What was compiled ----------

  /** In a sound graph an edge differs from every edge before it. */
  lemma {:induction false} NewPort(g: Graph, edges: seq<Edge>, n: nat, e: Edge)
    requires edges <= g.edges && EdgesAreSound(g) && n < |edges| && e in edges[..n]
    ensures e.from != edges[n].from || e.port != edges[n].port
  {
    var i :| 0 <= i < n && edges[i] == e;
    assert g.edges[i] == e && g.edges[n] == edges[n];
  }

  lemma {:induction false} PortsAreEdges(g: Graph, edges: seq<Edge>, id: string, port: string)
    requires edges <= g.edges && EdgesAreSound(g)
    ensures port in PortsOf(edges, id) <==> exists e <- edges :: e.from == id && e.port == port
    ensures forall e <- edges :: e.from == id && e.port == port ==> port in PortsOf(edges, id) && PortsOf(edges, id)[port] == e.to
  {
    if |edges| > 0 {
      var n := |edges| - 1;
      assert edges == edges[..n] + [edges[n]];
      PortsAreEdges(g, edges[..n], id, port);
      forall e | e in edges[..n]
        ensures e.from != edges[n].from || e.port != edges[n].port
      {
        NewPort(g, edges, n, e);
      }
    }
  }

  lemma {:induction false} NodesAreCompiled(edges: seq<Edge>, nodes: seq<Node>, id: string)
    requires forall n <- nodes :: TypeOf(n.typ).Some?
    ensures id in CompiledNodes(edges, nodes) <==> id != PROTO && exists n <- nodes :: n.id == id
    ensures id in CompiledNodes(edges, nodes) ==> CompiledNodes(edges, nodes)[id].ports == PortsOf(edges, id)
  {
    if |nodes| > 0 {
      assert nodes == nodes[..|nodes| - 1] + [nodes[|nodes| - 1]];
      NodesAreCompiled(edges, nodes[..|nodes| - 1], id);
    }
  }

  /** Each node compiles to its own type and configuration, with its own edges as ports. */
  lemma {:induction false} NodeIsCompiledAs(edges: seq<Edge>, nodes: seq<Node>, i: nat)
    requires forall j, k :: 0 <= j < k < |nodes| ==> nodes[j].id != nodes[k].id
    requires i < |nodes| && nodes[i].id != PROTO && TypeOf(nodes[i].typ).Some?
    ensures nodes[i].id in CompiledNodes(edges, nodes)
    ensures CompiledNodes(edges, nodes)[nodes[i].id]
         == CompiledNode(nodes[i].id, TypeOf(nodes[i].typ).value, nodes[i].config, PortsOf(edges, nodes[i].id))
  {
    if i < |nodes| - 1 {
      NodeIsCompiledAs(edges, nodes[..|nodes| - 1], i);
    }
  }

  // ---------- Walks ----------

  /** Where the edge wired to a port of a node leads. */
  function EdgeTarget(edges: seq<Edge>, id: string, port: string): (to: Option<string>)
    ensures to.Some? ==> Edge(id, port, to.value) in edges
    ensures to.None? ==> forall e <- edges :: e.from != id || e.port != port
  {
    if |edges| == 0 then None
    else if edges[0].from == id && edges[0].port == port then Some(edges[0].to)
    else EdgeTarget(edges[1..], id, port)
  }

  /** The nodes visited along the authored edges; a port with no edge ends the walk. */
  function WalkEdges(g: Graph, at: string, choices: seq<string>): seq<string>
    decreases |choices|
  {
    if |choices| == 0 then [at]
    else
      match EdgeTarget(g.edges, at, choices[0])
      case None => [at]
      case Some(to) => [at] + WalkEdges(g, to, choices[1..])
  }

  datatype Walk = Stopped(visited: seq<string>) | Lost(visited: seq<string>, id: string)

  /** The walk through the compiled form: lost at an id that is not among its nodes. */
  function WalkIR(ir: FlowIR, at: string, choices: seq<string>): Walk
    decreases |choices|
  {
    if at !in ir.nodes then Lost([], at)
    else if |choices| == 0 || choices[0] !in ir.nodes[at].ports then Stopped([at])
    else
      match WalkIR(ir, ir.nodes[at].ports[choices[0]], choices[1..])
      case Stopped(visited) => Stopped([at] + visited)
      case Lost(visited, id) => Lost([at] + visited, id)
  }

  ghost predicate IsCompiled(g: Graph, s: Schemas, ir: FlowIR) {
    Valid(g, s) && ir == FlowIR(g.entryPoints, CompiledNodes(g.edges, g.nodes))
  }

  /** A compiled node's ports lead where its edges do. */
  predicate PortLeads(g: Graph, ports: map<string, string>, at: string, port: string) {
    var to := EdgeTarget(g.edges, at, port);
    && to == (if port in ports then Some(ports[port]) else None)
    && (to.Some? ==> IsNode(g, to.value))
  }

  ghost predicate MatchesEdges(g: Graph, ir: FlowIR) {
    && (forall at: string :: IsNode(g, at) ==> (at in ir.nodes <==> at != PROTO))
    && (forall at: string, port: string :: IsNode(g, at) && at in ir.nodes ==> PortLeads(g, ir.nodes[at].ports, at, port))
    && (forall e <- g.edges :: IsNode(g, e.to))
  }

  lemma {:induction false} PortLeadsAlongEdges(g: Graph, at: string, port: string)
    requires EdgesAreSound(g)
    ensures PortLeads(g, PortsOf(g.edges, at), at, port)
  {
    PortsAreEdges(g, g.edges, at, port);
  }

  lemma {:induction false} CompiledMatches(g: Graph, s: Schemas, ir: FlowIR)
    requires IsCompiled(g, s, ir)
    ensures MatchesEdges(g, ir)
  {
    forall at: string | IsNode(g, at)
      ensures at in ir.nodes <==> at != PROTO
      ensures at in ir.nodes ==> ir.nodes[at].ports == PortsOf(g.edges, at)
    {
      NodesAreCompiled(g.edges, g.nodes, at);
    }
    forall at: string, port: string | IsNode(g, at) && at in ir.nodes
      ensures PortLeads(g, ir.nodes[at].ports, at, port)
    {
      PortLeadsAlongEdges(g, at, port);
    }
  }

  lemma {:induction false} MatchingWalksAgree(g: Graph, ir: FlowIR, at: string, choices: seq<string>)
    requires MatchesEdges(g, ir) && IsNode(g, at)
    ensures if PROTO in WalkEdges(g, at, choices) then WalkIR(ir, at, choices).Lost? && WalkIR(ir, at, choices).id == PROTO
            else WalkIR(ir, at, choices) == Stopped(WalkEdges(g, at, choices))
    decreases |choices|
  {
    if |choices| > 0 {
      var to := EdgeTarget(g.edges, at, choices[0]);
      assert to.Some? ==> IsNode(g, to.value);
      assert at in ir.nodes ==> PortLeads(g, ir.nodes[at].ports, at, choices[0]);
      if to.Some? {
        MatchingWalksAgree(g, ir, to.value, choices[1..]);
      }
    }
  }

  /**
   Whatever ports are chosen, however many, the compiled walk visits the same nodes as the authored one
   and stops at the same place, unless it comes to a node named "__proto__".
   */
  lemma {:induction false} WalksAgree(g: Graph, s: Schemas, ir: FlowIR, at: string, choices: seq<string>)
    requires IsCompiled(g, s, ir) && IsNode(g, at)
    ensures if PROTO in WalkEdges(g, at, choices) then WalkIR(ir, at, choices).Lost? && WalkIR(ir, at, choices).id == PROTO
            else WalkIR(ir, at, choices) == Stopped(WalkEdges(g, at, choices))
  {
    CompiledMatches(g, s, ir);
    MatchingWalksAgree(g, ir, at, choices);
  }

  /** Some choice of ports takes the authored walk along any path. */
  lemma {:induction false} PathsCanBeWalked(g: Graph, path: seq<string>) returns (choices: seq<string>)
    requires EdgesAreSound(g) && |path| > 0 && forall i :: 0 <= i < |path| - 1 ==> Follows(g, path[i], path[i + 1])
    ensures WalkEdges(g, path[0], choices) == path
    decreases |path|
  {
    if |path| == 1 {
      return [];
    }
    var rest := PathsCanBeWalked(g, path[1..]);
    assert Follows(g, path[0], path[0 + 1]);
    var e :| e in g.edges && e.from == path[0] && e.to == path[1];
    OneEdgeAPort(g, e);
    choices := [e.port] + rest;
    assert choices[1..] == rest;
    assert path == [path[0]] + path[1..];
  }

  lemma {:induction false} OneEdgeAPort(g: Graph, e: Edge)
    requires EdgesAreSound(g) && e in g.edges
    ensures EdgeTarget(g.edges, e.from, e.port) == Some(e.to)
  {
    var to := EdgeTarget(g.edges, e.from, e.port);
    var i :| 0 <= i < |g.edges| && g.edges[i] == e;
    var j :| 0 <= j < |g.edges| && g.edges[j] == Edge(e.from, e.port, to.value);
  }

  ghost predicate NeverLost(g: Graph, ir: FlowIR) {
    forall entry, choices: seq<string> :: entry in g.entryPoints ==> WalkIR(ir, entry.target, choices).Stopped?
  }

  /** No walk from an entry point comes to a missing id, exactly when no node is named "__proto__". */
  lemma {:induction false} NeverLostWithoutProto(g: Graph, s: Schemas, ir: FlowIR)
    requires IsCompiled(g, s, ir)
    ensures NeverLost(g, ir) <==> !IsNode(g, PROTO)
  {
    if IsNode(g, PROTO) {
      var n :| n in g.nodes && n.id == PROTO;
      assert Reachable(g, PROTO);
      var path :| IsPath(g, path) && path[|path| - 1] == PROTO;
      forall i | 0 <= i < |path| - 1
        ensures Follows(g, path[i], path[i + 1])
      {
        var j := i + 1;
        assert Follows(g, path[j - 1], path[j]);
      }
      var choices := PathsCanBeWalked(g, path);
      var entry :| entry in g.entryPoints && entry.target == path[0];
      WalksAgree(g, s, ir, entry.target, choices);
      assert WalkIR(ir, entry.target, choices).Lost?;
    } else {
      forall entry, choices: seq<string> | entry in g.entryPoints
        ensures WalkIR(ir, entry.target, choices).Stopped?
      {
        WalksAgree(g, s, ir, entry.target, choices);
        VisitsNodesOnly(g, entry.target, choices);
      }
    }
  }

  lemma {:induction false} VisitsNodesOnly(g: Graph, at: string, choices: seq<string>)
    requires EdgesAreSound(g) && IsNode(g, at)
    ensures forall id <- WalkEdges(g, at, choices) :: IsNode(g, id)
    decreases |choices|
  {
    if |choices| > 0 {
      var to := EdgeTarget(g.edges, at, choices[0]);
      if to.Some? {
        VisitsNodesOnly(g, to.value, choices[1..]);
      }
    }
  }
}
