/**
 Call-flow graphs as authored: node types and their ports, what makes a graph valid, and the issues a
 validation reports, each stated on its own.
 */
module FlowGraph {
  import opened Wrappers
  import opened Text

  datatype NodeType = Play | Menu | TimeCondition | Extension | RingGroup | Queue | Voicemail | GotoFlow | Hangup

  function TypeOf(text: string): Option<NodeType> {
    if text == "play" then Some(Play)
    else if text == "menu" then Some(Menu)
    else if text == "time_condition" then Some(TimeCondition)
    else if text == "extension" then Some(Extension)
    else if text == "ring_group" then Some(RingGroup)
    else if text == "queue" then Some(Queue)
    else if text == "voicemail" then Some(Voicemail)
    else if text == "goto_flow" then Some(GotoFlow)
    else if text == "hangup" then Some(Hangup)
    else None
  }

  const MENU_DIGIT_PORTS := ["0", "1", "2", "3", "4", "5", "6", "7", "8", "9", "*", "#"]
  const MENU_FIXED_PORTS := ["timeout", "invalid"]

  function RequiredPorts(t: NodeType): seq<string> {
    match t
    case Play => ["next"]
    case Menu => MENU_FIXED_PORTS
    case TimeCondition => ["match", "noMatch"]
    case Extension => ["noAnswer"]
    case RingGroup => ["noAnswer"]
    case Queue => ["next"]
    case Voicemail => ["next"]
    case GotoFlow => []
    case Hangup => []
  }

  function AllowedPorts(t: NodeType): seq<string> {
    if t == Menu then MENU_FIXED_PORTS + MENU_DIGIT_PORTS else RequiredPorts(t)
  }

  /** A node's configuration is looked at through two tests only: its type's schema, and the shape from before schedules. */
  type Config = string

  datatype Schemas = Schemas(check: (NodeType, Config) -> bool, isLegacy: Config -> bool)

  datatype Node = Node(id: string, typ: string, config: Config)

  datatype Edge = Edge(from: string, port: string, to: string)

  datatype EntryPoint = EntryPoint(name: string, target: string)

  datatype Graph = Graph(entryPoints: seq<EntryPoint>, nodes: seq<Node>, edges: seq<Edge>)

  predicate IsNode(g: Graph, id: string) {
    exists n <- g.nodes :: n.id == id
  }

  /** The node an id stands for; the last one, where an id is used twice. */
  function NodeAt(nodes: seq<Node>, id: string): (n: Option<Node>)
    ensures n.Some? ==> n.value in nodes && n.value.id == id
    ensures n.None? <==> forall m <- nodes :: m.id != id
  {
    if |nodes| == 0 then None
    else
      var last := nodes[|nodes| - 1];
      if last.id == id then Some(last)
      else
        assert nodes == nodes[..|nodes| - 1] + [last];
        NodeAt(nodes[..|nodes| - 1], id)
  }

  // ---------- Reachability ----------

  predicate Follows(g: Graph, from: string, to: string) {
    exists e <- g.edges :: e.from == from && e.to == to && IsNode(g, to)
  }

  /** A path of nodes, each reached from the one before by some edge, the first named by an entry point. */
  predicate IsPath(g: Graph, path: seq<string>) {
    && |path| > 0
    && IsNode(g, path[0]) && (exists e <- g.entryPoints :: e.target == path[0])
    && forall i :: 0 < i < |path| ==> Follows(g, path[i - 1], path[i])
  }

  ghost predicate Reachable(g: Graph, id: string) {
    exists path :: IsPath(g, path) && path[|path| - 1] == id
  }

  // ---------- Validity ----------

  predicate IdsAreUnique(g: Graph) {
    forall i, j :: 0 <= i < j < |g.nodes| ==> g.nodes[i].id != g.nodes[j].id
  }

  predicate AllowsPort(g: Graph, e: Edge) {
    var n := NodeAt(g.nodes, e.from);
    n.Some? && TypeOf(n.value.typ).Some? ==> e.port in AllowedPorts(TypeOf(n.value.typ).value)
  }

  predicate EdgesAreSound(g: Graph) {
    && (forall e <- g.edges :: IsNode(g, e.from) && IsNode(g, e.to) && AllowsPort(g, e))
    && (forall i, j :: 0 <= i < j < |g.edges| ==> g.edges[i].from != g.edges[j].from || g.edges[i].port != g.edges[j].port)
  }

  predicate IsWired(g: Graph, id: string, port: string) {
    exists e <- g.edges :: e.from == id && e.port == port
  }

  predicate NodesAreSound(g: Graph, s: Schemas) {
    forall n <- g.nodes ::
      && TypeOf(n.typ).Some?
      && !(n.typ == "time_condition" && s.isLegacy(n.config))
      && forall port <- RequiredPorts(TypeOf(n.typ).value) :: IsWired(g, n.id, port)
  }

  /** What the compiler relies on. */
  ghost predicate Valid(g: Graph, s: Schemas) {
    && IdsAreUnique(g)
    && NodesAreSound(g, s)
    && |g.entryPoints| > 0 && (forall e <- g.entryPoints :: IsNode(g, e.target))
    && EdgesAreSound(g)
    && forall n <- g.nodes :: Reachable(g, n.id)
  }

  // ---------- Issues ----------

  datatype Issue =
    | DuplicateNodeId(id: string)
    | UnknownType(id: string)
    | LegacyTimeCondition(id: string)
    | BadEntryPoint(name: string)
    | NoEntryPoint
    | EdgeFromNowhere(edge: Edge)
    | EdgeToNowhere(edge: Edge)
    | NoSuchPort(edge: Edge)
    | PortWiredTwice(key: string)
    | MissingPort(id: string, port: string)
    | Unreachable(id: string)
    | BadConfig(id: string)

  /** U+0000, which stands between a node and a port in the validator's keys. */
  const NUL := '\0'

  function KeyOf(from: string, port: string): string {
    from + [NUL] + port
  }

  /** How the validator groups edges by node and port. */
  function EdgeKey(e: Edge): string {
    KeyOf(e.from, e.port)
  }

  predicate IsKeyTwice(g: Graph, key: string) {
    exists i, j :: 0 <= i < j < |g.edges|
      && EdgeKey(g.edges[i]) == key == EdgeKey(g.edges[j])
      && IsNode(g, g.edges[i].from) && IsNode(g, g.edges[j].from)
  }

  predicate IsDuplicate(g: Graph, id: string) {
    exists i, j :: 0 <= i < j < |g.nodes| && g.nodes[i].id == id == g.nodes[j].id
  }

  /** What each issue says of the graph. */
  ghost predicate IsDefect(g: Graph, s: Schemas, issue: Issue) {
    match issue
    case DuplicateNodeId(id) => IsDuplicate(g, id)
    case UnknownType(id) => exists n <- g.nodes :: n.id == id && TypeOf(n.typ).None?
    case LegacyTimeCondition(id) => exists n <- g.nodes :: n.id == id && n.typ == "time_condition" && s.isLegacy(n.config)
    case BadEntryPoint(name) => exists e <- g.entryPoints :: e.name == name && !IsNode(g, e.target)
    case NoEntryPoint => |g.entryPoints| == 0
    case EdgeFromNowhere(e) => e in g.edges && !IsNode(g, e.from)
    case EdgeToNowhere(e) => e in g.edges && IsNode(g, e.from) && !IsNode(g, e.to)
    case NoSuchPort(e) => e in g.edges && IsNode(g, e.from) && !AllowsPort(g, e)
    case PortWiredTwice(key) => IsKeyTwice(g, key)
    case MissingPort(id, port) =>
      exists n <- g.nodes :: n.id == id && TypeOf(n.typ).Some? && port in RequiredPorts(TypeOf(n.typ).value) && !IsWired(g, id, port)
    case Unreachable(id) => IsNode(g, id) && !Reachable(g, id)
    case BadConfig(id) => false
  }

  // ---------- No issue means valid, and the other way round ----------

  /** No port name a node may have holds the separator. */
  lemma {:induction false} PortsHaveNoSeparator(t: NodeType, port: string)
    requires port in AllowedPorts(t)
    ensures NUL !in port
  {
  }

  /** With a port free of the separator, the key gives back the edge's node and port. */
  lemma {:induction false} KeyIsOneToOne(a: string, p: string, b: string, q: string)
    requires NUL !in p && NUL !in q && KeyOf(a, p) == KeyOf(b, q)
    ensures a == b && p == q
  {
    var key := KeyOf(a, p);
    assert key[|a|] == NUL && key[|b|] == NUL by {
      assert KeyOf(b, q)[|b|] == NUL;
    }
    assert forall i :: |a| < i < |key| ==> key[i] == p[i - |a| - 1];
    assert forall i :: |b| < i < |key| ==> KeyOf(b, q)[i] == q[i - |b| - 1];
    assert key[..|a|] == a && KeyOf(b, q)[..|b|] == b;
    assert key[|a| + 1..] == p && KeyOf(b, q)[|b| + 1..] == q;
  }

  /** The issue reported for a port wired twice reads its node and port back from the key: right exactly for ids without the separator. */
  lemma {:induction false} KeyReadsBack(e: Edge)
    requires NUL !in e.port
    ensures Split(EdgeKey(e), NUL) == [e.from, e.port] <==> NUL !in e.from
  {
    var parts := Split(EdgeKey(e), NUL);
    assert NUL !in parts[0];
    if NUL !in e.from {
      SplitFirst(e.from, NUL, e.port);
      SplitWhole(e.port, NUL);
    }
  }

  /** The kinds a client sees. */
  datatype IssueKind =
    | UnreachableNode | PortMissing | BadReference | DigitConflict | InvalidPort | NodeIdTwice | NoEntry | InvalidConfig

  function KindOf(issue: Issue): IssueKind {
    match issue
    case DuplicateNodeId(_) => NodeIdTwice
    case UnknownType(_) => BadReference
    case LegacyTimeCondition(_) => InvalidConfig
    case BadEntryPoint(_) => BadReference
    case NoEntryPoint => NoEntry
    case EdgeFromNowhere(_) => BadReference
    case EdgeToNowhere(_) => BadReference
    case NoSuchPort(_) => InvalidPort
    case PortWiredTwice(key) =>
      var parts := Split(key, NUL);
      if |parts| > 1 && parts[1] in MENU_DIGIT_PORTS then DigitConflict else InvalidPort
    case MissingPort(_, _) => PortMissing
    case Unreachable(_) => UnreachableNode
    case BadConfig(_) => InvalidConfig
  }

  /** A port wired twice is called a digit conflict exactly when it is a digit, where no NUL is about. */
  lemma {:induction false} DigitConflictsAreDigits(e: Edge)
    requires NUL !in e.from && NUL !in e.port
    ensures KindOf(PortWiredTwice(EdgeKey(e))) == DigitConflict <==> e.port in MENU_DIGIT_PORTS
  {
    KeyReadsBack(e);
  }

  /** With a NUL in the node's id, a piece of the id is taken for the port. */
  lemma {:induction false} NulMistakesThePort()
    ensures KindOf(PortWiredTwice(EdgeKey(Edge("a" + [NUL] + "1", "next", "b")))) == DigitConflict
  {
    var rest := "1" + [NUL] + "next";
    assert EdgeKey(Edge("a" + [NUL] + "1", "next", "b")) == "a" + [NUL] + rest;
    SplitFirst("a", NUL, rest);
    SplitFirst("1", NUL, "next");
  }

  lemma {:induction false} SoundEdgePort(g: Graph, s: Schemas, e: Edge)
    requires NodesAreSound(g, s) && e in g.edges && IsNode(g, e.from) && AllowsPort(g, e)
    ensures NUL !in e.port
  {
    var n := NodeAt(g.nodes, e.from).value;
    PortsHaveNoSeparator(TypeOf(n.typ).value, e.port);
  }

  ghost predicate HasNoDefect(g: Graph, s: Schemas) {
    forall issue: Issue :: !IsDefect(g, s, issue)
  }

  lemma {:induction false} ValidHasNoDefect(g: Graph, s: Schemas, issue: Issue)
    requires Valid(g, s)
    ensures !IsDefect(g, s, issue)
  {
    if issue.PortWiredTwice? && IsKeyTwice(g, issue.key) {
      var i, j :| 0 <= i < j < |g.edges| && EdgeKey(g.edges[i]) == issue.key == EdgeKey(g.edges[j]);
      SoundEdgePort(g, s, g.edges[i]);
      SoundEdgePort(g, s, g.edges[j]);
      KeyIsOneToOne(g.edges[i].from, g.edges[i].port, g.edges[j].from, g.edges[j].port);
    }
  }

  lemma {:induction false} NoDefectInIds(g: Graph, s: Schemas)
    requires HasNoDefect(g, s)
    ensures IdsAreUnique(g) && forall n <- g.nodes :: Reachable(g, n.id)
  {
    forall i, j | 0 <= i < j < |g.nodes|
      ensures g.nodes[i].id != g.nodes[j].id
    {
      assert !IsDefect(g, s, DuplicateNodeId(g.nodes[i].id));
    }
    forall n | n in g.nodes
      ensures Reachable(g, n.id)
    {
      assert !IsDefect(g, s, Unreachable(n.id));
    }
  }

  lemma {:induction false} NoDefectInNode(g: Graph, s: Schemas, n: Node)
    requires HasNoDefect(g, s) && n in g.nodes
    ensures TypeOf(n.typ).Some? && !(n.typ == "time_condition" && s.isLegacy(n.config))
    ensures forall port <- RequiredPorts(TypeOf(n.typ).value) :: IsWired(g, n.id, port)
  {
    assert !IsDefect(g, s, UnknownType(n.id));
    assert !IsDefect(g, s, LegacyTimeCondition(n.id));
    forall port | port in RequiredPorts(TypeOf(n.typ).value)
      ensures IsWired(g, n.id, port)
    {
      assert !IsDefect(g, s, MissingPort(n.id, port));
    }
  }

  lemma {:induction false} NoDefectInEdges(g: Graph, s: Schemas)
    requires HasNoDefect(g, s)
    ensures EdgesAreSound(g) && |g.entryPoints| > 0 && forall e <- g.entryPoints :: IsNode(g, e.target)
  {
    assert !IsDefect(g, s, NoEntryPoint);
    forall e | e in g.entryPoints
      ensures IsNode(g, e.target)
    {
      assert !IsDefect(g, s, BadEntryPoint(e.name));
    }
    forall e | e in g.edges
      ensures IsNode(g, e.from) && IsNode(g, e.to) && AllowsPort(g, e)
    {
      assert !IsDefect(g, s, EdgeFromNowhere(e));
      assert !IsDefect(g, s, EdgeToNowhere(e));
      assert !IsDefect(g, s, NoSuchPort(e));
    }
    forall i, j | 0 <= i < j < |g.edges|
      ensures g.edges[i].from != g.edges[j].from || g.edges[i].port != g.edges[j].port
    {
      assert !IsDefect(g, s, PortWiredTwice(EdgeKey(g.edges[i])));
    }
  }

  /** A graph is valid exactly when nothing would be reported of it. */
  lemma {:induction false} ValidIsNoDefect(g: Graph, s: Schemas)
    ensures Valid(g, s) <==> HasNoDefect(g, s)
  {
    if Valid(g, s) {
      forall issue: Issue
        ensures !IsDefect(g, s, issue)
      {
        ValidHasNoDefect(g, s, issue);
      }
    }
    if HasNoDefect(g, s) {
      NoDefectInIds(g, s);
      forall n | n in g.nodes
        ensures TypeOf(n.typ).Some? && !(n.typ == "time_condition" && s.isLegacy(n.config))
        ensures forall port <- RequiredPorts(TypeOf(n.typ).value) :: IsWired(g, n.id, port)
      {
        NoDefectInNode(g, s, n);
      }
      NoDefectInEdges(g, s);
    }
  }
}
