/**
 Whether a person may monitor a call: across the tenant, or by a grant on an extension or queue the call
 touches; and the early exit that saves the lookups.
 */
module MonitorControl {
  import opened Wrappers
  import opened Authz

  datatype Leg = Leg(uuid: string, ext: Option<string>, queue: Option<string>)

  /** What asking for an extension number gives. */
  datatype Lookup = Unavailable | NoExtension | Extension(extensionId: string, agentQueueIds: seq<string>)

  /** The media node's answer: the queue a leg is in, if any, or nothing at all. */
  datatype NodeAnswer = NoAnswer | InQueue(queue: Option<string>)

  /** Why a question stays unanswered: what the person holds, the configuration service or the media node could not be asked. */
  datatype Problem = PermissionsUnavailable | MonitorUnavailable | MediaUnavailable

  /** What the person holds, and what the lookups would answer: by extension number, and by leg on the node. */
  datatype Question = Question(k: Tables, actor: Actor, permission: Permission, org: Org, roles: Roles, grants: seq<Grant>,
                               target: string, legs: seq<Leg>, extensionOf: string -> Lookup, queueOf: string -> NodeAnswer)

  /** A permission in the catalog, so the evaluator answers. */
  predicate Answerable(q: Question) {
    q.permission in q.k.catalog
  }

  predicate Check(q: Question, scope: Option<Scope>)
    requires Answerable(q)
  {
    ThrowsOnlyForUnknown(q.k, q.actor, q.permission, Resource(q.org, scope), q.roles, q.grants);
    Allowed(q.k, q.actor, q.permission, Resource(q.org, scope), q.roles, q.grants).value
  }

  function QueueScopes(ids: seq<string>): seq<Scope> {
    if |ids| == 0 then [] else QueueScopes(ids[..|ids| - 1]) + [Scope(QueueScope, ids[|ids| - 1])]
  }

  function ScopesOfExtension(q: Question, leg: Leg): seq<Scope> {
    if leg.ext.None? then []
    else
      match q.extensionOf(leg.ext.value)
      case Unavailable => []
      case NoExtension => []
      case Extension(id, queues) => [Scope(ExtensionScope, id)] + if leg.uuid == q.target then QueueScopes(queues) else []
  }

  function QueueOnNode(q: Question, leg: Leg): Option<string> {
    if q.queueOf(leg.uuid).InQueue? then q.queueOf(leg.uuid).queue else None
  }

  function ScopesOfQueues(q: Question, leg: Leg): seq<Scope> {
    (if leg.queue.Some? then [Scope(QueueScope, leg.queue.value)] else [])
    + (if QueueOnNode(q, leg).Some? then [Scope(QueueScope, QueueOnNode(q, leg).value)] else [])
  }

  function ExtensionScopes(q: Question, legs: seq<Leg>): seq<Scope> {
    if |legs| == 0 then [] else ExtensionScopes(q, legs[..|legs| - 1]) + ScopesOfExtension(q, legs[|legs| - 1])
  }

  function LegQueueScopes(q: Question, legs: seq<Leg>): seq<Scope> {
    if |legs| == 0 then [] else LegQueueScopes(q, legs[..|legs| - 1]) + ScopesOfQueues(q, legs[|legs| - 1])
  }

  /** Everything the full search would try. */
  function AllScopes(q: Question): seq<Scope> {
    ExtensionScopes(q, q.legs) + LegQueueScopes(q, q.legs)
  }

  predicate Fails(q: Question, leg: Leg) {
    leg.ext.Some? && q.extensionOf(leg.ext.value).Unavailable?
  }

  /** An extension cannot be looked up. */
  predicate LookupFails(q: Question) {
    exists leg <- q.legs :: Fails(q, leg)
  }

  /** The media node cannot be asked about a leg. */
  predicate NodeFails(q: Question, legs: seq<Leg>) {
    exists leg <- legs :: q.queueOf(leg.uuid).NoAnswer?
  }

  /** The test behind the early exit: a grant names the very permission on an extension or a queue. */
  predicate NamedOnSomething(q: Question) {
    exists g <- q.grants :: g.scope.typ in {ExtensionScope, QueueScope} && g.permission == q.permission
  }

  /** The answer without the early exit. */
  predicate MayByFullSearch(q: Question)
    requires Answerable(q)
  {
    Check(q, None) || exists scope <- AllScopes(q) :: Check(q, Some(scope))
  }

  lemma {:induction false} QueueScopesAreQueues(ids: seq<string>)
    ensures forall s <- QueueScopes(ids) :: s.typ == QueueScope
  {
    if |ids| > 0 {
      QueueScopesAreQueues(ids[..|ids| - 1]);
    }
  }

  lemma {:induction false} ScopesAreOnSomething(q: Question, legs: seq<Leg>)
    ensures forall s <- ExtensionScopes(q, legs) :: s.typ in {ExtensionScope, QueueScope}
    ensures forall s <- LegQueueScopes(q, legs) :: s.typ in {ExtensionScope, QueueScope}
  {
    if |legs| > 0 {
      ScopesAreOnSomething(q, legs[..|legs| - 1]);
      var leg := legs[|legs| - 1];
      if leg.ext.Some? && q.extensionOf(leg.ext.value).Extension? {
        QueueScopesAreQueues(q.extensionOf(leg.ext.value).agentQueueIds);
      }
    }
  }

  /** Nothing but the permission itself gives it. */
  ghost predicate HasNoTwin(t: Twins, p: Permission) {
    forall held: Permission :: Implies(t, held, p) ==> held == p
  }

  /** A scope allowed where the org is not is allowed by a grant on that very scope. */
  lemma {:induction false} ScopeNeedsItsGrant(q: Question, scope: Scope)
    requires Answerable(q) && Check(q, Some(scope)) && !Check(q, None)
    ensures exists g <- q.grants :: Implies(q.k.twins, g.permission, q.permission) && PrincipalMatches(q.actor, g) && g.scope == scope
  {
    var r := Resource(q.org, Some(scope));
    var g :| g in q.grants && Implies(q.k.twins, g.permission, q.permission) && PrincipalMatches(q.actor, g) && ScopeMatches(g, r);
    if g.scope != scope {
      assert ScopeMatches(g, Resource(q.org, None));
    }
  }

  /** The early exit is exact for a permission nothing else implies: when it is taken, the full search would refuse too. */
  lemma {:induction false} EarlyExitIsExact(q: Question)
    requires Answerable(q) && HasNoTwin(q.k.twins, q.permission)
    requires !Check(q, None) && !NamedOnSomething(q)
    ensures !MayByFullSearch(q)
  {
    if scope :| scope in AllScopes(q) && Check(q, Some(scope)) {
      ScopesAreOnSomething(q, q.legs);
      ScopeNeedsItsGrant(q, scope);
    }
  }

  /** The question of a master's user who holds one grant, of `held` on queue "q", about a call in that queue. */
  function OneGrantQuestion(k: Tables, held: Permission, wanted: Permission): Question {
    var actor := Actor("u", User, Org("m", Master, None), []);
    Question(k, actor, wanted, Org("t", Tenant, None), map[], [Grant(ForUser, "u", held, Scope(QueueScope, "q"))],
             "leg", [Leg("leg", None, Some("q"))], (number: string) => NoExtension, (uuid: string) => InQueue(None))
  }

  /** For a permission that another implies, it is not exact: a grant of the other is missed. */
  lemma {:induction false} EarlyExitMissesTwins(k: Tables, held: Permission, wanted: Permission)
    requires Implies(k.twins, held, wanted) && held != wanted && wanted in k.catalog
    ensures var q := OneGrantQuestion(k, held, wanted);
            Answerable(q) && !Check(q, None) && !NamedOnSomething(q) && MayByFullSearch(q)
  {
    var q := OneGrantQuestion(k, held, wanted);
    var scope := Scope(QueueScope, "q");
    assert ExtensionScopes(q, q.legs[..0]) == [] && LegQueueScopes(q, q.legs[..0]) == [];
    assert q.legs[..0] == [];
    assert AllScopes(q) == [scope];
    assert ScopeMatches(q.grants[0], Resource(q.org, Some(scope)));
    assert GrantMatches(k, q.actor, wanted, Resource(q.org, Some(scope)), q.grants);
  }

  /** So the early exit agrees with the full search on every question about a permission, exactly when nothing else implies it. */
  lemma {:induction false} EarlyExitIsExactIffNoTwin(k: Tables, p: Permission)
    requires p in k.catalog
    ensures HasNoTwin(k.twins, p) <==>
            forall q: Question :: q.k == k && q.permission == p && !Check(q, None) && !NamedOnSomething(q) ==> !MayByFullSearch(q)
  {
    if HasNoTwin(k.twins, p) {
      forall q: Question | q.k == k && q.permission == p && !Check(q, None) && !NamedOnSomething(q)
        ensures !MayByFullSearch(q)
      {
        EarlyExitIsExact(q);
      }
    } else {
      var held :| Implies(k.twins, held, p) && held != p;
      EarlyExitMissesTwins(k, held, p);
    }
  }

  /** The permissions `monitor` asks for. */
  lemma {:induction false} MonitorsEarlyExitIsExact(q: Question)
    requires Answerable(q) && q.k.twins == READ_TWINS && q.permission in {"monitor.listen", "monitor.whisper", "monitor.barge"}
    requires !Check(q, None) && !NamedOnSomething(q)
    ensures !MayByFullSearch(q)
  {
    MonitoringHasNoTwin(q.permission);
    EarlyExitIsExact(q);
  }

  // ---------- The search ----------

  method PushQueues(scopes: seq<Scope>, ids: seq<string>) returns (out: seq<Scope>)
    ensures out == scopes + QueueScopes(ids)
  {
    out := scopes;
    for k := 0 to |ids|
      invariant out == scopes + QueueScopes(ids[..k])
    {
      assert ids[..k + 1][..k] == ids[..k];
      out := out + [Scope(QueueScope, ids[k])];
    }
    assert ids[..|ids|] == ids;
  }

  method ExtensionScopesOf(q: Question, leg: Leg) returns (r: Result<seq<Scope>, ()>)
    ensures r.Err? <==> Fails(q, leg)
    ensures r.Ok? ==> r.value == ScopesOfExtension(q, leg)
  {
    if leg.ext.None? {
      return Ok([]);
    }
    var found := q.extensionOf(leg.ext.value);
    match found
    case Unavailable => return Err(());
    case NoExtension => return Ok([]);
    case Extension(id, queues) =>
      var scopes := [Scope(ExtensionScope, id)];
      if leg.uuid == q.target {
        scopes := PushQueues(scopes, queues);
      }
      return Ok(scopes);
  }

  /** The scopes of the legs' extensions, or nothing when a lookup fails on the way. */
  function Collected(q: Question, legs: seq<Leg>): (r: Option<seq<Scope>>)
    ensures r.Some? <==> forall leg <- legs :: !Fails(q, leg)
    ensures r.Some? ==> r.value == ExtensionScopes(q, legs)
  {
    if |legs| == 0 then Some([])
    else
      var n := |legs| - 1;
      assert legs == legs[..n] + [legs[n]];
      var before := Collected(q, legs[..n]);
      if before.None? || Fails(q, legs[n]) then None else Some(before.value + ScopesOfExtension(q, legs[n]))
  }

  /** Over the legs' extensions; a lookup that fails ends it. */
  method CollectExtensions(q: Question) returns (r: Option<seq<Scope>>)
    ensures r == Collected(q, q.legs)
  {
    r := Some([]);
    var k := 0;
    while k < |q.legs| && r.Some?
      invariant 0 <= k <= |q.legs|
      invariant r == Collected(q, q.legs[..k])
    {
      assert q.legs[..k + 1][..k] == q.legs[..k];
      var more := ExtensionScopesOf(q, q.legs[k]);
      r := if more.Ok? then Some(r.value + more.value) else None;
      k := k + 1;
    }
    if r.None? {
      FailureStays(q, q.legs, k);
    } else {
      assert q.legs[..k] == q.legs;
    }
  }

  lemma {:induction false} FailureStays(q: Question, legs: seq<Leg>, k: nat)
    requires k <= |legs| && Collected(q, legs[..k]).None?
    ensures Collected(q, legs).None?
  {
    var leg :| leg in legs[..k] && Fails(q, leg);
    assert leg in legs;
  }

  /** Over the legs' queues, in the registry and on the node; a leg the node does not answer for ends it. */
  method CollectQueues(q: Question) returns (r: Option<seq<Scope>>)
    ensures r.None? <==> NodeFails(q, q.legs)
    ensures r.Some? ==> r.value == LegQueueScopes(q, q.legs)
  {
    r := Some([]);
    var k := 0;
    while k < |q.legs| && r.Some?
      invariant 0 <= k <= |q.legs|
      invariant r.None? <==> NodeFails(q, q.legs[..k])
      invariant r.Some? ==> r.value == LegQueueScopes(q, q.legs[..k])
    {
      NodeFailsNext(q, q.legs, k);
      assert q.legs[..k + 1][..k] == q.legs[..k];
      var ofLeg: seq<Scope> := [];
      if q.legs[k].queue.Some? {
        ofLeg := [Scope(QueueScope, q.legs[k].queue.value)];
      }
      var answer := q.queueOf(q.legs[k].uuid);
      if answer.InQueue? && answer.queue.Some? {
        ofLeg := ofLeg + [Scope(QueueScope, answer.queue.value)];
      }
      r := if answer.NoAnswer? then None else Some(r.value + ofLeg);
      k := k + 1;
    }
    if r.Some? {
      assert q.legs[..k] == q.legs;
    } else {
      NodeFailureStays(q, q.legs, k);
    }
  }

  lemma {:induction false} NodeFailsNext(q: Question, legs: seq<Leg>, k: nat)
    requires k < |legs|
    ensures NodeFails(q, legs[..k + 1]) <==> NodeFails(q, legs[..k]) || q.queueOf(legs[k].uuid).NoAnswer?
  {
    assert legs[..k + 1] == legs[..k] + [legs[k]];
    assert legs[k] in legs[..k + 1];
  }

  lemma {:induction false} NodeFailureStays(q: Question, legs: seq<Leg>, k: nat)
    requires k <= |legs| && NodeFails(q, legs[..k])
    ensures NodeFails(q, legs)
  {
    var leg :| leg in legs[..k] && q.queueOf(leg.uuid).NoAnswer?;
    assert leg in legs;
  }

  /**
   Answers what the full search would, with no lookup when the early exit settles it, for a permission
   that nothing else implies; a lookup that fails, at any place, is reported, not answered. `resolved`
   says whether what the person holds could be found out.
   */
  method MayMonitor(q: Question, resolved: bool) returns (r: Result<bool, Problem>)
    requires Answerable(q)
    ensures r == Err(PermissionsUnavailable) <==> !resolved
    ensures resolved && Check(q, None) ==> r == Ok(true)
    ensures resolved && !Check(q, None) && !NamedOnSomething(q) ==> r == Ok(false)
    ensures r == Err(MonitorUnavailable) <==> resolved && !Check(q, None) && NamedOnSomething(q) && LookupFails(q)
    ensures r == Err(MediaUnavailable) <==>
              resolved && !Check(q, None) && NamedOnSomething(q) && !LookupFails(q) && NodeFails(q, q.legs)
    ensures r.Ok? && (HasNoTwin(q.k.twins, q.permission) || NamedOnSomething(q)) ==> r.value == MayByFullSearch(q)
  {
    if !resolved {
      return Err(PermissionsUnavailable);
    }
    if Check(q, None) {
      return Ok(true);
    }
    if !NamedOnSomething(q) {
      if HasNoTwin(q.k.twins, q.permission) {
        EarlyExitIsExact(q);
      }
      return Ok(false);
    }
    var extensions := CollectExtensions(q);
    if extensions.None? {
      return Err(MonitorUnavailable);
    }
    var queues := CollectQueues(q);
    if queues.None? {
      return Err(MediaUnavailable);
    }
    var scopes := extensions.value + queues.value;
    r := Ok(exists scope <- scopes :: Check(q, Some(scope)));
  }
}
