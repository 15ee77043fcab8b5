/**
 The authorization decision: hard rules, org ancestry, roles and grants, with the read twins that some
 permissions imply. The tables are parameters, so what is proved holds of any; the platform's own twins
 are checked at the end.
 */
module Authz {
  import opened Wrappers

  type Permission = string

  datatype DataClass = ConfigData | PrivateData | UsageData | SecretData

  datatype OrgType = Master | Reseller | Tenant

  datatype ActorType = User | ApiKey | Service | Node

  datatype Org = Org(id: string, typ: OrgType, resellerId: Option<string>)

  datatype Actor = Actor(id: string, typ: ActorType, org: Org, roleIds: seq<string>)

  datatype ScopeType = OrgScope | ExtensionScope | ExtensionGroupScope | QueueScope | MailboxScope | DidScope

  datatype Scope = Scope(typ: ScopeType, id: string)

  /** With no scope the resource is the org itself. */
  datatype Resource = Resource(org: Org, scope: Option<Scope>)

  datatype PrincipalType = ForUser | ForRole

  datatype Grant = Grant(principalType: PrincipalType, principalId: string, permission: Permission, scope: Scope)

  type Roles = map<string, set<Permission>>

  type Twins = map<Permission, Permission>

  /** The permission catalog with its data classes, the read twins, and the two lists the hard rules name. */
  datatype Tables = Tables(catalog: map<Permission, DataClass>, twins: Twins,
                           apiKeyRestricted: set<Permission>, resellerLifecycle: set<Permission>)

  // ---------- Twins ----------

  predicate Implies(t: Twins, held: Permission, wanted: Permission) {
    held == wanted || (held in t && t[held] == wanted)
  }

  /** Every permission whose holder holds `wanted`. */
  function Granting(t: Twins, wanted: Permission): set<Permission> {
    {wanted} + (set p <- t | t[p] == wanted)
  }

  /** `holdsPermission`. */
  predicate Holds(t: Twins, held: set<Permission>, wanted: Permission) {
    exists p <- Granting(t, wanted) :: p in held
  }

  /** `held` and what it implies. */
  function Expanded(t: Twins, held: set<Permission>): set<Permission> {
    held + (set p | p in held && p in t :: t[p])
  }

  method ExpandPermissions(t: Twins, held: seq<Permission>) returns (out: set<Permission>)
    ensures out == Expanded(t, (set p <- held))
    ensures forall wanted: Permission :: wanted in out <==> Holds(t, (set p <- held), wanted)
  {
    out := {};
    for k := 0 to |held|
      invariant forall q :: q in out <==> exists i :: 0 <= i < k && (q == held[i] || (held[i] in t && t[held[i]] == q))
    {
      out := out + {held[k]};
      if held[k] in t {
        out := out + {t[held[k]]};
      }
    }
    ghost var all := set p <- held;
    assert forall q :: q in out <==> q in Expanded(t, all);
    forall wanted: Permission
      ensures wanted in out <==> Holds(t, all, wanted)
    {
      HoldsIsExpanded(t, all, wanted);
    }
  }

  /** The two ways to ask agree: a permission is held exactly when it is in the expanded set. */
  lemma {:induction false} HoldsIsExpanded(t: Twins, held: set<Permission>, wanted: Permission)
    ensures Holds(t, held, wanted) <==> wanted in Expanded(t, held)
  {
    if Holds(t, held, wanted) {
      var p :| p in Granting(t, wanted) && p in held;
    }
    if wanted in Expanded(t, held) && wanted !in held {
      var p :| p in held && p in t && t[p] == wanted;
      assert p in Granting(t, wanted);
    }
  }

  /** No twin has a twin of its own, other than itself or what it came from. */
  predicate TwinsStop(t: Twins) {
    forall p <- t :: t[p] in t ==> t[t[p]] in {p, t[p]}
  }

  /** Implying once is all there is: expanding again adds nothing, exactly when twins do not chain. */
  lemma {:induction false} ExpandingTwiceIsOnce(t: Twins)
    ensures TwinsStop(t) <==> forall held: set<Permission> :: Expanded(t, Expanded(t, held)) == Expanded(t, held)
  {
    if TwinsStop(t) {
      forall held: set<Permission>
        ensures Expanded(t, Expanded(t, held)) == Expanded(t, held)
      {
        var once := Expanded(t, held);
        forall p | p in once && p in t
          ensures t[p] in once
        {
          if p !in held {
            var q :| q in held && q in t && t[q] == p;
            assert t[t[q]] in {q, t[q]};
          }
        }
      }
    } else {
      var p :| p in t && t[p] in t && t[t[p]] !in {p, t[p]};
      var q := t[p];
      assert Expanded(t, {p}) == {p, q};
      assert t[q] in Expanded(t, {p, q});
      assert Expanded(t, Expanded(t, {p})) != Expanded(t, {p});
    }
  }

  // ---------- The rules ----------

  /** An actor may act on its own org, a reseller on its tenants, the master on all. */
  predicate OrgAncestry(actorOrg: Org, resourceOrg: Org) {
    if actorOrg.typ == Master then true
    else if actorOrg.id == resourceOrg.id then true
    else if actorOrg.typ == Reseller then resourceOrg.resellerId == Some(actorOrg.id)
    else false
  }

  datatype Error = UnknownPermission(permission: Permission)

  /** H1; the catalog is asked only when the orgs make it matter. */
  function H1PrivateDataWall(k: Tables, a: Actor, p: Permission, r: Resource): Result<bool, Error> {
    if a.org.typ != Reseller || r.org.typ != Tenant then Ok(true)
    else if p !in k.catalog then Err(UnknownPermission(p))
    else Ok(k.catalog[p] != PrivateData)
  }

  predicate H2TenantBoundary(a: Actor, r: Resource) {
    !(a.org.typ == Tenant && a.org.id != r.org.id)
  }

  predicate H3ResellerLifecycle(k: Tables, a: Actor, p: Permission) {
    !(p in k.resellerLifecycle && a.org.typ != Master)
  }

  predicate H4ApiKeyRestriction(k: Tables, a: Actor, p: Permission) {
    !(a.typ == ApiKey && p in k.apiKeyRestricted)
  }

  function HardRulesPass(k: Tables, a: Actor, p: Permission, r: Resource): Result<bool, Error> {
    match H1PrivateDataWall(k, a, p, r)
    case Err(e) => Err(e)
    case Ok(false) => Ok(false)
    case Ok(true) => Ok(H2TenantBoundary(a, r) && H3ResellerLifecycle(k, a, p) && H4ApiKeyRestriction(k, a, p))
  }

  predicate RoleHas(k: Tables, a: Actor, p: Permission, roles: Roles) {
    exists id <- a.roleIds :: id in roles && Holds(k.twins, roles[id], p)
  }

  predicate PrincipalMatches(a: Actor, g: Grant) {
    || (g.principalType == ForUser && g.principalId == a.id)
    || (g.principalType == ForRole && g.principalId in a.roleIds)
  }

  predicate ScopeMatches(g: Grant, r: Resource) {
    var scope := if r.scope.Some? then r.scope.value else Scope(OrgScope, r.org.id);
    (g.scope.typ == OrgScope && g.scope.id == r.org.id) || g.scope == scope
  }

  predicate GrantMatches(k: Tables, a: Actor, p: Permission, r: Resource, grants: seq<Grant>) {
    exists g <- grants :: Implies(k.twins, g.permission, p) && PrincipalMatches(a, g) && ScopeMatches(g, r)
  }

  function Allowed(k: Tables, a: Actor, p: Permission, r: Resource, roles: Roles, grants: seq<Grant>): Result<bool, Error> {
    match HardRulesPass(k, a, p, r)
    case Err(e) => Err(e)
    case Ok(false) => Ok(false)
    case Ok(true) =>
      if !OrgAncestry(a.org, r.org) then Ok(false) else Ok(RoleHas(k, a, p, roles) || GrantMatches(k, a, p, r, grants))
  }

  // ---------- What follows ----------

  /** The evaluator throws exactly for an unknown permission on a reseller's way to a tenant. */
  lemma {:induction false} ThrowsOnlyForUnknown(k: Tables, a: Actor, p: Permission, r: Resource, roles: Roles, grants: seq<Grant>)
    ensures Allowed(k, a, p, r, roles, grants).Err? <==> a.org.typ == Reseller && r.org.typ == Tenant && p !in k.catalog
  {
  }

  /** One catalog of roles holds at least what another does. */
  predicate RolesWithin(roles: Roles, more: Roles) {
    forall id <- roles :: id in more && roles[id] <= more[id]
  }

  /** More roles, wider roles and more grants never take an answer away. */
  lemma {:induction false} AllowedIsMonotone(k: Tables, a: Actor, p: Permission, r: Resource, roles: Roles, grants: seq<Grant>,
                                             b: Actor, moreRoles: Roles, moreGrants: seq<Grant>)
    requires b == a.(roleIds := b.roleIds) && (forall id <- a.roleIds :: id in b.roleIds)
    requires RolesWithin(roles, moreRoles) && forall g <- grants :: g in moreGrants
    requires Allowed(k, a, p, r, roles, grants) == Ok(true)
    ensures Allowed(k, b, p, r, moreRoles, moreGrants) == Ok(true)
  {
    if RoleHas(k, a, p, roles) {
      var id :| id in a.roleIds && id in roles && Holds(k.twins, roles[id], p);
      var q :| q in Granting(k.twins, p) && q in roles[id];
      assert Holds(k.twins, moreRoles[id], p);
    } else {
      var g :| g in grants && Implies(k.twins, g.permission, p) && PrincipalMatches(a, g) && ScopeMatches(g, r);
      assert g in moreGrants && PrincipalMatches(b, g);
    }
  }

  /** Holding a permission by role is holding one of the permissions that give it: expanding roles first changes nothing. */
  lemma {:induction false} ExpandedRolesAllowTheSame(k: Tables, a: Actor, p: Permission, r: Resource, roles: Roles, grants: seq<Grant>)
    requires TwinsStop(k.twins)
    ensures Allowed(k, a, p, r, (map id | id in roles :: Expanded(k.twins, roles[id])), grants) == Allowed(k, a, p, r, roles, grants)
  {
    ExpandingTwiceIsOnce(k.twins);
    var expanded := map id | id in roles :: Expanded(k.twins, roles[id]);
    forall id | id in roles
      ensures Holds(k.twins, expanded[id], p) <==> Holds(k.twins, roles[id], p)
    {
      HoldsIsExpanded(k.twins, roles[id], p);
      HoldsIsExpanded(k.twins, expanded[id], p);
      assert Expanded(k.twins, Expanded(k.twins, roles[id])) == Expanded(k.twins, roles[id]);
    }
    assert RoleHas(k, a, p, expanded) <==> RoleHas(k, a, p, roles);
  }

  // ---------- The platform's twins ----------

  const READ_TWINS: Twins := map[
    "reseller.manage" := "reseller.read",
    "tenant.manage" := "tenant.read",
    "domain.manage" := "domain.read",
    "brand.manage" := "brand.read",
    "user.manage" := "user.read",
    "role.manage" := "role.read",
    "grant.manage" := "grant.read",
    "extension.manage" := "extension.read",
    "did.manage" := "did.read",
    "emergency_location.manage" := "emergency_location.read",
    "emergency_route.manage" := "emergency_route.read",
    "group.manage" := "group.read",
    "queue.manage" := "queue.read",
    "queue.agent.manage" := "queue.read",
    "parking_lot.manage" := "parking_lot.read",
    "conference_room.manage" := "conference_room.read",
    "schedule.manage" := "schedule.read",
    "media.manage" := "media.read",
    "trunk.manage" := "trunk.read",
    "callflow.edit" := "callflow.read",
    "callflow.publish" := "callflow.read",
    "recording.policy.manage" := "recording.policy.read",
    "platform.operate" := "platform.observe"
  ]

  /** The last letter but one of "read" or "observe", and of none of the permissions that imply them. */
  predicate EndsLikeATwin(p: Permission) {
    |p| >= 2 && p[|p| - 2] in {'a', 'v'}
  }

  lemma {:induction false} PlatformTwinsAreReads(p: Permission)
    requires p in READ_TWINS
    ensures EndsLikeATwin(READ_TWINS[p])
  {
  }

  lemma {:induction false} PlatformManagersAreNot(p: Permission)
    requires p in READ_TWINS
    ensures !EndsLikeATwin(p)
  {
  }

  /** So no twin of the platform has a twin. */
  lemma {:induction false} PlatformTwinsStop()
    ensures TwinsStop(READ_TWINS)
  {
    forall p | p in READ_TWINS
      ensures READ_TWINS[p] !in READ_TWINS
    {
      PlatformTwinsAreReads(p);
      if READ_TWINS[p] in READ_TWINS {
        PlatformManagersAreNot(READ_TWINS[p]);
      }
    }
  }

  /** Nothing implies a permission to monitor calls. */
  lemma {:induction false} MonitoringHasNoTwin(p: Permission)
    requires p in {"monitor.listen", "monitor.whisper", "monitor.barge"}
    ensures forall held: Permission :: Implies(READ_TWINS, held, p) ==> held == p
  {
    assert !EndsLikeATwin(p);
    forall held: Permission | Implies(READ_TWINS, held, p)
      ensures held == p
    {
      if held in READ_TWINS {
        PlatformTwinsAreReads(held);
      }
    }
  }
}
