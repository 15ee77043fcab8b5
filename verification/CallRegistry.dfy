/**
 The live-call registry: one hash per call, and sets that index calls by node and by tenant. A hash may
 expire on its own and leave its index entries behind.
 */
module CallRegistry {
  import opened Wrappers

  type Uuid = string
  type NodeId = string
  type TenantId = string

  /** A call's hash; `startedAt` is absent when it is not a number. */
  datatype Record = Record(node: NodeId, tenant: Option<TenantId>, startedAt: Option<int>, fields: map<string, string>)

  datatype Registry = Registry(records: map<Uuid, Record>, byNode: map<NodeId, set<Uuid>>, byTenant: map<TenantId, set<Uuid>>)

  function Members(index: map<string, set<Uuid>>, key: string): set<Uuid> {
    if key in index then index[key] else {}
  }

  function WithMember(index: map<string, set<Uuid>>, key: string, u: Uuid): map<string, set<Uuid>> {
    index[key := Members(index, key) + {u}]
  }

  function WithoutMember(index: map<string, set<Uuid>>, key: string, u: Uuid): map<string, set<Uuid>> {
    index[key := Members(index, key) - {u}]
  }

  /** `callsForNode`: what the node's index holds, expired or not. */
  function CallsOf(r: Registry, node: NodeId): set<Uuid> {
    Members(r.byNode, node)
  }

  /** `createCall`. */
  function Created(r: Registry, u: Uuid, c: Record): Registry {
    Registry(r.records[u := c], WithMember(r.byNode, c.node, u),
             if c.tenant.Some? then WithMember(r.byTenant, c.tenant.value, u) else r.byTenant)
  }

  /** `updateCall`: a call that is gone stays gone. */
  function Updated(r: Registry, u: Uuid, fields: map<string, string>): Registry {
    if u in r.records then r.(records := r.records[u := r.records[u].(fields := r.records[u].fields + fields)]) else r
  }

  /** `endCall`. */
  function Ended(r: Registry, u: Uuid, node: NodeId, tenant: Option<TenantId>): Registry {
    Registry(r.records - {u}, WithoutMember(r.byNode, node, u),
             if tenant.Some? then WithoutMember(r.byTenant, tenant.value, u) else r.byTenant)
  }

  /** `tenantOf`. */
  function TenantOf(r: Registry, u: Uuid): Option<TenantId> {
    if u in r.records then r.records[u].tenant else None
  }

  datatype Event =
    | Hungup(callUuid: Uuid, node: NodeId, tenant: Option<TenantId>)
    | CallLost(callUuid: Uuid, node: NodeId, tenant: Option<TenantId>)

  /** The two stores a call's end writes to: the registry, and the outbox of the service's database. */
  datatype World = World(registry: Registry, outbox: seq<Event>)

  /** A set listed in some order, once each. */
  ghost predicate Lists(members: seq<Uuid>, s: set<Uuid>) {
    && (forall u :: u in members <==> u in s)
    && (forall i, j :: 0 <= i < j < |members| ==> members[i] != members[j])
  }

  method SMembers(s: set<Uuid>) returns (members: seq<Uuid>)
    ensures Lists(members, s)
  {
    members := [];
    var rest := s;
    while rest != {}
      invariant rest <= s && Lists(members, s - rest)
      decreases |rest|
    {
      var u :| u in rest;
      members := members + [u];
      rest := rest - {u};
    }
    assert s - rest == s;
  }
}
