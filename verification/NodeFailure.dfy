/** One replica's watcher: the sweep of a dead node, shown to be a run of the protocol, and the pass that finds dead nodes. */
module NodeFailure {
  import opened Wrappers
  import opened CallRegistry
  import opened NodeFailureProtocol
  import RedisStore

  /** One call of a sweep: announced, if it still has a record, and removed. */
  function Handled(w: World, node: NodeId, u: Uuid): World {
    if u in w.registry.records then
      var tenant := w.registry.records[u].tenant;
      World(Ended(w.registry, u, node, tenant), w.outbox + [CallLost(u, node, tenant)])
    else w.(registry := Ended(w.registry, u, node, None))
  }

  function Forgotten(w: World, node: NodeId): World {
    w.(registry := w.registry.(byNode := w.registry.byNode - {node}))
  }

  /** A whole sweep over the listed calls. */
  function AllHandled(w: World, node: NodeId, members: seq<Uuid>): World
    decreases |members|
  {
    if |members| == 0 then Forgotten(w, node) else AllHandled(Handled(w, node, members[0]), node, members[1..])
  }

  lemma {:induction false} OneCallIsARun(node: NodeId, ttl: nat, s: State, t: State, replica: Replica, rest: seq<Uuid>) returns (r: State)
    requires Reaches(FREE, node, ttl, s, t) && |rest| > 0 && replica in t.work && t.work[replica] == Sweeping(rest, Unread)
    ensures Reaches(FREE, node, ttl, s, r)
    ensures r == t.(world := Handled(t.world, node, rest[0]), work := t.work[replica := Sweeping(rest[1..], Unread)])
  {
    r := MovesFurther(FREE, node, ttl, s, t, replica, Look);
    if rest[0] in t.world.registry.records {
      r := MovesFurther(FREE, node, ttl, s, r, replica, Announce);
    }
    r := MovesFurther(FREE, node, ttl, s, r, replica, Remove);
    assert r.work == t.work[replica := Sweeping(rest[1..], Unread)];
  }

  /** From wherever a replica has listed the calls, its sweep can run to the end, and does what `AllHandled` says. */
  lemma {:induction false} SweepIsARun(node: NodeId, ttl: nat, s: State, t: State, replica: Replica, rest: seq<Uuid>) returns (r: State)
    requires Reaches(FREE, node, ttl, s, t) && replica in t.work && t.work[replica] == Sweeping(rest, Unread)
    ensures Reaches(FREE, node, ttl, s, r)
    ensures r == t.(world := AllHandled(t.world, node, rest), work := t.work - {replica})
    decreases |rest|
  {
    if |rest| == 0 {
      r := MovesFurther(FREE, node, ttl, s, t, replica, Forget);
    } else {
      var next := OneCallIsARun(node, ttl, s, t, replica, rest);
      r := SweepIsARun(node, ttl, s, next, replica, rest[1..]);
      assert next.work - {replica} == t.work - {replica};
    }
  }

  lemma {:induction false} SetIsListed(s: set<Uuid>) returns (members: seq<Uuid>)
    ensures Lists(members, s)
  {
    if s == {} {
      members := [];
    } else {
      var u :| u in s;
      var rest := SetIsListed(s - {u});
      members := [u] + rest;
    }
  }

  lemma {:induction false} SweptIsForgotten(w: World, node: NodeId, members: seq<Uuid>)
    ensures CallsOf(AllHandled(w, node, members).registry, node) == {}
    decreases |members|
  {
    if |members| > 0 {
      SweptIsForgotten(Handled(w, node, members[0]), node, members[1..]);
    }
  }

  /** Nothing of the node is left, and each of its calls was announced or had expired. */
  ghost predicate Finished(node: NodeId, calls: set<Uuid>, s: State) {
    && CallsOf(s.world.registry, node) == {}
    && forall u :: u in calls ==> u !in s.world.registry.records && (u in LostIn(s.world.outbox) || u in s.expired)
  }

  /** The replica drops what it was at, waits any claim out, takes the death over and sweeps to the end. */
  lemma {:induction false} CanFinish(node: NodeId, ttl: nat, calls: set<Uuid>, s: State, replica: Replica) returns (t: State)
    requires Inv(node, calls, s)
    ensures Reaches(FREE, node, ttl, s, t) && Finished(node, calls, t)
  {
    ReachesItself(FREE, node, ttl, s);
    t := s;
    if replica in t.work {
      t := MovesFurther(FREE, node, ttl, s, t, replica, Fail);
    }
    var free := if t.claim.Some? && t.clock < t.claim.value.until then t.claim.value.until else t.clock;
    ReachesFurther(FREE, node, ttl, s, t, Tick(free));
    t := Next(node, ttl, t, Tick(free));
    t := MovesFurther(FREE, node, ttl, s, t, replica, Take);
    var members := SetIsListed(CallsOf(t.world.registry, node));
    t := MovesFurther(FREE, node, ttl, s, t, replica, List(members));
    SweptIsForgotten(t.world, node, members);
    t := SweepIsARun(node, ttl, s, t, replica, members);
    var steps :| Runs(node, ttl, s, steps) && RunFollows(FREE, node, ttl, s, steps) && After(node, ttl, s, steps) == t;
    RunKeepsInv(node, ttl, calls, s, steps);
  }

  /** However far things got, and whoever crashed: any replica can still finish the dead node off. */
  lemma {:induction false} DeathCanAlwaysBeHandled(node: NodeId, ttl: nat, world: World, steps: seq<Step>, replica: Replica)
    requires Runs(node, ttl, Start(world), steps)
    ensures exists t :: Reaches(FREE, node, ttl, After(node, ttl, Start(world), steps), t)
                        && Finished(node, LiveCalls(world.registry, node), t)
  {
    StartKeepsInv(node, world);
    RunKeepsInv(node, ttl, LiveCalls(world.registry, node), Start(world), steps);
    var _ := CanFinish(node, ttl, LiveCalls(world.registry, node), After(node, ttl, Start(world), steps), replica);
  }

  // ---------- What a pass leaves ----------

  /** The call is in the index of one of these nodes. */
  ghost predicate OnAny(r: Registry, nodes: seq<NodeId>, u: Uuid) {
    exists node :: node in nodes && u in CallsOf(r, node)
  }

  /** One call, before and after: swept, so announced once if it had a record, or untouched. */
  ghost predicate CallSwept(was: World, now: World, swept: bool, u: Uuid) {
    if swept then
      && u !in now.registry.records
      && TimesLost(now.outbox, u) == TimesLost(was.outbox, u) + if u in was.registry.records then 1 else 0
    else
      && (u in now.registry.records <==> u in was.registry.records)
      && (u in was.registry.records ==> now.registry.records[u] == was.registry.records[u])
      && TimesLost(now.outbox, u) == TimesLost(was.outbox, u)
  }

  lemma {:induction false} OneHandled(w: World, node: NodeId, u: Uuid, v: Uuid)
    ensures CallSwept(w, Handled(w, node, u), v == u, v)
  {
    if u in w.registry.records {
      TimesGrow(w.outbox, CallLost(u, node, w.registry.records[u].tenant), v);
    }
  }

  lemma {:induction false} ListHandled(w: World, node: NodeId, members: seq<Uuid>, u: Uuid)
    ensures CallSwept(w, AllHandled(w, node, members), u in members, u)
    decreases |members|
  {
    if |members| > 0 {
      OneHandled(w, node, members[0], u);
      ListHandled(Handled(w, node, members[0]), node, members[1..], u);
    }
  }

  lemma {:induction false} OtherIndexStays(w: World, node: NodeId, members: seq<Uuid>, other: NodeId)
    requires other != node
    ensures CallsOf(AllHandled(w, node, members).registry, other) == CallsOf(w.registry, other)
    decreases |members|
  {
    if |members| > 0 {
      OtherIndexStays(Handled(w, node, members[0]), node, members[1..], other);
    }
  }

  /** These nodes' calls are gone, each announced once; all others are as they were. */
  ghost predicate Swept(was: World, now: World, nodes: seq<NodeId>) {
    && (forall node :: CallsOf(now.registry, node) == if node in nodes then {} else CallsOf(was.registry, node))
    && (forall u :: CallSwept(was, now, OnAny(was.registry, nodes, u), u))
  }

  lemma {:induction false} NothingSwept(w: World)
    ensures Swept(w, w, [])
  {
  }

  lemma {:induction false} OneMoreSwept(was: World, now: World, nodes: seq<NodeId>, node: NodeId, members: seq<Uuid>)
    requires Swept(was, now, nodes) && node !in nodes && Lists(members, CallsOf(now.registry, node))
    ensures Swept(was, AllHandled(now, node, members), nodes + [node])
  {
    var after := AllHandled(now, node, members);
    SweptIsForgotten(now, node, members);
    forall other | other != node
      ensures CallsOf(after.registry, other) == CallsOf(now.registry, other)
    {
      OtherIndexStays(now, node, members, other);
    }
    forall u
      ensures CallSwept(was, after, OnAny(was.registry, nodes + [node], u), u)
    {
      ListHandled(now, node, members, u);
      OnAnyMore(was.registry, nodes, node, u);
      assert CallSwept(was, now, OnAny(was.registry, nodes, u), u);
    }
  }

  lemma {:induction false} OnAnyMore(r: Registry, nodes: seq<NodeId>, node: NodeId, u: Uuid)
    ensures OnAny(r, nodes + [node], u) <==> OnAny(r, nodes, u) || u in CallsOf(r, node)
  {
    if OnAny(r, nodes, u) {
      var other :| other in nodes && u in CallsOf(r, other);
      assert other in nodes + [node];
    }
    if u in CallsOf(r, node) {
      assert node in nodes + [node];
    }
  }

  /** The claims of these nodes are the replica's, the others are as they were. */
  ghost predicate ClaimsTaken(was: map<NodeId, RedisStore.Entry>, now: map<NodeId, RedisStore.Entry>, nodes: seq<NodeId>,
                              replica: Replica, clock: int) {
    && (forall node :: node in nodes ==> RedisStore.HeldBy(now, node, replica, clock))
    && (forall node :: node !in nodes ==> (node in now <==> node in was) && (node in now ==> now[node] == was[node]))
  }

  class Stores {
    var world: World
    var claims: map<NodeId, RedisStore.Entry>    // `nodelost:{id}`
    var clock: int

    constructor (world: World, now: int)
      ensures this.world == world && claims == map[] && clock == now
    {
      this.world, claims, clock := world, map[], now;
    }

    method ClaimNodeLoss(node: NodeId, replica: Replica, ttl: nat) returns (ok: bool)
      modifies this`claims
      ensures ok == !RedisStore.Live(old(claims), node, clock)
      ensures claims == RedisStore.SetIfFree(old(claims), node, replica, ttl, clock)
    {
      ok := node !in claims || claims[node].expiresAt <= clock;
      if ok {
        claims := claims[node := RedisStore.Entry(replica, clock + ttl)];
      }
    }
  }

  class NodeFailureWatcher {
    const stores: Stores
    const replicaId: Replica
    const claimTtlMs: nat
    const startedAt: int
    const startupGraceMs: nat

    constructor (stores: Stores, replicaId: Replica, claimTtlMs: nat, startupGraceMs: nat)
      ensures this.stores == stores && this.replicaId == replicaId && this.claimTtlMs == claimTtlMs
      ensures startedAt == stores.clock && this.startupGraceMs == startupGraceMs
    {
      this.stores, this.replicaId, this.claimTtlMs := stores, replicaId, claimTtlMs;
      this.startedAt, this.startupGraceMs := stores.clock, startupGraceMs;
    }

    /** `handle`, undisturbed: `members` is the order the index was listed in. */
    method Handle(node: NodeId) returns (lost: nat, ghost members: seq<Uuid>)
      modifies stores`world
      ensures Lists(members, CallsOf(old(stores.world).registry, node))
      ensures stores.world == AllHandled(old(stores.world), node, members)
      ensures lost == |stores.world.outbox| - |old(stores.world).outbox|
    {
      ghost var before := stores.world;
      var listed := SMembers(CallsOf(stores.world.registry, node));
      lost := 0;
      for k := 0 to |listed|
        invariant AllHandled(stores.world, node, listed[k..]) == AllHandled(before, node, listed)
        invariant lost == |stores.world.outbox| - |before.outbox|
      {
        var u := listed[k];
        assert listed[k..][1..] == listed[k + 1..];
        var r := stores.world.registry;
        if u in r.records {
          var tenant := r.records[u].tenant;
          stores.world := stores.world.(outbox := stores.world.outbox + [CallLost(u, node, tenant)]);
          stores.world := stores.world.(registry := Ended(r, u, node, tenant));
          lost := lost + 1;
        } else {
          stores.world := stores.world.(registry := Ended(r, u, node, None));
        }
      }
      stores.world := Forgotten(stores.world, node);
      members := listed;
    }

    /** A node the pass takes for dead and may claim. */
    ghost predicate Due(node: NodeId, connected: set<NodeId>, alive: set<NodeId>, claims: map<NodeId, RedisStore.Entry>)
      reads stores`clock
    {
      node !in connected && node !in alive && !RedisStore.Live(claims, node, stores.clock)
    }

    /** The claim and the sweep of one node that is neither connected nor alive. */
    method TakeOver(node: NodeId, ghost was: World, ghost claimed: map<NodeId, RedisStore.Entry>, ghost handled: seq<NodeId>) returns (ok: bool)
      requires claimTtlMs > 0
      requires ClaimsTaken(claimed, stores.claims, handled, replicaId, stores.clock) && Swept(was, stores.world, handled)
      modifies stores`world, stores`claims
      ensures ok <==> node !in handled && !RedisStore.Live(claimed, node, stores.clock)
      ensures var all := if ok then handled + [node] else handled;
              ClaimsTaken(claimed, stores.claims, all, replicaId, stores.clock) && Swept(was, stores.world, all)
    {
      ok := stores.ClaimNodeLoss(node, replicaId, claimTtlMs);
      if ok {
        ghost var before := stores.world;
        var _, members := Handle(node);
        OneMoreSwept(was, before, handled, node, members);
      }
    }

    /** Handles, of the nodes that ever sent a heartbeat, exactly those due, each once; none in the startup grace. */
    method RunOnce(known: seq<NodeId>, connected: set<NodeId>, alive: set<NodeId>) returns (handled: seq<NodeId>)
      requires claimTtlMs > 0
      modifies stores`world, stores`claims
      ensures stores.clock - startedAt < startupGraceMs ==> handled == [] && stores.world == old(stores.world) && stores.claims == old(stores.claims)
      ensures stores.clock - startedAt >= startupGraceMs ==>
                forall node :: node in handled <==> node in known && Due(node, connected, alive, old(stores.claims))
      ensures forall i, j :: 0 <= i < j < |handled| ==> handled[i] != handled[j]
      ensures forall node :: node in handled ==> RedisStore.HeldBy(stores.claims, node, replicaId, stores.clock)
      ensures forall node :: node in connected || node in alive ==> node !in handled
      ensures Swept(old(stores.world), stores.world, handled)
    {
      handled := [];
      NothingSwept(stores.world);
      if stores.clock - startedAt < startupGraceMs {
        return;
      }
      for k := 0 to |known|
        invariant forall node :: node in handled <==> node in known[..k] && Due(node, connected, alive, old(stores.claims))
        invariant ClaimsTaken(old(stores.claims), stores.claims, handled, replicaId, stores.clock)
        invariant forall i, j :: 0 <= i < j < |handled| ==> handled[i] != handled[j]
        invariant Swept(old(stores.world), stores.world, handled)
      {
        var node := known[k];
        assert known[..k + 1] == known[..k] + [node];
        if node in connected || node in alive {
          continue;
        }
        var ok := TakeOver(node, old(stores.world), old(stores.claims), handled);
        if !ok {
          continue;
        }
        handled := handled + [node];
      }
      assert known[..|known|] == known;
    }
  }
}
