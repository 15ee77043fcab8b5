/**
 Bringing the registry in step with a media node: calls the node has and the registry lacks are added,
 calls the registry holds and the node no longer has are ended, each announced before it is removed.
 */
module RegistrySync {
  import opened Wrappers
  import opened CallRegistry

  /** What a channel's dump gives: nothing, or the record of a created call and the changes since. */
  datatype Dump = Unreadable | Readable(call: Record, changes: map<string, string>)

  type Dumps = Uuid -> Dump

  /** The listed channels; a row without an id is empty text. */
  function LiveIn(rows: seq<Uuid>): set<Uuid> {
    set u | u in rows && u != ""
  }

  // ---------- Rebuilding ----------

  /** The record a readable channel gets. */
  function RecordFor(node: NodeId, d: Dump): Record
    requires d.Readable?
  {
    Record(node, d.call.tenant, d.call.startedAt, d.call.fields + d.changes)
  }

  function RebuiltRow(r: Registry, node: NodeId, u: Uuid, dumps: Dumps): Registry {
    if u == "" || u in r.records || dumps(u).Unreadable? then r
    else Updated(Created(r, u, dumps(u).call.(node := node)), u, dumps(u).changes)
  }

  function Rebuilt(r: Registry, node: NodeId, rows: seq<Uuid>, dumps: Dumps): Registry {
    if |rows| == 0 then r
    else RebuiltRow(Rebuilt(r, node, rows[..|rows| - 1], dumps), node, rows[|rows| - 1], dumps)
  }

  /** A channel the rebuild records. */
  predicate IsAdded(r: Registry, rows: seq<Uuid>, dumps: Dumps, u: Uuid) {
    u in rows && u != "" && u !in r.records && dumps(u).Readable?
  }

  lemma {:induction false} RowRecord(r: Registry, node: NodeId, u: Uuid, dumps: Dumps)
    requires u != "" && u !in r.records && dumps(u).Readable?
    ensures RebuiltRow(r, node, u, dumps).records == r.records[u := RecordFor(node, dumps(u))]
    ensures RebuiltRow(r, node, u, dumps).byNode == WithMember(r.byNode, node, u)
  {
  }

  /** Exactly the readable channels without a record are added, each as its dump says; every record there already is untouched. */
  lemma {:induction false} RebuiltRecords(r: Registry, node: NodeId, rows: seq<Uuid>, dumps: Dumps, u: Uuid)
    ensures var t := Rebuilt(r, node, rows, dumps);
            && (u in t.records <==> u in r.records || IsAdded(r, rows, dumps, u))
            && (u in r.records ==> t.records[u] == r.records[u])
            && (IsAdded(r, rows, dumps, u) ==> t.records[u] == RecordFor(node, dumps(u)))
  {
    if |rows| > 0 {
      var n := |rows| - 1;
      assert rows == rows[..n] + [rows[n]];
      RebuiltRecords(r, node, rows[..n], dumps, u);
      var before := Rebuilt(r, node, rows[..n], dumps);
      if rows[n] != "" && rows[n] !in before.records && dumps(rows[n]).Readable? {
        RowRecord(before, node, rows[n], dumps);
      }
    }
  }

  lemma {:induction false} RebuiltIndex(r: Registry, node: NodeId, rows: seq<Uuid>, dumps: Dumps, other: NodeId, u: Uuid)
    ensures u in CallsOf(Rebuilt(r, node, rows, dumps), other)
       <==> u in CallsOf(r, other) || (other == node && IsAdded(r, rows, dumps, u))
  {
    if |rows| > 0 {
      var n := |rows| - 1;
      assert rows == rows[..n] + [rows[n]];
      RebuiltIndex(r, node, rows[..n], dumps, other, u);
      RebuiltRecords(r, node, rows[..n], dumps, rows[n]);
      var before := Rebuilt(r, node, rows[..n], dumps);
      if rows[n] != "" && rows[n] !in before.records && dumps(rows[n]).Readable? {
        RowRecord(before, node, rows[n], dumps);
      }
    }
  }

  // ---------- Sweeping ----------

  /** A call that started when the node was asked, or later, is left to its own events. */
  predicate Recent(r: Registry, u: Uuid, askedAt: int) {
    u in r.records && r.records[u].startedAt.Some? && r.records[u].startedAt.value >= askedAt
  }

  predicate ToEnd(r: Registry, live: set<Uuid>, askedAt: int, u: Uuid) {
    u !in live && !Recent(r, u, askedAt)
  }

  /** What becomes of ending one call: both writes happen, the event is not written, or the registry is not reached after it. */
  datatype Fate = Done | NotAnnounced | NotRemoved

  datatype Sweep = Sweep(world: World, ended: seq<Uuid>, threw: bool)

  /** `endCall`: the hangup goes to the outbox, then the call leaves the registry. */
  function EndedBy(w: World, node: NodeId, u: Uuid, fate: Fate): World {
    var tenant := TenantOf(w.registry, u);
    var announced := w.outbox + [Hungup(u, node, tenant)];
    match fate
    case Done => World(Ended(w.registry, u, node, tenant), announced)
    case NotRemoved => World(w.registry, announced)
    case NotAnnounced => w
  }

  /** The loop over the node's calls, up to the first failure. */
  function Swept(w: World, node: NodeId, live: set<Uuid>, askedAt: int, members: seq<Uuid>, fates: seq<Fate>): (s: Sweep)
    requires |fates| == |members|
  {
    if |members| == 0 then Sweep(w, [], false)
    else
      var n := |members| - 1;
      var s, u := Swept(w, node, live, askedAt, members[..n], fates[..n]), members[n];
      if s.threw || !ToEnd(s.world.registry, live, askedAt, u) then s
      else if fates[n] == Done then Sweep(EndedBy(s.world, node, u, Done), s.ended + [u], false)
      else Sweep(EndedBy(s.world, node, u, fates[n]), s.ended, true)
  }

  /** What the sweep leaves of a call it did not come to, or kept. */
  lemma {:induction false} SweptKeeps(w: World, node: NodeId, live: set<Uuid>, askedAt: int, members: seq<Uuid>, fates: seq<Fate>, u: Uuid)
    requires |fates| == |members|
    ensures var s := Swept(w, node, live, askedAt, members, fates);
            && (u !in s.ended ==> (u in s.world.registry.records <==> u in w.registry.records))
            && (u !in s.ended ==> (u in CallsOf(s.world.registry, node) <==> u in CallsOf(w.registry, node)))
            && (u in s.world.registry.records ==> u in w.registry.records && s.world.registry.records[u] == w.registry.records[u])
            && (u in s.ended ==> u in members && u !in s.world.registry.records && u !in CallsOf(s.world.registry, node))
  {
    if |members| > 0 {
      SweptKeeps(w, node, live, askedAt, members[..|members| - 1], fates[..|members| - 1], u);
    }
  }

  lemma {:induction false} SweptLeavesOtherNodes(w: World, node: NodeId, live: set<Uuid>, askedAt: int, members: seq<Uuid>, fates: seq<Fate>, other: NodeId)
    requires |fates| == |members| && other != node
    ensures CallsOf(Swept(w, node, live, askedAt, members, fates).world.registry, other) == CallsOf(w.registry, other)
  {
    if |members| > 0 {
      SweptLeavesOtherNodes(w, node, live, askedAt, members[..|members| - 1], fates[..|members| - 1], other);
    }
  }

  predicate Distinct(s: seq<Uuid>) {
    forall i, j :: 0 <= i < j < |s| ==> s[i] != s[j]
  }

  /** The calls ended are, of those come to, the ones due, in their order and once each. */
  lemma {:induction false} SweptEndsTheDue(w: World, node: NodeId, live: set<Uuid>, askedAt: int, members: seq<Uuid>, fates: seq<Fate>, u: Uuid)
    requires |fates| == |members| && Distinct(members)
    ensures var s := Swept(w, node, live, askedAt, members, fates);
            && Distinct(s.ended)
            && (u in s.ended ==> u in members && ToEnd(w.registry, live, askedAt, u))
            && (!s.threw && u in members && ToEnd(w.registry, live, askedAt, u) ==> u in s.ended)
  {
    if |members| > 0 {
      var n := |members| - 1;
      var before := Swept(w, node, live, askedAt, members[..n], fates[..n]);
      assert members == members[..n] + [members[n]];
      SweptEndsTheDue(w, node, live, askedAt, members[..n], fates[..n], u);
      SweptKeeps(w, node, live, askedAt, members[..n], fates[..n], members[n]);
      forall i | 0 <= i < |before.ended|
        ensures before.ended[i] != members[n]
      {
        SweptKeeps(w, node, live, askedAt, members[..n], fates[..n], before.ended[i]);
      }
    }
  }

  function Hangups(r: Registry, node: NodeId, ended: seq<Uuid>): (events: seq<Event>)
    ensures |events| == |ended|
  {
    seq(|ended|, i requires 0 <= i < |ended| => Hungup(ended[i], node, TenantOf(r, ended[i])))
  }

  /** The outbox holds one hangup for each call ended, in order, and one more if the registry could not be reached after the last. */
  lemma {:induction false} SweptAnnounces(w: World, node: NodeId, live: set<Uuid>, askedAt: int, members: seq<Uuid>, fates: seq<Fate>)
    requires |fates| == |members| && Distinct(members)
    ensures var s := Swept(w, node, live, askedAt, members, fates);
            var told := w.outbox + Hangups(w.registry, node, s.ended);
            && told <= s.world.outbox
            && |s.world.outbox| <= |told| + (if s.threw then 1 else 0)
  {
    if |members| > 0 {
      var n := |members| - 1;
      var before := Swept(w, node, live, askedAt, members[..n], fates[..n]);
      SweptAnnounces(w, node, live, askedAt, members[..n], fates[..n]);
      SweptKeeps(w, node, live, askedAt, members[..n], fates[..n], members[n]);
      SweptEndsTheDue(w, node, live, askedAt, members[..n], fates[..n], members[n]);
      if !before.threw && ToEnd(before.world.registry, live, askedAt, members[n]) {
        assert forall i :: 0 <= i < n ==> members[i] != members[n];
        assert TenantOf(before.world.registry, members[n]) == TenantOf(w.registry, members[n]);
        assert Hangups(w.registry, node, before.ended + [members[n]])
            == Hangups(w.registry, node, before.ended) + [Hungup(members[n], node, TenantOf(w.registry, members[n]))];
      }
    }
  }

  // ---------- Main results ----------

  predicate AllReadable(rows: seq<Uuid>, dumps: Dumps) {
    forall u <- rows :: u != "" ==> dumps(u).Readable?
  }

  /** The world once the node's channels are recorded. */
  function Caught(w: World, node: NodeId, rows: seq<Uuid>, dumps: Dumps): World {
    World(Rebuilt(w.registry, node, rows, dumps), w.outbox)
  }

  /** A whole run of `syncNode`, the node's calls listed as `members` after the rebuild. */
  ghost predicate IsSync(w: World, node: NodeId, rows: seq<Uuid>, dumps: Dumps, askedAt: int, members: seq<Uuid>, fates: seq<Fate>, s: Sweep) {
    && |fates| == |members|
    && Lists(members, CallsOf(Rebuilt(w.registry, node, rows, dumps), node))
    && s == Swept(Caught(w, node, rows, dumps), node, LiveIn(rows), askedAt, members, fates)
  }

  /**
   Which calls the node's index holds afterwards, call by call: the live ones, unless some other node's
   record stood in the way, and those not live that began when the node was asked or later.
   */
  lemma {:induction false} SyncedCalls(w: World, node: NodeId, rows: seq<Uuid>, dumps: Dumps, askedAt: int,
                                       members: seq<Uuid>, fates: seq<Fate>, s: Sweep, u: Uuid)
    requires IsSync(w, node, rows, dumps, askedAt, members, fates, s) && !s.threw && AllReadable(rows, dumps)
    ensures u in CallsOf(s.world.registry, node) <==>
            if u in LiveIn(rows) then u in CallsOf(w.registry, node) || u !in w.registry.records
            else u in CallsOf(w.registry, node) && Recent(w.registry, u, askedAt)
  {
    var c := Caught(w, node, rows, dumps);
    RebuiltIndex(w.registry, node, rows, dumps, node, u);
    RebuiltRecords(w.registry, node, rows, dumps, u);
    SweptKeeps(c, node, LiveIn(rows), askedAt, members, fates, u);
    SweptEndsTheDue(c, node, LiveIn(rows), askedAt, members, fates, u);
  }

  /** The calls that stay though the node no longer has them: too young to judge. */
  predicate TooYoung(w: World, node: NodeId, rows: seq<Uuid>, askedAt: int, u: Uuid) {
    u !in LiveIn(rows) && u in CallsOf(w.registry, node) && Recent(w.registry, u, askedAt)
  }

  /**
   Apart from calls too young to judge, the node's calls are exactly its live channels; that is, exactly
   when no live channel was already recorded without being indexed under this node.
   */
  lemma {:induction false} SyncIsExact(w: World, node: NodeId, rows: seq<Uuid>, dumps: Dumps, askedAt: int,
                                       members: seq<Uuid>, fates: seq<Fate>, s: Sweep)
    requires IsSync(w, node, rows, dumps, askedAt, members, fates, s) && !s.threw && AllReadable(rows, dumps)
    ensures (forall u :: u in CallsOf(s.world.registry, node) && !TooYoung(w, node, rows, askedAt, u) <==> u in LiveIn(rows))
       <==> (forall u <- LiveIn(rows) :: u in w.registry.records ==> u in CallsOf(w.registry, node))
  {
    forall u
      ensures u in CallsOf(s.world.registry, node) <==>
              if u in LiveIn(rows) then u in CallsOf(w.registry, node) || u !in w.registry.records
              else u in CallsOf(w.registry, node) && Recent(w.registry, u, askedAt)
    {
      SyncedCalls(w, node, rows, dumps, askedAt, members, fates, s, u);
    }
  }

  /** A registry that holds one call, recorded for this node. */
  function HeldBy(node: NodeId, u: Uuid): Registry {
    Registry(map[u := Record(node, None, None, map[])], map[node := {u}], map[])
  }

  /** A live channel whose call is recorded for another node: the sync changes nothing, and the node's index lacks the call. */
  lemma {:induction false} MovedCallIsMissed(node: NodeId, other: NodeId, u: Uuid, dumps: Dumps, askedAt: int)
    requires node != other && u != "" && dumps(u).Readable?
    ensures var w := World(HeldBy(other, u), []);
            && IsSync(w, node, [u], dumps, askedAt, [], [], Sweep(w, [], false)) && AllReadable([u], dumps)
            && u in LiveIn([u]) && u !in CallsOf(w.registry, node)
  {
    var r := HeldBy(other, u);
    assert Rebuilt(r, node, [u], dumps) == RebuiltRow(Rebuilt(r, node, [u][..0], dumps), node, u, dumps);
  }

  /** Every live channel ends with a record, the one it had if it had one; and no other node's calls are touched. */
  lemma {:induction false} LiveCallsAreRecorded(w: World, node: NodeId, rows: seq<Uuid>, dumps: Dumps, askedAt: int,
                                                members: seq<Uuid>, fates: seq<Fate>, s: Sweep, u: Uuid)
    requires IsSync(w, node, rows, dumps, askedAt, members, fates, s) && AllReadable(rows, dumps) && u in LiveIn(rows)
    ensures u in s.world.registry.records
    ensures s.world.registry.records[u] == if u in w.registry.records then w.registry.records[u] else RecordFor(node, dumps(u))
  {
    var c := Caught(w, node, rows, dumps);
    RebuiltRecords(w.registry, node, rows, dumps, u);
    SweptKeeps(c, node, LiveIn(rows), askedAt, members, fates, u);
    SweptEndsTheDue(c, node, LiveIn(rows), askedAt, members, fates, u);
  }

  /** The hangup events for a call that a run added. */
  predicate ToldAt(before: seq<Event>, after: seq<Event>, u: Uuid, i: int) {
    |before| <= i < |after| && after[i].Hungup? && after[i].callUuid == u
  }

  /** However the run ends, a call it removed was announced, once; and nothing already in the outbox changed. */
  lemma {:induction false} RemovedCallsWereAnnounced(w: World, node: NodeId, rows: seq<Uuid>, dumps: Dumps, askedAt: int,
                                                     members: seq<Uuid>, fates: seq<Fate>, s: Sweep, u: Uuid)
    requires IsSync(w, node, rows, dumps, askedAt, members, fates, s)
    requires u in w.registry.records && u !in s.world.registry.records
    ensures w.outbox <= s.world.outbox
    ensures exists i :: ToldAt(w.outbox, s.world.outbox, u, i)
    ensures !s.threw ==> forall i, j :: ToldAt(w.outbox, s.world.outbox, u, i) && ToldAt(w.outbox, s.world.outbox, u, j) ==> i == j
  {
    var c := Caught(w, node, rows, dumps);
    RebuiltRecords(w.registry, node, rows, dumps, u);
    SweptKeeps(c, node, LiveIn(rows), askedAt, members, fates, u);
    SweptEndsTheDue(c, node, LiveIn(rows), askedAt, members, fates, u);
    SweptAnnounces(c, node, LiveIn(rows), askedAt, members, fates);
    var k :| 0 <= k < |s.ended| && s.ended[k] == u;
    var told := w.outbox + Hangups(c.registry, node, s.ended);
    assert told[|w.outbox| + k].callUuid == u;
    assert s.world.outbox[|w.outbox| + k] == told[|w.outbox| + k];
    assert ToldAt(w.outbox, s.world.outbox, u, |w.outbox| + k);
    if !s.threw {
      assert s.world.outbox == told;
      assert forall i :: 0 <= i < |s.ended| ==> told[|w.outbox| + i].callUuid == s.ended[i];
    }
  }

  /** Every call with a record is indexed under its tenant, if it has one. */
  ghost predicate TenantsIndexed(r: Registry) {
    forall u :: u in r.records && r.records[u].tenant.Some? ==> u in Members(r.byTenant, r.records[u].tenant.value)
  }

  lemma {:induction false} RebuildKeepsTenants(r: Registry, node: NodeId, rows: seq<Uuid>, dumps: Dumps)
    requires TenantsIndexed(r)
    ensures TenantsIndexed(Rebuilt(r, node, rows, dumps))
  {
    if |rows| > 0 {
      RebuildKeepsTenants(r, node, rows[..|rows| - 1], dumps);
      RowKeepsTenants(Rebuilt(r, node, rows[..|rows| - 1], dumps), node, rows[|rows| - 1], dumps);
    }
  }

  lemma {:induction false} RowKeepsTenants(r: Registry, node: NodeId, u: Uuid, dumps: Dumps)
    requires TenantsIndexed(r)
    ensures TenantsIndexed(RebuiltRow(r, node, u, dumps))
  {
    if u != "" && u !in r.records && dumps(u).Readable? {
      RowRecord(r, node, u, dumps);
      var c := Created(r, u, dumps(u).call.(node := node));
      assert TenantsIndexed(c);
    }
  }

  lemma {:induction false} SweepKeepsTenants(w: World, node: NodeId, live: set<Uuid>, askedAt: int, members: seq<Uuid>, fates: seq<Fate>)
    requires |fates| == |members| && TenantsIndexed(w.registry)
    ensures TenantsIndexed(Swept(w, node, live, askedAt, members, fates).world.registry)
  {
    if |members| > 0 {
      SweepKeepsTenants(w, node, live, askedAt, members[..|members| - 1], fates[..|members| - 1]);
    }
  }

  /** A run keeps the tenants' index: whatever is recorded with a tenant is listed under it. */
  lemma {:induction false} SyncKeepsTenants(w: World, node: NodeId, rows: seq<Uuid>, dumps: Dumps, askedAt: int,
                                            members: seq<Uuid>, fates: seq<Fate>, s: Sweep)
    requires IsSync(w, node, rows, dumps, askedAt, members, fates, s) && TenantsIndexed(w.registry)
    ensures TenantsIndexed(s.world.registry)
  {
    RebuildKeepsTenants(w.registry, node, rows, dumps);
    SweepKeepsTenants(Caught(w, node, rows, dumps), node, LiveIn(rows), askedAt, members, fates);
  }

  // ---------- A second run ----------

  lemma {:induction false} NothingToRebuild(r: Registry, node: NodeId, rows: seq<Uuid>, dumps: Dumps)
    requires forall u <- rows :: u == "" || u in r.records
    ensures Rebuilt(r, node, rows, dumps) == r
  {
    if |rows| > 0 {
      assert rows == rows[..|rows| - 1] + [rows[|rows| - 1]];
      NothingToRebuild(r, node, rows[..|rows| - 1], dumps);
    }
  }

  lemma {:induction false} NothingToSweep(w: World, node: NodeId, live: set<Uuid>, askedAt: int, members: seq<Uuid>, fates: seq<Fate>)
    requires |fates| == |members| && forall u <- members :: !ToEnd(w.registry, live, askedAt, u)
    ensures Swept(w, node, live, askedAt, members, fates) == Sweep(w, [], false)
  {
    if |members| > 0 {
      assert members == members[..|members| - 1] + [members[|members| - 1]];
      NothingToSweep(w, node, live, askedAt, members[..|members| - 1], fates[..|members| - 1]);
    }
  }

  /**
   A second run over the same channels changes nothing, exactly when none of the calls too young for the
   first run is old enough for the second.
   */
  lemma {:induction false} SecondRunIsIdle(w: World, node: NodeId, rows: seq<Uuid>, dumps: Dumps, askedAt: int,
                                           members: seq<Uuid>, fates: seq<Fate>, s: Sweep,
                                           dumps2: Dumps, askedAt2: int, members2: seq<Uuid>, fates2: seq<Fate>, s2: Sweep)
    requires IsSync(w, node, rows, dumps, askedAt, members, fates, s) && !s.threw && AllReadable(rows, dumps)
    requires IsSync(s.world, node, rows, dumps2, askedAt2, members2, fates2, s2) && !s2.threw && askedAt <= askedAt2
    ensures s2.world == s.world <==> forall u :: TooYoung(w, node, rows, askedAt, u) ==> w.registry.records[u].startedAt.value >= askedAt2
  {
    forall u | u in rows
      ensures u == "" || u in s.world.registry.records
    {
      if u != "" {
        LiveCallsAreRecorded(w, node, rows, dumps, askedAt, members, fates, s, u);
      }
    }
    NothingToRebuild(s.world.registry, node, rows, dumps2);
    forall u
      ensures u in members2 && ToEnd(s.world.registry, LiveIn(rows), askedAt2, u)
         <==> TooYoung(w, node, rows, askedAt, u) && w.registry.records[u].startedAt.value < askedAt2
    {
      KeptCallIsAsBefore(w, node, rows, dumps, askedAt, members, fates, s, u);
    }
    SecondSweep(s.world, node, rows, askedAt2, members2, fates2, s2);
  }

  lemma {:induction false} KeptCallIsAsBefore(w: World, node: NodeId, rows: seq<Uuid>, dumps: Dumps, askedAt: int,
                                              members: seq<Uuid>, fates: seq<Fate>, s: Sweep, u: Uuid)
    requires IsSync(w, node, rows, dumps, askedAt, members, fates, s) && !s.threw && AllReadable(rows, dumps)
    ensures u in CallsOf(s.world.registry, node) && u !in LiveIn(rows) <==> TooYoung(w, node, rows, askedAt, u)
    ensures TooYoung(w, node, rows, askedAt, u) ==> u in s.world.registry.records && s.world.registry.records[u] == w.registry.records[u]
  {
    SyncedCalls(w, node, rows, dumps, askedAt, members, fates, s, u);
    var c := Caught(w, node, rows, dumps);
    RebuiltRecords(w.registry, node, rows, dumps, u);
    SweptKeeps(c, node, LiveIn(rows), askedAt, members, fates, u);
    SweptEndsTheDue(c, node, LiveIn(rows), askedAt, members, fates, u);
  }

  lemma {:induction false} SecondSweep(w: World, node: NodeId, rows: seq<Uuid>, askedAt: int, members: seq<Uuid>, fates: seq<Fate>, s: Sweep)
    requires |fates| == |members| && Distinct(members)
    requires s == Swept(w, node, LiveIn(rows), askedAt, members, fates) && !s.threw
    ensures s.world == w <==> forall u <- members :: !ToEnd(w.registry, LiveIn(rows), askedAt, u)
  {
    if u :| u in members && ToEnd(w.registry, LiveIn(rows), askedAt, u) {
      SweptEndsTheDue(w, node, LiveIn(rows), askedAt, members, fates, u);
      SweptAnnounces(w, node, LiveIn(rows), askedAt, members, fates);
      assert |s.ended| > 0;
      assert |s.world.outbox| > |w.outbox|;
    } else {
      NothingToSweep(w, node, LiveIn(rows), askedAt, members, fates);
    }
  }

  // ---------- The classes ----------

  /** What the job reaches: the registry with its epoch, and the outbox. */
  class Stores {
    var world: World
    var epoch: Option<string>

    constructor (world: World, epoch: Option<string>)
      ensures this.world == world && this.epoch == epoch
    {
      this.world, this.epoch := world, epoch;
    }
  }

  /** What one node answers when asked for its channels: nothing readable, or the list and the dumps. */
  datatype Answer = NoAnswer | Channels(rows: seq<Uuid>, dumps: Dumps)

  /** Every node's channels recorded in turn; a node that cannot be read is passed over. */
  function RebuiltAll(r: Registry, nodes: seq<(NodeId, Answer)>): Registry {
    if |nodes| == 0 then r
    else
      var (node, answer) := nodes[|nodes| - 1];
      var before := RebuiltAll(r, nodes[..|nodes| - 1]);
      if answer.NoAnswer? then before else Rebuilt(before, node, answer.rows, answer.dumps)
  }

  /** After the registry was lost, every readable live channel of every readable node has a record again, and what live events recreated is left alone. */
  lemma {:induction false} RebuildRestoresCalls(r: Registry, nodes: seq<(NodeId, Answer)>, u: Uuid)
    ensures u in r.records ==> u in RebuiltAll(r, nodes).records && RebuiltAll(r, nodes).records[u] == r.records[u]
    ensures u in RebuiltAll(r, nodes).records <==>
            u in r.records || exists k :: 0 <= k < |nodes| && nodes[k].1.Channels? && u in LiveIn(nodes[k].1.rows) && nodes[k].1.dumps(u).Readable?
  {
    if |nodes| > 0 {
      var n := |nodes| - 1;
      RebuildRestoresCalls(r, nodes[..n], u);
      var before := RebuiltAll(r, nodes[..n]);
      if nodes[n].1.Channels? {
        RebuiltRecords(before, nodes[n].0, nodes[n].1.rows, nodes[n].1.dumps, u);
      }
    }
  }

  class RegistryRebuild {
    const stores: Stores
    var lastEpoch: Option<Option<string>>   // none before the first look
    var restores: nat                       // how often the leases were set again

    constructor (stores: Stores)
      ensures this.stores == stores && lastEpoch == None && restores == 0
    {
      this.stores, lastEpoch, restores := stores, None, 0;
    }

    method RebuildNode(node: NodeId, rows: seq<Uuid>, dumps: Dumps) returns (rebuilt: nat, live: set<Uuid>)
      modifies stores`world
      ensures stores.world == Caught(old(stores.world), node, rows, dumps) && live == LiveIn(rows)
      ensures rebuilt == 0 ==> stores.world == old(stores.world)
    {
      ghost var before := stores.world;
      live, rebuilt := {}, 0;
      for k := 0 to |rows|
        invariant stores.world == Caught(before, node, rows[..k], dumps) && live == LiveIn(rows[..k])
        invariant rebuilt == 0 ==> stores.world == before
      {
        assert rows[..k + 1][..k] == rows[..k] && rows[..k + 1] == rows[..k] + [rows[k]];
        var u := rows[k];
        if u == "" {
          continue;
        }
        live := live + {u};
        if u in stores.world.registry.records || dumps(u).Unreadable? {
          continue;
        }
        var r := Created(stores.world.registry, u, dumps(u).call.(node := node));
        stores.world := stores.world.(registry := Updated(r, u, dumps(u).changes));
        rebuilt := rebuilt + 1;
      }
      assert rows[..|rows|] == rows;
    }

    /** A hangup of the channel handler: the event, then the registry. */
    method EndCall(node: NodeId, u: Uuid, fate: Fate) returns (threw: bool)
      modifies stores`world
      ensures stores.world == EndedBy(old(stores.world), node, u, fate) && threw == (fate != Done)
    {
      var tenant := TenantOf(stores.world.registry, u);
      if fate == NotAnnounced {
        return true;
      }
      stores.world := stores.world.(outbox := stores.world.outbox + [Hungup(u, node, tenant)]);
      if fate == NotRemoved {
        return true;
      }
      stores.world := stores.world.(registry := Ended(stores.world.registry, u, node, tenant));
      threw := false;
    }

    /** The end of `syncNode`: the calls the node no longer has, up to a failure. */
    method SweepNode(node: NodeId, live: set<Uuid>, askedAt: int, members: seq<Uuid>, fates: seq<Fate>) returns (ended: seq<Uuid>, threw: bool)
      requires |fates| == |members|
      modifies stores`world
      ensures Sweep(stores.world, ended, threw) == Swept(old(stores.world), node, live, askedAt, members, fates)
    {
      ghost var before := stores.world;
      ended, threw := [], false;
      for k := 0 to |members|
        invariant Sweep(stores.world, ended, threw) == Swept(before, node, live, askedAt, members[..k], fates[..k])
      {
        assert members[..k + 1][..k] == members[..k] && fates[..k + 1][..k] == fates[..k];
        if !threw && ToEnd(stores.world.registry, live, askedAt, members[k]) {
          threw := EndCall(node, members[k], fates[k]);
          if !threw {
            ended := ended + [members[k]];
          }
        }
      }
      assert members[..|members|] == members && fates[..|members|] == fates;
    }

    /** `syncNode`; `fateOf` says what becomes of ending each call. */
    method SyncNode(node: NodeId, rows: seq<Uuid>, dumps: Dumps, askedAt: int, fateOf: Uuid -> Fate)
        returns (added: nat, ended: seq<Uuid>, threw: bool, ghost members: seq<Uuid>, ghost fates: seq<Fate>)
      modifies stores`world
      ensures IsSync(old(stores.world), node, rows, dumps, askedAt, members, fates, Sweep(stores.world, ended, threw))
    {
      var live;
      added, live := RebuildNode(node, rows, dumps);
      var listed := SMembers(CallsOf(stores.world.registry, node));
      var due := seq(|listed|, i requires 0 <= i < |listed| => fateOf(listed[i]));
      ended, threw := SweepNode(node, live, askedAt, listed, due);
      members, fates := listed, due;
    }

    method RebuildCalls(nodes: seq<(NodeId, Answer)>) returns (total: nat)
      modifies stores`world
      ensures stores.world == World(RebuiltAll(old(stores.world).registry, nodes), old(stores.world).outbox)
    {
      total := 0;
      ghost var before := stores.world;
      for k := 0 to |nodes|
        invariant stores.world == World(RebuiltAll(before.registry, nodes[..k]), before.outbox)
      {
        assert nodes[..k + 1][..k] == nodes[..k];
        var (node, answer) := nodes[k];
        if answer.Channels? {
          var rebuilt, _ := RebuildNode(node, answer.rows, answer.dumps);
          total := total + rebuilt;
        }
      }
      assert nodes[..|nodes|] == nodes;
    }

    /**
     One look at the epoch. `rival` is the epoch another replica sets between this one's look and its
     claim, if any. Only the replica whose claim wins rebuilds; each that sees the epoch change sets its
     leases again, once.
     */
    method Check(newEpoch: string, rival: Option<string>, nodes: seq<(NodeId, Answer)>) returns (total: nat)
      modifies this, stores
      ensures stores.epoch.Some? && lastEpoch == Some(stores.epoch)
      ensures old(stores.epoch).Some? ==> stores.epoch == old(stores.epoch)
      ensures old(stores.epoch).None? ==> stores.epoch == Some(if rival.Some? then rival.value else newEpoch)
      ensures stores.world ==
              if old(stores.epoch).None? && rival.None? then World(RebuiltAll(old(stores.world).registry, nodes), old(stores.world).outbox)
              else old(stores.world)
      ensures restores == old(restores) + if old(lastEpoch).Some? && old(lastEpoch).value != stores.epoch then 1 else 0
    {
      total := 0;
      var epoch := stores.epoch;
      if epoch.None? {
        if rival.Some? {
          stores.epoch := rival;
        } else {
          stores.epoch := Some(newEpoch);
          total := RebuildCalls(nodes);
        }
        epoch := stores.epoch;
      }
      if lastEpoch.Some? && epoch != lastEpoch.value {
        restores := restores + 1;
      }
      lastEpoch := Some(epoch);
    }
  }
}
