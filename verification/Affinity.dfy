/**
 Resource affinity leases: which node holds a queue, a parking lot or a conference, in one Redis
 key per resource, and the scan that lists a node's leases.
 */
module Affinity {
  import opened Wrappers
  import opened Text
  import opened RedisStore

  datatype AffinityKind = Queue | Park | Conf

  datatype Lease = Lease(tenantId: string, kind: AffinityKind, resourceId: string)

  function KindText(kind: AffinityKind): string {
    match kind
    case Queue => "queue"
    case Park => "park"
    case Conf => "conf"
  }

  function KindOf(text: string): Option<AffinityKind> {
    if text == "queue" then Some(Queue)
    else if text == "park" then Some(Park)
    else if text == "conf" then Some(Conf)
    else None
  }

  function LeasePrefix(keyPrefix: string): string {
    keyPrefix + "aff:"
  }

  function LeaseName(lease: Lease): string {
    lease.tenantId + ":" + KindText(lease.kind) + ":" + lease.resourceId
  }

  function LeaseKey(keyPrefix: string, lease: Lease): string {
    LeasePrefix(keyPrefix) + LeaseName(lease)
  }

  /** The lease a key is taken to name; further pieces are ignored. */
  function ParseName(name: string): Option<Lease> {
    var parts := Split(name, ':');
    if |parts| < 3 then None
    else
      match KindOf(parts[1])
      case None => None
      case Some(kind) => Some(Lease(parts[0], kind, parts[2]))
  }

  predicate ColonFree(lease: Lease) {
    ':' !in lease.tenantId && ':' !in lease.resourceId
  }

  lemma {:induction false} KindRoundTrip(kind: AffinityKind)
    ensures KindOf(KindText(kind)) == Some(kind) && ':' !in KindText(kind)
  {
  }

  /** A lease's key reads back as that lease exactly when its ids hold no colon. */
  lemma {:induction false} ParseInvertsKey(lease: Lease)
    ensures ParseName(LeaseName(lease)) == Some(lease) <==> ColonFree(lease)
  {
    if ColonFree(lease) {
      KindRoundTrip(lease.kind);
      var parts := [lease.tenantId, KindText(lease.kind), lease.resourceId];
      assert parts[1..][1..] == [lease.resourceId];
      assert Join(parts[1..], ':') == KindText(lease.kind) + ":" + lease.resourceId;
      assert Join(parts, ':') == LeaseName(lease);
      SplitJoin(parts, ':');
    }
  }

  /** Two leases with colon-free ids never share a key. */
  lemma {:induction false} KeysAreDistinct(keyPrefix: string, a: Lease, b: Lease)
    requires ColonFree(a) && ColonFree(b) && LeaseKey(keyPrefix, a) == LeaseKey(keyPrefix, b)
    ensures a == b
  {
    ParseInvertsKey(a);
    ParseInvertsKey(b);
    assert LeaseName(a) == LeaseKey(keyPrefix, a)[|LeasePrefix(keyPrefix)|..];
    assert LeaseName(b) == LeaseKey(keyPrefix, b)[|LeasePrefix(keyPrefix)|..];
  }

  /** With a colon in a resource id, what follows it is lost: the key reads back as another lease. */
  lemma {:induction false} ColonLosesTheRest(tenantId: string, kind: AffinityKind, a: string, b: string)
    requires ':' !in tenantId && ':' !in a
    ensures ParseName(LeaseName(Lease(tenantId, kind, a + ":" + b))) == Some(Lease(tenantId, kind, a))
  {
    KindRoundTrip(kind);
    var rest := a + [':'] + b;
    assert LeaseName(Lease(tenantId, kind, a + ":" + b)) == tenantId + [':'] + (KindText(kind) + [':'] + rest);
    SplitFirst(tenantId, ':', KindText(kind) + [':'] + rest);
    SplitFirst(KindText(kind), ':', rest);
    SplitFirst(a, ':', b);
  }

  /** And two leases may share a key. */
  lemma {:induction false} ColonSharesAKey(tenantId: string, kind: AffinityKind, other: AffinityKind, resourceId: string)
    ensures LeaseName(Lease(tenantId + ":" + KindText(kind), other, resourceId))
         == LeaseName(Lease(tenantId, kind, KindText(other) + ":" + resourceId))
  {
    var t, k, o, r := tenantId, KindText(kind), KindText(other), resourceId;
    assert t + ":" + k + ":" + o + ":" + r == t + ":" + k + ":" + (o + ":" + r);
  }

  // ---------- Runs of calls ----------

  datatype Op =
    | Acquire(lease: Lease, nodeId: string, ttlMs: nat)
    | Renew(lease: Lease, nodeId: string, ttlMs: nat)
    | Release(lease: Lease, nodeId: string)
    | Wait(ms: nat)

  type Store = map<string, Entry>

  function Applied(keyPrefix: string, store: Store, now: int, op: Op): Store {
    match op
    case Acquire(lease, nodeId, ttlMs) => SetIfFree(store, LeaseKey(keyPrefix, lease), nodeId, ttlMs, now)
    case Renew(lease, nodeId, ttlMs) => RenewIfHeld(store, LeaseKey(keyPrefix, lease), nodeId, ttlMs, now)
    case Release(lease, nodeId) => DeleteIfHeld(store, LeaseKey(keyPrefix, lease), nodeId, now)
    case Wait(_) => store
  }

  function Later(now: int, op: Op): int {
    if op.Wait? then now + op.ms else now
  }

  function StoreAfter(keyPrefix: string, store: Store, now: int, ops: seq<Op>): Store
    decreases |ops|
  {
    if ops == [] then store
    else StoreAfter(keyPrefix, Applied(keyPrefix, store, now, ops[0]), Later(now, ops[0]), ops[1..])
  }

  function TimeAfter(now: int, ops: seq<Op>): (t: int)
    ensures t >= now
    decreases |ops|
  {
    if ops == [] then now else TimeAfter(Later(now, ops[0]), ops[1..])
  }

  predicate Carries(op: Op, nodeId: string) {
    !op.Wait? && op.nodeId == nodeId
  }

  /** While a lease lives, calls carrying other node ids leave it exactly as it is, on any lease. */
  lemma {:induction false} OthersCannotTouch(keyPrefix: string, store: Store, now: int, key: string, ops: seq<Op>)
    requires Live(store, key, now) && TimeAfter(now, ops) < store[key].expiresAt
    requires forall i :: 0 <= i < |ops| ==> !Carries(ops[i], store[key].value)
    ensures var after := StoreAfter(keyPrefix, store, now, ops);
            Live(after, key, TimeAfter(now, ops)) && after[key] == store[key]
    decreases |ops|
  {
    if ops != [] {
      var next := Applied(keyPrefix, store, now, ops[0]);
      assert TimeAfter(Later(now, ops[0]), ops[1..]) >= Later(now, ops[0]);
      assert !Carries(ops[0], store[key].value);
      assert key in next && next[key] == store[key];
      OthersCannotTouch(keyPrefix, next, Later(now, ops[0]), key, ops[1..]);
    }
  }

  /** After a successful acquire or renew, the node keeps the lease until its TTL, whatever others call. */
  lemma {:induction false} LeaseLastsItsTtl(keyPrefix: string, store: Store, now: int, op: Op, ops: seq<Op>)
    requires match op
             case Acquire(lease, _, _) => !Live(store, LeaseKey(keyPrefix, lease), now)
             case Renew(lease, nodeId, _) => HeldBy(store, LeaseKey(keyPrefix, lease), nodeId, now)
             case _ => false
    requires TimeAfter(now, ops) < now + op.ttlMs
    requires forall i :: 0 <= i < |ops| ==> !Carries(ops[i], op.nodeId)
    ensures var after := StoreAfter(keyPrefix, store, now, [op] + ops);
            var key := LeaseKey(keyPrefix, op.lease);
            && Get(after, key, TimeAfter(now, ops)) == Some(op.nodeId)
            && after[key].expiresAt == now + op.ttlMs
  {
    var granted := Applied(keyPrefix, store, now, op);
    assert ([op] + ops)[1..] == ops;
    assert TimeAfter(now, ops) >= now;
    OthersCannotTouch(keyPrefix, granted, now, LeaseKey(keyPrefix, op.lease), ops);
  }

  // ---------- Listing a node's leases ----------

  /** What the listing makes of the scanned keys, in order. */
  function Reported(keyPrefix: string, store: Store, now: int, nodeId: string, keys: seq<string>): seq<Lease>
    requires AllMatch(keyPrefix, keys)
  {
    if |keys| == 0 then []
    else
      var last := keys[|keys| - 1];
      assert StartsWith(last, LeasePrefix(keyPrefix));
      var before := Reported(keyPrefix, store, now, nodeId, keys[..|keys| - 1]);
      if Get(store, last, now) != Some(nodeId) then before
      else
        match ParseName(last[|LeasePrefix(keyPrefix)|..])
        case None => before
        case Some(lease) => before + [lease]
  }

  function Scanned(pages: seq<seq<string>>): seq<string> {
    if |pages| == 0 then [] else Scanned(pages[..|pages| - 1]) + pages[|pages| - 1]
  }

  /**
   What Redis promises of a scan of a store at rest: every matching key at least once, nothing that
   does not match, in any paging, with pages empty and keys repeated as it likes.
   */
  ghost predicate IsScan(keyPrefix: string, store: Store, now: int, keys: seq<string>) {
    && AllMatch(keyPrefix, keys)
    && (forall key :: Live(store, key, now) && StartsWith(key, LeasePrefix(keyPrefix)) ==> key in keys)
  }

  lemma {:induction false} ReportedAre(keyPrefix: string, store: Store, now: int, nodeId: string, keys: seq<string>, lease: Lease)
    requires AllMatch(keyPrefix, keys)
    ensures lease in Reported(keyPrefix, store, now, nodeId, keys)
       <==> exists i :: 0 <= i < |keys| && HeldBy(store, keys[i], nodeId, now)
                     && ParseName(keys[i][|LeasePrefix(keyPrefix)|..]) == Some(lease)
  {
    if |keys| > 0 {
      ReportedAre(keyPrefix, store, now, nodeId, keys[..|keys| - 1], lease);
    }
  }

  /** The node's keys under the lease prefix are the keys of leases with colon-free ids. */
  ghost predicate OnlyPlainLeases(keyPrefix: string, store: Store, now: int, nodeId: string) {
    forall key :: HeldBy(store, key, nodeId, now) && StartsWith(key, LeasePrefix(keyPrefix)) ==>
      exists lease :: ColonFree(lease) && key == LeaseKey(keyPrefix, lease)
  }

  /** Taken as a set, the listing is exactly the node's leases. */
  lemma {:induction false} ListingIsExact(keyPrefix: string, store: Store, now: int, nodeId: string, keys: seq<string>, lease: Lease)
    requires IsScan(keyPrefix, store, now, keys) && OnlyPlainLeases(keyPrefix, store, now, nodeId)
    requires ColonFree(lease)
    ensures lease in Reported(keyPrefix, store, now, nodeId, keys)
       <==> HeldBy(store, LeaseKey(keyPrefix, lease), nodeId, now)
  {
    ReportedAre(keyPrefix, store, now, nodeId, keys, lease);
    ParseInvertsKey(lease);
    var key := LeaseKey(keyPrefix, lease);
    var at := |LeasePrefix(keyPrefix)|;
    assert key[at..] == LeaseName(lease) && StartsWith(key, LeasePrefix(keyPrefix));
    if HeldBy(store, key, nodeId, now) {
      var i :| 0 <= i < |keys| && keys[i] == key;
    }
    if i :| 0 <= i < |keys| && HeldBy(store, keys[i], nodeId, now) && ParseName(keys[i][at..]) == Some(lease) {
      assert StartsWith(keys[i], LeasePrefix(keyPrefix));
      var other :| ColonFree(other) && keys[i] == LeaseKey(keyPrefix, other);
      assert keys[i][at..] == LeaseName(other);
      ParseInvertsKey(other);
    }
  }

  predicate AllMatch(keyPrefix: string, keys: seq<string>) {
    forall i :: 0 <= i < |keys| ==> StartsWith(keys[i], LeasePrefix(keyPrefix))
  }

  lemma {:induction false} ReportedJoin(keyPrefix: string, store: Store, now: int, nodeId: string, a: seq<string>, b: seq<string>)
    requires AllMatch(keyPrefix, a) && AllMatch(keyPrefix, b)
    ensures AllMatch(keyPrefix, a + b)
    ensures Reported(keyPrefix, store, now, nodeId, a + b)
         == Reported(keyPrefix, store, now, nodeId, a) + Reported(keyPrefix, store, now, nodeId, b)
    decreases |b|
  {
    if |b| == 0 {
      assert a + b == a;
    } else {
      assert (a + b)[..|a + b| - 1] == a + b[..|b| - 1];
      ReportedJoin(keyPrefix, store, now, nodeId, a, b[..|b| - 1]);
    }
  }

  lemma {:induction false} PagesArePrefixes(pages: seq<seq<string>>, p: nat)
    requires p <= |pages|
    ensures Scanned(pages[..p]) <= Scanned(pages)
    decreases |pages| - p
  {
    if p == |pages| {
      assert pages[..p] == pages;
    } else {
      assert pages[..p + 1][..p] == pages[..p];
      PagesArePrefixes(pages, p + 1);
    }
  }

  lemma {:induction false} OnePageMore(keyPrefix: string, pages: seq<seq<string>>, p: nat)
    requires p < |pages| && AllMatch(keyPrefix, Scanned(pages))
    ensures Scanned(pages[..p + 1]) == Scanned(pages[..p]) + pages[p]
    ensures AllMatch(keyPrefix, pages[p]) && AllMatch(keyPrefix, Scanned(pages[..p + 1]))
  {
    assert pages[..p + 1][..p] == pages[..p];
    PagesArePrefixes(pages, p + 1);
    var seen := Scanned(pages[..p]);
    assert forall i :: 0 <= i < |pages[p]| ==> pages[p][i] == Scanned(pages)[|seen| + i];
  }

  // ---------- The registry ----------

  class AffinityRegistry {
    const keyPrefix: string
    var store: Store
    var clock: int

    constructor (keyPrefix: string, now: int)
      ensures this.keyPrefix == keyPrefix && store == map[] && clock == now
    {
      this.keyPrefix, store, clock := keyPrefix, map[], now;
    }

    method Acquire(lease: Lease, nodeId: string, ttlMs: nat) returns (won: bool)
      modifies this`store
      ensures won == !Live(old(store), LeaseKey(keyPrefix, lease), clock)
      ensures store == Applied(keyPrefix, old(store), clock, Op.Acquire(lease, nodeId, ttlMs))
    {
      var key := LeaseKey(keyPrefix, lease);
      won := key !in store || store[key].expiresAt <= clock;
      if won {
        store := store[key := Entry(nodeId, clock + ttlMs)];
      }
    }

    method Renew(lease: Lease, nodeId: string, ttlMs: nat) returns (renewed: bool)
      modifies this`store
      ensures renewed == HeldBy(old(store), LeaseKey(keyPrefix, lease), nodeId, clock)
      ensures store == Applied(keyPrefix, old(store), clock, Op.Renew(lease, nodeId, ttlMs))
    {
      var key := LeaseKey(keyPrefix, lease);
      renewed := Get(store, key, clock) == Some(nodeId);
      if renewed {
        store := store[key := store[key].(expiresAt := clock + ttlMs)];
      }
    }

    method Release(lease: Lease, nodeId: string) returns (released: bool)
      modifies this`store
      ensures released == HeldBy(old(store), LeaseKey(keyPrefix, lease), nodeId, clock)
      ensures store == Applied(keyPrefix, old(store), clock, Op.Release(lease, nodeId))
    {
      var key := LeaseKey(keyPrefix, lease);
      released := Get(store, key, clock) == Some(nodeId);
      if released {
        store := store - {key};
      }
    }

    /** The leases of one page whose owner is the node. */
    method HeldOnPage(nodeId: string, keys: seq<string>) returns (held: seq<Lease>)
      requires AllMatch(keyPrefix, keys)
      ensures held == Reported(keyPrefix, store, clock, nodeId, keys)
    {
      held := [];
      var k := 0;
      while k < |keys|
        invariant 0 <= k <= |keys|
        invariant held == Reported(keyPrefix, store, clock, nodeId, keys[..k])
      {
        var key := keys[k];
        assert StartsWith(key, LeasePrefix(keyPrefix));
        assert keys[..k + 1][..k] == keys[..k];
        if Get(store, key, clock) == Some(nodeId) {
          var lease := ParseName(key[|LeasePrefix(keyPrefix)|..]);
          if lease.Some? {
            held := held + [lease.value];
          }
        }
        k := k + 1;
      }
      assert keys[..k] == keys;
    }

    /** `pages` are the answers of SCAN, the last one with the cursor back at zero. */
    method LeasesHeldBy(nodeId: string, pages: seq<seq<string>>) returns (held: seq<Lease>)
      requires |pages| > 0 && IsScan(keyPrefix, store, clock, Scanned(pages))
      ensures held == Reported(keyPrefix, store, clock, nodeId, Scanned(pages))
    {
      held := [];
      var p := 0;
      while p < |pages|
        invariant 0 <= p <= |pages|
        invariant AllMatch(keyPrefix, Scanned(pages[..p]))
        invariant held == Reported(keyPrefix, store, clock, nodeId, Scanned(pages[..p]))
      {
        assert pages[..p + 1][..p] == pages[..p];
        OnePageMore(keyPrefix, pages, p);
        if |pages[p]| > 0 {
          var more := HeldOnPage(nodeId, pages[p]);
          ReportedJoin(keyPrefix, store, clock, nodeId, Scanned(pages[..p]), pages[p]);
          held := held + more;
        } else {
          assert Scanned(pages[..p]) + pages[p] == Scanned(pages[..p]);
        }
        p := p + 1;
      }
      assert pages[..p] == pages;
    }
  }
}
