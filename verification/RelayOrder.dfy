/**
 The order in which one process's events reach the stream: ids that strictly increase, rows stamped
 by the clock, and a relay that claims by (`created_at`, `id`).
 */
module RelayOrder {
  import opened EventProtocol
  import opened Relay
  import EventIds
  import EventTheorems
  import Text

  /** `ids` came from one process's generator whose calls read the clock as `nows`. */
  ghost predicate MadeBy(st: EventIds.Stamp, nows: seq<int>, ids: seq<EventId>) {
    && EventIds.InRange(st) && |ids| == |nows|
    && forall i :: 0 <= i < |ids| ==> IsIdOf(EventIds.Stamps(st, nows)[i], ids[i])
  }

  ghost predicate IsIdOf(st: EventIds.Stamp, id: EventId) {
    exists bytes, random :: EventIds.IsPacked(bytes, st, random) && id == EventIds.Dashed(EventIds.Hex(bytes))
  }

  /** Ids sort in the order they were made, whatever the clock did. */
  lemma IdsSortAsMade(st: EventIds.Stamp, nows: seq<int>, ids: seq<EventId>, i: nat, j: nat)
    requires MadeBy(st, nows, ids) && i < j < |ids|
    ensures Text.Less(ids[i], ids[j])
  {
    var a, b := EventIds.Stamps(st, nows)[i], EventIds.Stamps(st, nows)[j];
    EventIds.StampsIncrease(st, nows, i, j);
    assert IsIdOf(a, ids[i]) && IsIdOf(b, ids[j]);
    var bytesA, randomA :| EventIds.IsPacked(bytesA, a, randomA) && ids[i] == EventIds.Dashed(EventIds.Hex(bytesA));
    var bytesB, randomB :| EventIds.IsPacked(bytesB, b, randomB) && ids[j] == EventIds.Dashed(EventIds.Hex(bytesB));
    EventIds.TextSortsByStamp(bytesA, bytesB, a, b, randomA, randomB);
  }

  /** The rows still in the outbox carry the clock readings they were enqueued with. */
  ghost predicate Stamped(outbox: map<EventId, Row>, ids: seq<EventId>, created: seq<int>) {
    |created| == |ids| && forall i :: 0 <= i < |ids| && ids[i] in outbox ==> outbox[ids[i]].createdAt == created[i]
  }

  ghost predicate NeverWentBack(created: seq<int>) {
    forall i, j :: 0 <= i < j < |created| ==> created[i] <= created[j]
  }

  /** The query's order is the order of enqueuing exactly when the clock never went back meanwhile. */
  lemma QueryOrderIsEnqueueOrder(st: EventIds.Stamp, nows: seq<int>, ids: seq<EventId>, created: seq<int>, outbox: map<EventId, Row>)
    requires MadeBy(st, nows, ids) && Stamped(outbox, ids, created)
    requires forall i :: 0 <= i < |ids| ==> ids[i] in outbox
    ensures NeverWentBack(created) <==>
            (forall i, j :: 0 <= i < j < |ids| ==> Earlier(outbox, ids[i], ids[j]))
  {
    forall i, j | 0 <= i < j < |ids| ensures Earlier(outbox, ids[i], ids[j]) <==> created[i] <= created[j] {
      IdsSortAsMade(st, nows, ids, i, j);
    }
  }

  lemma EnqueuedEarlier(st: EventIds.Stamp, nows: seq<int>, ids: seq<EventId>, created: seq<int>, outbox: map<EventId, Row>,
                        i: nat, j: nat)
    requires MadeBy(st, nows, ids) && Stamped(outbox, ids, created) && NeverWentBack(created)
    requires i < j < |ids| && ids[i] in outbox && ids[j] in outbox
    ensures Earlier(outbox, ids[i], ids[j]) && !Earlier(outbox, ids[j], ids[i])
  {
    IdsSortAsMade(st, nows, ids, i, j);
    EarlierIsStrict(outbox, ids[i], ids[j]);
  }

  /** A claim holds a process's events in the order it enqueued them. */
  lemma ClaimFollowsEnqueueOrder(st: EventIds.Stamp, nows: seq<int>, ids: seq<EventId>, created: seq<int>,
                                 outbox: map<EventId, Row>, now: int, maxAttempts: nat, batchSize: nat,
                                 locked: set<EventId>, rows: seq<Claimed>, a: nat, b: nat, i: nat, j: nat)
    requires MadeBy(st, nows, ids) && Stamped(outbox, ids, created) && NeverWentBack(created)
    requires IsClaim(outbox, now, maxAttempts, batchSize, locked, rows)
    requires a < b < |rows| && i < |ids| && j < |ids| && rows[a].id == ids[i] && rows[b].id == ids[j]
    ensures i < j
  {
    assert Earlier(outbox, ids[i], ids[j]);
    EarlierIsStrict(outbox, ids[i], ids[j]);
    if j < i {
      EnqueuedEarlier(st, nows, ids, created, outbox, j, i);
    }
  }

  /** A claim that takes an event also takes every earlier one of its process that is due and free. */
  lemma ClaimTakesTheEarliest(st: EventIds.Stamp, nows: seq<int>, ids: seq<EventId>, created: seq<int>,
                              outbox: map<EventId, Row>, now: int, maxAttempts: nat, batchSize: nat,
                              locked: set<EventId>, rows: seq<Claimed>, b: nat, i: nat, j: nat)
    requires MadeBy(st, nows, ids) && Stamped(outbox, ids, created) && NeverWentBack(created)
    requires IsClaim(outbox, now, maxAttempts, batchSize, locked, rows)
    requires i < j < |ids| && b < |rows| && rows[b].id == ids[j]
    requires ids[i] in outbox && ids[i] !in locked && Due(outbox[ids[i]], now, maxAttempts)
    ensures exists a :: 0 <= a < |rows| && rows[a].id == ids[i]
  {
    EnqueuedEarlier(st, nows, ids, created, outbox, i, j);
    assert !Earlier(outbox, rows[b].id, ids[i]);
  }

  /** What a pass adds to the stream comes from its rows. */
  lemma {:induction false} StoredFromClaim(log: seq<Message>, rows: seq<Claimed>, lucks: seq<Luck>, n: nat, clock: nat, window: nat)
    requires n <= |rows| && n <= |lucks|
    ensures log <= Stored(log, rows, lucks, n, clock, window)
    ensures forall p :: |log| <= p < |Stored(log, rows, lucks, n, clock, window)| ==>
              exists k :: 0 <= k < n && Stored(log, rows, lucks, n, clock, window)[p].id == rows[k].id
  {
    if n > 0 {
      StoredFromClaim(log, rows, lucks, n - 1, clock, window);
      var before := Stored(log, rows, lucks, n - 1, clock, window);
      var stored := Stored(log, rows, lucks, n, clock, window);
      forall p | |log| <= p < |stored| ensures exists k :: 0 <= k < n && stored[p].id == rows[k].id {
        if p < |before| {
          var k :| 0 <= k < n - 1 && before[p].id == rows[k].id;
          assert stored[p].id == rows[k].id;
        } else {
          assert stored[p].id == rows[n - 1].id;
        }
      }
    }
  }

  /** And it comes in their order. */
  lemma {:induction false} StoredInClaimOrder(log: seq<Message>, rows: seq<Claimed>, lucks: seq<Luck>, n: nat, clock: nat, window: nat,
                                              p: nat, q: nat, k: nat, l: nat)
    requires n <= |rows| && n <= |lucks|
    requires forall i, j :: 0 <= i < j < |rows| ==> rows[i].id != rows[j].id
    requires |log| <= p < q < |Stored(log, rows, lucks, n, clock, window)| && k < |rows| && l < |rows|
    requires Stored(log, rows, lucks, n, clock, window)[p].id == rows[k].id
    requires Stored(log, rows, lucks, n, clock, window)[q].id == rows[l].id
    ensures k < l
  {
    if n > 0 {
      var before := Stored(log, rows, lucks, n - 1, clock, window);
      if q < |before| {
        StoredInClaimOrder(log, rows, lucks, n - 1, clock, window, p, q, k, l);
      } else {
        assert rows[l].id == rows[n - 1].id;
        StoredFromClaim(log, rows, lucks, n - 1, clock, window);
        var m :| 0 <= m < n - 1 && before[p].id == rows[m].id;
        assert m == k;
      }
    }
  }

  /** One relay pass puts a process's events on the stream in the order the process enqueued them. */
  lemma {:induction false} PassPublishesInEnqueueOrder(st: EventIds.Stamp, nows: seq<int>, ids: seq<EventId>, created: seq<int>,
                                    c: Config, s: State, after: State, wall: int, locked: set<EventId>,
                                    rows: seq<Claimed>, lucks: seq<Luck>, p: nat, q: nat, i: nat, j: nat)
    requires MadeBy(st, nows, ids) && Stamped(s.outbox, ids, created) && NeverWentBack(created)
    requires IsClaim(s.outbox, wall, c.maxAttempts, c.batchSize, locked, rows) && |lucks| == |rows|
    requires SoFar(c, s, after, rows, lucks, wall, Reaches(lucks, 0, |rows|))
    requires |s.log| <= p < q < |after.log|
    requires i < |ids| && j < |ids| && after.log[p].id == ids[i] && after.log[q].id == ids[j]
    ensures i < j
  {
    EventTheorems.ClaimedRowsAreDistinct(s.outbox, wall, c.maxAttempts, c.batchSize, locked, rows);
    var n := Reaches(lucks, 0, |rows|);
    StoredFromClaim(s.log, rows, lucks, n, s.clock, c.duplicateWindowMs);
    var a :| 0 <= a < n && after.log[p].id == rows[a].id;
    var b :| 0 <= b < n && after.log[q].id == rows[b].id;
    StoredInClaimOrder(s.log, rows, lucks, n, s.clock, c.duplicateWindowMs, p, q, a, b);
    ClaimFollowsEnqueueOrder(st, nows, ids, created, s.outbox, wall, c.maxAttempts, c.batchSize, locked, rows, a, b, i, j);
  }
}
