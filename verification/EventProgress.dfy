/**
 When the outbox protocol can come to rest, with every committed event published and acked: exactly
 when no row is parked and no message is terminated or out of deliveries.
 */
module EventProgress {
  import opened Wrappers
  import opened EventProtocol
  import opened EventTheorems

  // ---------- What is stuck ----------

  /** Unpublished, and the claiming query never looks at it again. */
  predicate Parked(c: Config, row: Row) {
    row.publishedAt.None? && row.attempts >= c.maxAttempts
  }

  /** Terminated, or delivered as often as it may be without an ack. */
  predicate Exhausted(c: Config, s: State, consumer: Consumer, index: nat)
    requires consumer in c.consumers
  {
    if (consumer, index) in s.settled then s.settled[(consumer, index)] == Termed
    else DeliveriesOf(s, consumer, index) >= c.consumers[consumer].maxDeliver
  }

  ghost predicate NothingParked(c: Config, outbox: map<EventId, Row>) {
    forall id :: id in outbox ==> !Parked(c, outbox[id])
  }

  ghost predicate NothingExhausted(c: Config, s: State) {
    forall consumer: Consumer, index: nat :: Takes(c.consumers, s.log, consumer, index) ==> !Exhausted(c, s, consumer, index)
  }

  ghost predicate NothingStuck(c: Config, s: State) {
    NothingParked(c, s.outbox) && NothingExhausted(c, s)
  }

  /** Nobody is at work. */
  predicate Quiet(s: State) {
    s.relays == map[] && s.hands == map[]
  }

  ghost predicate CanRest(c: Config, s: State) {
    exists steps :: Runs(c, s, steps) && Drained(c, After(c, s, steps))
  }

  // ---------- Putting runs together ----------

  lemma {:induction false} OneStep(c: Config, s: State, step: Step)
    requires Enabled(c, s, step)
    ensures Runs(c, s, [step]) && After(c, s, [step]) == Next(c, s, step)
  {
    assert [step][1..] == [];
    assert Runs(c, Next(c, s, step), [step][1..]);
  }

  lemma {:induction false} ThreeSteps(c: Config, s: State, a: Step, t: State, b: Step, u: State, d: Step)
    requires Enabled(c, s, a) && t == Next(c, s, a) && Enabled(c, t, b) && u == Next(c, t, b) && Enabled(c, u, d)
    ensures Runs(c, s, [a, b, d]) && After(c, s, [a, b, d]) == Next(c, u, d)
  {
    OneStep(c, u, d);
    OneStep(c, t, b);
    RunsInTurn(c, t, [b], [d]);
    OneStep(c, s, a);
    RunsInTurn(c, s, [a], [b] + [d]);
    assert [a] + ([b] + [d]) == [a, b, d];
  }

  // ---------- Everybody stops ----------

  lemma {:induction false} RelaysStop(c: Config, s: State) returns (steps: seq<Step>)
    ensures Runs(c, s, steps) && After(c, s, steps) == s.(relays := map[])
    decreases |s.relays|
  {
    if s.relays == map[] {
      steps := [];
    } else {
      var relay :| relay in s.relays;
      OneStep(c, s, Relay(relay, Crash));
      var t := s.(relays := s.relays - {relay});
      assert t.relays.Keys == s.relays.Keys - {relay} && |t.relays| == |t.relays.Keys| && |s.relays| == |s.relays.Keys|;
      var more := RelaysStop(c, t);
      RunsInTurn(c, s, [Relay(relay, Crash)], more);
      steps := [Relay(relay, Crash)] + more;
    }
  }

  lemma {:induction false} WorkersStop(c: Config, s: State) returns (steps: seq<Step>)
    ensures Runs(c, s, steps) && After(c, s, steps) == s.(hands := map[])
    decreases |s.hands|
  {
    if s.hands == map[] {
      steps := [];
    } else {
      var worker :| worker in s.hands;
      OneStep(c, s, Worker(worker, Drop));
      var t := s.(hands := s.hands - {worker});
      assert t.hands.Keys == s.hands.Keys - {worker} && |t.hands| == |t.hands.Keys| && |s.hands| == |s.hands.Keys|;
      var more := WorkersStop(c, t);
      RunsInTurn(c, s, [Worker(worker, Drop)], more);
      steps := [Worker(worker, Drop)] + more;
    }
  }

  // ---------- Every row is published ----------

  function Unpublished(outbox: map<EventId, Row>): set<EventId> {
    set id | id in outbox && outbox[id].publishedAt.None?
  }

  function AsClaimed(s: State, id: EventId): Claimed
    requires id in s.outbox
  {
    Claimed(id, s.outbox[id].subject, s.outbox[id].attempts)
  }

  /** The state with this row published and marked. */
  function RowPublished(c: Config, s: State, id: EventId): State
    requires id in s.outbox
  {
    s.(outbox := s.outbox[id := s.outbox[id].(publishedAt := Some(s.outbox[id].nextAttemptAt))],
       log := Publish(s.log, AsClaimed(s, id), s.clock, c.duplicateWindowMs))
  }

  lemma {:induction false} ClaimsOne(c: Config, s: State, id: EventId)
    requires s.relays == map[] && id in s.outbox && s.outbox[id].publishedAt.None? && !Parked(c, s.outbox[id]) && c.batchSize > 0
    ensures var step := Relay(0, Claim(s.outbox[id].nextAttemptAt, s.outbox.Keys - {id}, [AsClaimed(s, id)]));
            Enabled(c, s, step) && Next(c, s, step) == s.(relays := map[0 := Pass([AsClaimed(s, id)], 0, Publishing)])
  {
    assert [AsClaimed(s, id)][0].id == id;
    assert IsClaim(s.outbox, s.outbox[id].nextAttemptAt, c.maxAttempts, c.batchSize, s.outbox.Keys - {id}, [AsClaimed(s, id)]);
  }

  lemma {:induction false} PublishesOneRow(c: Config, s: State, id: EventId) returns (steps: seq<Step>)
    requires s.relays == map[] && id in s.outbox && s.outbox[id].publishedAt.None? && !Parked(c, s.outbox[id]) && c.batchSize > 0
    ensures Runs(c, s, steps) && After(c, s, steps) == RowPublished(c, s, id)
  {
    var wall := s.outbox[id].nextAttemptAt;
    var claim := Relay(0, Claim(wall, s.outbox.Keys - {id}, [AsClaimed(s, id)]));
    ClaimsOne(c, s, id);
    var t := Next(c, s, claim);
    assert Current(t, 0) == AsClaimed(s, id);
    var u := Next(c, t, Relay(0, PublishOk));
    assert Current(u, 0) == AsClaimed(s, id) && u.outbox == s.outbox;
    ThreeSteps(c, s, claim, t, Relay(0, PublishOk), u, Relay(0, Mark(wall)));
    steps := [claim, Relay(0, PublishOk), Relay(0, Mark(wall))];
    assert Next(c, u, Relay(0, Mark(wall))).relays == map[];
  }

  lemma {:induction false} OneFewer(c: Config, s: State, id: EventId)
    requires id in Unpublished(s.outbox) && NothingParked(c, s.outbox)
    ensures Unpublished(RowPublished(c, s, id).outbox) == Unpublished(s.outbox) - {id}
    ensures |Unpublished(s.outbox) - {id}| < |Unpublished(s.outbox)|
    ensures NothingParked(c, RowPublished(c, s, id).outbox)
  {
  }

  lemma {:induction false} PublishesAll(c: Config, s: State) returns (steps: seq<Step>)
    requires s.relays == map[] && NothingParked(c, s.outbox) && c.batchSize > 0
    ensures Runs(c, s, steps)
    ensures var t := After(c, s, steps);
            && Unpublished(t.outbox) == {} && s.log <= t.log
            && t.settled == s.settled && t.deliveries == s.deliveries && t.hands == s.hands
    decreases |Unpublished(s.outbox)|
  {
    if Unpublished(s.outbox) == {} {
      steps := [];
    } else {
      var id :| id in Unpublished(s.outbox);
      var first := PublishesOneRow(c, s, id);
      OneFewer(c, s, id);
      var more := PublishesAll(c, RowPublished(c, s, id));
      RunsInTurn(c, s, first, more);
      steps := first + more;
    }
  }

  // ---------- Every message is handled ----------

  lemma {:induction false} HandlesMessage(c: Config, s: State, consumer: Consumer, index: nat) returns (steps: seq<Step>)
    requires s.hands == map[] && Takes(c.consumers, s.log, consumer, index)
    requires (consumer, index) !in s.settled && !Exhausted(c, s, consumer, index)
    ensures Runs(c, s, steps)
    ensures var t := After(c, s, steps);
            && t.outbox == s.outbox && t.log == s.log && t.hands == map[]
            && t.settled == s.settled[(consumer, index) := Acked]
            && t.deliveries == s.deliveries[(consumer, index) := DeliveriesOf(s, consumer, index) + 1]
  {
    var hand := Hand(consumer, index, DeliveriesOf(s, consumer, index) + 1, Received);
    var t := Next(c, s, Worker(0, Deliver(consumer, index)));
    assert t.hands == map[0 := hand];
    CommittedOnce(c, t, hand);
    ConsumeTouches(c, t, hand);
    var u := Next(c, t, Worker(0, Commit));
    AckedOnce(c, u, hand.(phase := Committed));
    ThreeSteps(c, s, Worker(0, Deliver(consumer, index)), t, Worker(0, Commit), u, Worker(0, Ack));
    steps := [Worker(0, Deliver(consumer, index)), Worker(0, Commit), Worker(0, Ack)];
  }

  lemma {:induction false} ConsumeTouches(c: Config, s: State, hand: Hand)
    requires hand.consumer in c.consumers && hand.index < |s.log|
    ensures var t := Consume(c, s, hand);
            t.outbox == s.outbox && t.log == s.log && t.settled == s.settled && t.deliveries == s.deliveries
  {
  }

  function Pending(c: Config, s: State): set<(Consumer, nat)> {
    set consumer, index | consumer in c.consumers && 0 <= index < |s.log| && s.log[index].subject in c.consumers[consumer].subjects
                          && (consumer, index) !in s.settled :: (consumer, index)
  }

  lemma {:induction false} OneHandled(c: Config, s: State, t: State, key: (Consumer, nat))
    requires key in Pending(c, s) && NothingExhausted(c, s)
    requires t.log == s.log && t.settled == s.settled[key := Acked]
    requires t.deliveries == s.deliveries[key := DeliveriesOf(s, key.0, key.1) + 1]
    ensures Pending(c, t) == Pending(c, s) - {key} && |Pending(c, s) - {key}| < |Pending(c, s)| && NothingExhausted(c, t)
  {
    forall consumer: Consumer, index: nat | Takes(c.consumers, t.log, consumer, index)
      ensures !Exhausted(c, t, consumer, index)
    {
      assert !Exhausted(c, s, consumer, index);
    }
  }

  lemma {:induction false} HandlesAll(c: Config, s: State) returns (steps: seq<Step>)
    requires s.hands == map[] && NothingExhausted(c, s)
    ensures Runs(c, s, steps)
    ensures var t := After(c, s, steps);
            t.outbox == s.outbox && t.log == s.log && Pending(c, t) == {} && NothingExhausted(c, t)
    decreases |Pending(c, s)|
  {
    if Pending(c, s) == {} {
      steps := [];
    } else {
      var key :| key in Pending(c, s);
      var first := HandlesMessage(c, s, key.0, key.1);
      OneHandled(c, s, After(c, s, first), key);
      var more := HandlesAll(c, After(c, s, first));
      RunsInTurn(c, s, first, more);
      steps := first + more;
    }
  }

  lemma {:induction false} NothingPendingIsDrained(c: Config, s: State)
    requires Unpublished(s.outbox) == {} && Pending(c, s) == {} && NothingExhausted(c, s)
    ensures Drained(c, s)
  {
    forall id | id in s.outbox
      ensures s.outbox[id].publishedAt.Some?
    {
      assert id !in Unpublished(s.outbox);
    }
    forall consumer: Consumer, index: nat | Takes(c.consumers, s.log, consumer, index)
      ensures (consumer, index) in s.settled && s.settled[(consumer, index)] == Acked
    {
      assert (consumer, index) !in Pending(c, s);
      assert !Exhausted(c, s, consumer, index);
    }
  }

  // ---------- Main results ----------

  /** Deliveries are of messages that are there. */
  ghost predicate DeliveriesKnown(s: State) {
    forall key :: key in s.deliveries ==> key.1 < |s.log|
  }

  lemma {:induction false} StepKeepsDeliveries(c: Config, s: State, step: Step)
    requires Enabled(c, s, step) && DeliveriesKnown(s)
    ensures DeliveriesKnown(Next(c, s, step))
  {
    match step
    case Relay(relay, act) => RelayKeepsConsumer(c, s, relay, act); RelayKeepsDeliveries(c, s, relay, act);
    case Worker(worker, does) => WorkerKeepsProducer(c, s, worker, does); WorkerKeepsDeliveries(c, s, worker, does);
    case _ =>
  }

  lemma {:induction false} RelayKeepsDeliveries(c: Config, s: State, relay: RelayId, act: RelayStep)
    requires RelayEnabled(c, s, relay, act)
    ensures RelayNext(c, s, relay, act).deliveries == s.deliveries
  {
  }

  lemma {:induction false} WorkerKeepsDeliveries(c: Config, s: State, worker: WorkerId, does: WorkerStep)
    requires WorkerEnabled(c, s, worker, does)
    ensures WorkerNext(c, s, worker, does).deliveries ==
            if does.Deliver? then s.deliveries[(does.consumer, does.index) := DeliveriesOf(s, does.consumer, does.index) + 1]
            else s.deliveries
  {
    match does
    case Commit => ConsumeTouches(c, s, s.hands[worker]);
    case CommitLost => ConsumeTouches(c, s, s.hands[worker]);
    case _ =>
  }

  lemma {:induction false} RunKeepsDeliveries(c: Config, s: State, steps: seq<Step>)
    requires Runs(c, s, steps) && DeliveriesKnown(s)
    ensures DeliveriesKnown(After(c, s, steps))
    decreases |steps|
  {
    if steps != [] {
      StepKeepsDeliveries(c, s, steps[0]);
      RunKeepsDeliveries(c, Next(c, s, steps[0]), steps[1..]);
    }
  }

  /** A message stored later is one nobody has delivered. */
  lemma {:induction false} LongerLogIsFresh(c: Config, s: State, t: State)
    requires NothingExhausted(c, s) && DeliveriesKnown(s) && SettledHonest(c.consumers, s.log, s.inbox, s.settled)
    requires s.log <= t.log && t.settled == s.settled && t.deliveries == s.deliveries
    requires forall consumer :: consumer in c.consumers ==> c.consumers[consumer].maxDeliver > 0
    ensures NothingExhausted(c, t)
  {
    forall consumer: Consumer, index: nat | Takes(c.consumers, t.log, consumer, index)
      ensures !Exhausted(c, t, consumer, index)
    {
      if index < |s.log| {
        assert Takes(c.consumers, s.log, consumer, index);
        assert !Exhausted(c, s, consumer, index);
      } else {
        assert (consumer, index) !in s.settled;
        assert (consumer, index) !in s.deliveries;
      }
    }
  }

  /** From every state in which nothing is stuck, some run publishes every row and acks every message. */
  lemma {:induction false} UnstuckCanRest(c: Config, s: State)
    requires Inv(c, s) && DeliveriesKnown(s) && NothingStuck(c, s) && c.batchSize > 0
    requires forall consumer :: consumer in c.consumers ==> c.consumers[consumer].maxDeliver > 0
    ensures CanRest(c, s)
  {
    var first := RelaysStop(c, s);
    var t := After(c, s, first);
    var second := WorkersStop(c, t);
    RunsInTurn(c, s, first, second);
    var u := After(c, t, second);
    assert u.log == s.log && u.settled == s.settled && u.deliveries == s.deliveries;
    var third := PublishesAll(c, u);
    RunsInTurn(c, s, first + second, third);
    var v := After(c, u, third);
    LongerLogIsFresh(c, s, v);
    var last := HandlesAll(c, v);
    RunsInTurn(c, s, first + second + third, last);
    NothingPendingIsDrained(c, After(c, v, last));
  }

  // ---------- What is stuck stays stuck ----------

  ghost predicate NobodyHasRow(relays: map<RelayId, Pass>, id: EventId) {
    forall relay, i :: relay in relays && 0 <= i < |relays[relay].rows| ==> relays[relay].rows[i].id != id
  }

  ghost predicate StaysParked(c: Config, s: State, id: EventId) {
    id in s.outbox && Parked(c, s.outbox[id]) && NobodyHasRow(s.relays, id)
  }

  ghost predicate NobodyHolds(hands: map<WorkerId, Hand>, key: (Consumer, nat)) {
    forall worker :: worker in hands ==> (hands[worker].consumer, hands[worker].index) != key
  }

  /** Terminated, or out of deliveries with nobody holding the message. */
  ghost predicate StaysExhausted(c: Config, s: State, key: (Consumer, nat)) {
    && Takes(c.consumers, s.log, key.0, key.1) && Exhausted(c, s, key.0, key.1)
    && (key !in s.settled ==> NobodyHolds(s.hands, key))
  }

  lemma {:induction false} ClaimLeavesParked(c: Config, s: State, relay: RelayId, act: RelayStep, id: EventId)
    requires RelayEnabled(c, s, relay, act) && act.Claim? && StaysParked(c, s, id)
    ensures StaysParked(c, RelayNext(c, s, relay, act), id)
  {
  }

  lemma {:induction false} RelayLeavesParked(c: Config, s: State, relay: RelayId, act: RelayStep, id: EventId)
    requires RelayEnabled(c, s, relay, act) && StaysParked(c, s, id)
    ensures StaysParked(c, RelayNext(c, s, relay, act), id)
  {
    match act
    case Claim(_, _, _) => ClaimLeavesParked(c, s, relay, act, id);
    case Mark(_) => assert Current(s, relay).id != id;
    case MarkLost(_) => assert Current(s, relay).id != id;
    case RecordFailure(_) => assert Current(s, relay).id != id;
    case _ =>
  }

  lemma {:induction false} StepLeavesParked(c: Config, s: State, step: Step, id: EventId)
    requires Enabled(c, s, step) && StaysParked(c, s, id)
    ensures StaysParked(c, Next(c, s, step), id)
  {
    match step
    case Relay(relay, act) => RelayLeavesParked(c, s, relay, act, id);
    case Worker(worker, does) => WorkerKeepsProducer(c, s, worker, does);
    case _ =>
  }

  /** What a worker's step does to settlements and hands, the database aside. */
  lemma {:induction false} WorkerSettles(c: Config, s: State, worker: WorkerId, does: WorkerStep, key: (Consumer, nat))
    requires WorkerEnabled(c, s, worker, does)
    ensures var t := WorkerNext(c, s, worker, does);
            && (key in s.settled ==> key in t.settled && t.settled[key] == s.settled[key])
            && (key !in s.settled && NobodyHolds(s.hands, key) ==> key !in t.settled)
  {
    match does
    case Commit => ConsumeTouches(c, s, s.hands[worker]);
    case CommitLost => ConsumeTouches(c, s, s.hands[worker]);
    case _ =>
  }

  lemma {:induction false} WorkerTakesUp(c: Config, s: State, worker: WorkerId, does: WorkerStep, key: (Consumer, nat))
    requires WorkerEnabled(c, s, worker, does) && NobodyHolds(s.hands, key)
    requires does.Deliver? ==> (does.consumer, does.index) != key
    ensures NobodyHolds(WorkerNext(c, s, worker, does).hands, key)
  {
    match does
    case Commit => ConsumeAside(c, s, s.hands[worker], s.deliveries, s.hands);
    case CommitLost => ConsumeAside(c, s, s.hands[worker], s.deliveries, s.hands);
    case _ =>
  }

  lemma {:induction false} StepLeavesExhausted(c: Config, s: State, step: Step, key: (Consumer, nat))
    requires Enabled(c, s, step) && StaysExhausted(c, s, key)
    ensures StaysExhausted(c, Next(c, s, step), key)
  {
    match step
    case Relay(relay, act) =>
      RelayKeepsConsumer(c, s, relay, act);
      RelayKeepsDeliveries(c, s, relay, act);
    case Worker(worker, does) =>
      WorkerKeepsProducer(c, s, worker, does);
      WorkerKeepsDeliveries(c, s, worker, does);
      WorkerSettles(c, s, worker, does, key);
      if key !in s.settled {
        WorkerTakesUp(c, s, worker, does, key);
      }
    case _ =>
  }

  lemma {:induction false} ParkedNeverDrains(c: Config, s: State, steps: seq<Step>, id: EventId)
    requires Runs(c, s, steps) && StaysParked(c, s, id)
    ensures !Drained(c, After(c, s, steps))
    decreases |steps|
  {
    if steps != [] {
      StepLeavesParked(c, s, steps[0], id);
      ParkedNeverDrains(c, Next(c, s, steps[0]), steps[1..], id);
    }
  }

  lemma {:induction false} ExhaustedNeverDrains(c: Config, s: State, steps: seq<Step>, key: (Consumer, nat))
    requires Runs(c, s, steps) && StaysExhausted(c, s, key)
    ensures !Drained(c, After(c, s, steps))
    decreases |steps|
  {
    if steps != [] {
      StepLeavesExhausted(c, s, steps[0], key);
      ExhaustedNeverDrains(c, Next(c, s, steps[0]), steps[1..], key);
    } else {
      assert Takes(c.consumers, s.log, key.0, key.1);
    }
  }

  lemma {:induction false} StuckNeverRests(c: Config, s: State)
    requires Quiet(s) && !NothingStuck(c, s)
    ensures !CanRest(c, s)
  {
    forall steps | Runs(c, s, steps)
      ensures !Drained(c, After(c, s, steps))
    {
      if !NothingParked(c, s.outbox) {
        var id :| id in s.outbox && Parked(c, s.outbox[id]);
        ParkedNeverDrains(c, s, steps, id);
      } else {
        var consumer: Consumer, index: nat :| Takes(c.consumers, s.log, consumer, index) && Exhausted(c, s, consumer, index);
        ExhaustedNeverDrains(c, s, steps, (consumer, index));
      }
    }
  }

  /**
   After any run, with nobody at work: things can still come to rest, every event published and acked
   by whoever takes it, exactly when no row is parked and no message is terminated or out of deliveries.
   */
  lemma {:induction false} RestIffNothingStuck(c: Config, steps: seq<Step>)
    requires Runs(c, Start(), steps) && Quiet(End(c, steps)) && c.batchSize > 0
    requires forall consumer :: consumer in c.consumers ==> c.consumers[consumer].maxDeliver > 0
    ensures CanRest(c, End(c, steps)) <==> NothingStuck(c, End(c, steps))
  {
    RunKeepsInv(c, Start(), steps);
    RunKeepsDeliveries(c, Start(), steps);
    if NothingStuck(c, End(c, steps)) {
      UnstuckCanRest(c, End(c, steps));
    } else {
      StuckNeverRests(c, End(c, steps));
    }
  }

  /** With work in progress, it is enough that nothing is stuck. */
  lemma {:induction false} UnstuckRunsCanRest(c: Config, steps: seq<Step>)
    requires Runs(c, Start(), steps) && NothingStuck(c, End(c, steps)) && c.batchSize > 0
    requires forall consumer :: consumer in c.consumers ==> c.consumers[consumer].maxDeliver > 0
    ensures CanRest(c, End(c, steps))
  {
    RunKeepsInv(c, Start(), steps);
    RunKeepsDeliveries(c, Start(), steps);
    UnstuckCanRest(c, End(c, steps));
  }
}
