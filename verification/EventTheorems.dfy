/** What the outbox protocol promises over whole runs. */
module EventTheorems {
  import opened Wrappers
  import opened EventProtocol

  ghost function End(c: Config, steps: seq<Step>): State
    requires Runs(c, Start(), steps)
  {
    After(c, Start(), steps)
  }

  // ---------- No event is lost ----------

  /** In every reachable state each event is an unpublished row or on the stream. */
  lemma NoEventLost(c: Config, steps: seq<Step>, id: EventId)
    requires Runs(c, Start(), steps) && id in End(c, steps).enqueued
    ensures var s := End(c, steps);
            (id in s.outbox && s.outbox[id].publishedAt.None?) || OnLog(s.log, id)
  {
    RunKeepsInv(c, Start(), steps);
  }

  /** What a relay does to the outbox: rows stay, and a published one stays published. */
  lemma RelayKeepsRows(c: Config, s: State, relay: RelayId, act: RelayStep)
    requires RelayEnabled(c, s, relay, act)
    ensures RelayNext(c, s, relay, act).outbox.Keys == s.outbox.Keys
    ensures forall id :: id in s.outbox && s.outbox[id].publishedAt.Some? ==>
              RelayNext(c, s, relay, act).outbox[id].publishedAt.Some?
  {
    match act
    case Mark(_) =>
    case MarkLost(_) =>
    case RecordFailure(_) =>
    case _ =>
  }

  lemma WorkerKeepsProducer(c: Config, s: State, worker: WorkerId, does: WorkerStep)
    requires WorkerEnabled(c, s, worker, does)
    ensures var t := WorkerNext(c, s, worker, does);
            t.outbox == s.outbox && t.log == s.log && t.relays == s.relays
            && t.enqueued == s.enqueued && t.clock == s.clock
  {
    match does
    case Commit => ConsumeKeepsTheRest(c, s, s.hands[worker]);
    case CommitLost => ConsumeKeepsTheRest(c, s, s.hands[worker]);
    case Deliver(_, _) =>
    case OffContract =>
    case HandlerFails =>
    case Ack =>
    case GiveBack =>
    case Drop =>
  }

  lemma ConsumeKeepsTheRest(c: Config, s: State, hand: Hand)
    requires hand.consumer in c.consumers && hand.index < |s.log|
    ensures var t := Consume(c, s, hand);
            && t.outbox == s.outbox && t.log == s.log && t.relays == s.relays && t.enqueued == s.enqueued && t.clock == s.clock
            && s.work <= t.work && forall key :: key in s.inbox ==> key in t.inbox && t.inbox[key] == s.inbox[key]
  {
  }

  lemma RelayKeepsConsumer(c: Config, s: State, relay: RelayId, act: RelayStep)
    requires RelayEnabled(c, s, relay, act)
    ensures var t := RelayNext(c, s, relay, act);
            s.log <= t.log && t.inbox == s.inbox && t.work == s.work
            && t.hands == s.hands && t.settled == s.settled && t.enqueued == s.enqueued
  {
  }

  lemma OnlyPurgeRemovesRows(c: Config, s: State, step: Step, id: EventId)
    requires Enabled(c, s, step) && id in s.outbox && id !in Next(c, s, step).outbox
    ensures step.Purge? && Expired(s.outbox[id], step.wall, c.retentionMs)
  {
    match step
    case Relay(relay, act) => RelayKeepsRows(c, s, relay, act);
    case Worker(worker, does) => WorkerKeepsProducer(c, s, worker, does);
    case _ =>
  }

  /** A row leaves the outbox only when a purge removes it, published, with its event on the stream. */
  lemma RowsLeaveDelivered(c: Config, steps: seq<Step>, step: Step, id: EventId)
    requires Runs(c, Start(), steps) && Enabled(c, End(c, steps), step)
    requires id in End(c, steps).outbox && id !in Next(c, End(c, steps), step).outbox
    ensures step.Purge? && End(c, steps).outbox[id].publishedAt.Some? && OnLog(End(c, steps).log, id)
  {
    OnlyPurgeRemovesRows(c, End(c, steps), step, id);
    RunKeepsInv(c, Start(), steps);
  }

  /** `published_at` never goes back to null on a row that stays. */
  lemma PublishedStaysPublished(c: Config, s: State, step: Step, id: EventId)
    requires Enabled(c, s, step)
    requires id in s.outbox && s.outbox[id].publishedAt.Some? && id in Next(c, s, step).outbox
    ensures Next(c, s, step).outbox[id].publishedAt.Some?
  {
    match step
    case Relay(relay, act) => RelayKeepsRows(c, s, relay, act);
    case Worker(worker, does) => WorkerKeepsProducer(c, s, worker, does);
    case _ =>
  }

  lemma WorkerKeepsHistory(c: Config, s: State, worker: WorkerId, does: WorkerStep)
    requires WorkerEnabled(c, s, worker, does)
    ensures s.work <= WorkerNext(c, s, worker, does).work
    ensures forall key :: key in s.inbox ==>
              key in WorkerNext(c, s, worker, does).inbox
              && WorkerNext(c, s, worker, does).inbox[key] == s.inbox[key]
  {
    match does
    case Commit => ConsumeKeepsTheRest(c, s, s.hands[worker]);
    case CommitLost => ConsumeKeepsTheRest(c, s, s.hands[worker]);
    case _ =>
  }

  lemma StepKeepsHistory(c: Config, s: State, step: Step)
    requires Enabled(c, s, step)
    ensures s.log <= Next(c, s, step).log && s.work <= Next(c, s, step).work
    ensures forall key :: key in s.inbox ==>
              key in Next(c, s, step).inbox && Next(c, s, step).inbox[key] == s.inbox[key]
  {
    match step
    case Relay(relay, act) => RelayKeepsConsumer(c, s, relay, act);
    case Worker(worker, does) =>
      WorkerKeepsHistory(c, s, worker, does);
      WorkerKeepsProducer(c, s, worker, does);
    case _ =>
  }

  /** The stream log, the committed work and the inbox only grow, whatever the run. */
  lemma {:induction false} HistoryOnlyGrows(c: Config, s: State, steps: seq<Step>)
    requires Runs(c, s, steps)
    ensures s.log <= After(c, s, steps).log
    ensures s.work <= After(c, s, steps).work
    ensures forall key :: key in s.inbox ==> key in After(c, s, steps).inbox
                                              && After(c, s, steps).inbox[key] == s.inbox[key]
    decreases |steps|
  {
    if steps != [] {
      var t := Next(c, s, steps[0]);
      StepKeepsHistory(c, s, steps[0]);
      HistoryOnlyGrows(c, t, steps[1..]);
    }
  }

  /** Two copies of one event on the stream are at least a duplicate window apart. */
  lemma CopiesAreAWindowApart(c: Config, steps: seq<Step>, i: nat, j: nat)
    requires Runs(c, Start(), steps)
    requires i < j < |End(c, steps).log| && End(c, steps).log[i].id == End(c, steps).log[j].id
    ensures End(c, steps).log[i].at + c.duplicateWindowMs <= End(c, steps).log[j].at
  {
    RunKeepsInv(c, Start(), steps);
  }

  // ---------- Handled once ----------

  /** Whatever is published twice or redelivered, a database commits an event's work at most once. */
  lemma HandledAtMostOnce(c: Config, steps: seq<Step>, db: Db, id: EventId)
    requires Runs(c, Start(), steps)
    ensures TimesDone(End(c, steps).work, db, id) <= 1
  {
    RunKeepsInv(c, Start(), steps);
  }

  /** An acked message's event has its work committed exactly once in its consumer's database. */
  lemma AckedIsHandledOnce(c: Config, steps: seq<Step>, consumer: Consumer, index: nat)
    requires Runs(c, Start(), steps)
    requires (consumer, index) in End(c, steps).settled && End(c, steps).settled[(consumer, index)] == Acked
    ensures Takes(c.consumers, End(c, steps).log, consumer, index)
    ensures TimesDone(End(c, steps).work, c.consumers[consumer].db, End(c, steps).log[index].id) == 1
  {
    RunKeepsInv(c, Start(), steps);
    assert Recorded(c.consumers, End(c, steps).log, End(c, steps).inbox, consumer, index);
  }

  /** No two consumers of one database take the same subject. */
  ghost predicate SubjectsDisjoint(c: Config) {
    forall a, b :: a in c.consumers && b in c.consumers && a != b && c.consumers[a].db == c.consumers[b].db ==>
      c.consumers[a].subjects !! c.consumers[b].subjects
  }

  /** In this run, whatever a consumer acked, that same consumer did. */
  ghost predicate AckedIsOwnWork(c: Config, steps: seq<Step>)
    requires Runs(c, Start(), steps)
  {
    var s := End(c, steps);
    forall consumer, index ::
      (consumer, index) in s.settled && s.settled[(consumer, index)] == Acked ==>
        Takes(c.consumers, s.log, consumer, index)
        && Work(c.consumers[consumer].db, consumer, s.log[index].id) in s.work
  }

  lemma {:induction false} DoneHasAWitness(work: seq<Work>, db: Db, id: EventId)
    requires TimesDone(work, db, id) > 0
    ensures exists k :: 0 <= k < |work| && work[k].db == db && work[k].id == id
  {
    var last := work[|work| - 1];
    if last.db != db || last.id != id {
      DoneHasAWitness(work[..|work| - 1], db, id);
      var k :| 0 <= k < |work| - 1 && work[..|work| - 1][k].db == db && work[..|work| - 1][k].id == id;
      assert work[k].db == db;
    }
  }

  /** With disjoint subjects, the inbox names the one consumer that takes the event there. */
  lemma InboxIsOwn(c: Config, s: State, consumer: Consumer, index: nat)
    requires Inv(c, s) && SubjectsDisjoint(c) && Recorded(c.consumers, s.log, s.inbox, consumer, index)
    ensures Work(c.consumers[consumer].db, consumer, s.log[index].id) in s.work
  {
    var db, id := c.consumers[consumer].db, s.log[index].id;
    assert TimesDone(s.work, db, id) == 1;
    DoneHasAWitness(s.work, db, id);
    var k :| 0 <= k < |s.work| && s.work[k].db == db && s.work[k].id == id;
    var other := s.inbox[(db, id)];
    assert s.log[index].subject == s.enqueued[id];
    assert s.enqueued[id] in c.consumers[other].subjects && s.enqueued[id] in c.consumers[consumer].subjects;
    assert other == consumer;
    assert s.work[k] == Work(db, consumer, id);
  }

  lemma DisjointAckedIsOwnWork(c: Config, steps: seq<Step>)
    requires Runs(c, Start(), steps) && SubjectsDisjoint(c)
    ensures AckedIsOwnWork(c, steps)
  {
    RunKeepsInv(c, Start(), steps);
    var s := End(c, steps);
    forall consumer, index | (consumer, index) in s.settled && s.settled[(consumer, index)] == Acked
      ensures Takes(c.consumers, s.log, consumer, index)
      ensures Work(c.consumers[consumer].db, consumer, s.log[index].id) in s.work
    {
      InboxIsOwn(c, s, consumer, index);
    }
  }

  lemma OneMore(c: Config, steps: seq<Step>, step: Step)
    requires Runs(c, Start(), steps) && Enabled(c, End(c, steps), step)
    ensures Runs(c, Start(), steps + [step])
    ensures End(c, steps + [step]) == Next(c, End(c, steps), step)
  {
    assert [step][1..] == [];
    assert Runs(c, Next(c, End(c, steps), step), [step][1..]);
    RunsInTurn(c, Start(), steps, [step]);
  }

  /** One event of the subject, published and marked. */
  lemma PublishesOne(c: Config, subject: Subject) returns (steps: seq<Step>)
    requires c.batchSize > 0 && c.maxAttempts > 0
    ensures Runs(c, Start(), steps)
    ensures End(c, steps) == Start().(
      outbox := map["e" := Row(subject, 0, Some(0), 0, 0)],
      enqueued := map["e" := subject],
      log := [Message("e", subject, 0)])
  {
    var row := Claimed("e", subject, 0);
    steps := [];
    var s := Start();
    OneMore(c, steps, Enqueue("e", subject, 0));
    steps := steps + [Enqueue("e", subject, 0)];
    s := End(c, steps);
    assert IsClaim(s.outbox, 0, c.maxAttempts, c.batchSize, {}, [row]) by {
      assert [row][0].id == "e";
    }
    OneMore(c, steps, Relay(0, Claim(0, {}, [row])));
    steps := steps + [Relay(0, Claim(0, {}, [row]))];
    OneMore(c, steps, Relay(0, PublishOk));
    steps := steps + [Relay(0, PublishOk)];
    OneMore(c, steps, Relay(0, Mark(0)));
    steps := steps + [Relay(0, Mark(0))];
    s := End(c, steps);
    assert s.relays == map[];
    assert s.outbox == map["e" := Row(subject, 0, Some(0), 0, 0)];
  }

  lemma Delivered(c: Config, s: State, consumer: Consumer)
    requires s.hands == map[] && Takes(c.consumers, s.log, consumer, 0) && c.consumers[consumer].maxDeliver > 0
    requires (consumer, 0) !in s.settled && (consumer, 0) !in s.deliveries
    ensures Enabled(c, s, Worker(0, Deliver(consumer, 0)))
    ensures Next(c, s, Worker(0, Deliver(consumer, 0)))
            == s.(deliveries := s.deliveries[(consumer, 0) := 1], hands := map[0 := Hand(consumer, 0, 1, Received)])
  {
  }

  lemma CommittedOnce(c: Config, s: State, hand: Hand)
    requires s.hands == map[0 := hand] && hand.phase == Received
    requires hand.consumer in c.consumers && hand.index < |s.log|
    ensures Enabled(c, s, Worker(0, Commit))
    ensures Next(c, s, Worker(0, Commit)) == Consume(c, s, hand).(hands := map[0 := hand.(phase := Committed)])
  {
    var t := Consume(c, s, hand);
    assert t.hands == s.hands;
    assert s.hands[0 := hand.(phase := Committed)] == map[0 := hand.(phase := Committed)];
    assert Next(c, s, Worker(0, Commit)) == HandTo(t, 0, Committed);
  }

  lemma AckedOnce(c: Config, s: State, hand: Hand)
    requires s.hands == map[0 := hand] && hand.phase == Committed && (hand.consumer, hand.index) !in s.settled
    ensures Enabled(c, s, Worker(0, Ack))
    ensures Next(c, s, Worker(0, Ack))
            == s.(settled := s.settled[(hand.consumer, hand.index) := Acked], hands := map[])
  {
    assert s.hands - {0} == map[];
  }

  /** A message received, with nothing else in hand, goes on to be committed and acked. */
  lemma CommitsAndAcks(c: Config, steps: seq<Step>, s: State, hand: Hand) returns (more: seq<Step>)
    requires Runs(c, Start(), steps) && s == End(c, steps)
    requires s.hands == map[0 := hand] && hand.phase == Received && (hand.consumer, hand.index) !in s.settled
    requires hand.consumer in c.consumers && hand.index < |s.log|
    ensures Runs(c, Start(), more)
    ensures End(c, more) == Consume(c, s, hand).(settled := s.settled[(hand.consumer, hand.index) := Acked], hands := map[])
  {
    CommittedOnce(c, s, hand);
    OneMore(c, steps, Worker(0, Commit));
    var t := Next(c, s, Worker(0, Commit));
    AckedOnce(c, t, hand.(phase := Committed));
    OneMore(c, steps + [Worker(0, Commit)], Worker(0, Ack));
    more := steps + [Worker(0, Commit)] + [Worker(0, Ack)];
  }

  lemma ConsumeAside(c: Config, s: State, hand: Hand, deliveries: map<(Consumer, nat), nat>, hands: map<WorkerId, Hand>)
    requires hand.consumer in c.consumers && hand.index < |s.log|
    ensures Consume(c, s.(deliveries := deliveries, hands := hands), hand) == Consume(c, s, hand).(deliveries := deliveries, hands := hands)
    ensures Consume(c, s, hand).hands == s.hands
  {
  }

  /** A delivery handled to the end: received, committed, acked. */
  lemma HandlesOne(c: Config, steps: seq<Step>, consumer: Consumer) returns (more: seq<Step>)
    requires Runs(c, Start(), steps) && End(c, steps).hands == map[]
    requires Takes(c.consumers, End(c, steps).log, consumer, 0) && c.consumers[consumer].maxDeliver > 0
    requires (consumer, 0) !in End(c, steps).settled && (consumer, 0) !in End(c, steps).deliveries
    ensures Runs(c, Start(), more)
    ensures var s := End(c, steps);
            End(c, more) == Consume(c, s, Hand(consumer, 0, 1, Received)).(
              deliveries := s.deliveries[(consumer, 0) := 1],
              settled := s.settled[(consumer, 0) := Acked])
  {
    var s := End(c, steps);
    var hand := Hand(consumer, 0, 1, Received);
    Delivered(c, s, consumer);
    OneMore(c, steps, Worker(0, Deliver(consumer, 0)));
    var t := Next(c, s, Worker(0, Deliver(consumer, 0)));
    more := CommitsAndAcks(c, steps + [Worker(0, Deliver(consumer, 0))], t, hand);
    ConsumeAside(c, s, hand, t.deliveries, t.hands);
  }

  /** Two consumers of one database on one subject: the second acks an event it never handled. */
  lemma OverlapLosesWork(c: Config, a: Consumer, b: Consumer, subject: Subject) returns (steps: seq<Step>)
    requires c.batchSize > 0 && c.maxAttempts > 0
    requires a in c.consumers && b in c.consumers && a != b && c.consumers[a].db == c.consumers[b].db
    requires subject in c.consumers[a].subjects && subject in c.consumers[b].subjects
    requires c.consumers[a].maxDeliver > 0 && c.consumers[b].maxDeliver > 0
    ensures Runs(c, Start(), steps) && !AckedIsOwnWork(c, steps)
  {
    var published := PublishesOne(c, subject);
    var once := HandlesOne(c, published, a);
    assert End(c, once).work == [Work(c.consumers[a].db, a, "e")];
    steps := HandlesOne(c, once, b);
    var s := End(c, steps);
    assert s.work == [Work(c.consumers[a].db, a, "e")];
    assert (b, 0) in s.settled && s.settled[(b, 0)] == Acked;
    assert Work(c.consumers[b].db, b, "e") !in s.work;
  }

  /**
   The inbox is keyed by event id alone, so in every run an ack stands for the consumer's own work
   exactly when consumers that share a database share no subject.
   */
  lemma OwnWorkExactlyWhenDisjoint(c: Config)
    requires c.batchSize > 0 && c.maxAttempts > 0
    requires forall consumer :: consumer in c.consumers ==> c.consumers[consumer].maxDeliver > 0
    ensures SubjectsDisjoint(c) <==> (forall steps :: Runs(c, Start(), steps) ==> AckedIsOwnWork(c, steps))
  {
    if SubjectsDisjoint(c) {
      forall steps | Runs(c, Start(), steps) ensures AckedIsOwnWork(c, steps) {
        DisjointAckedIsOwnWork(c, steps);
      }
    } else {
      var a, b :| a in c.consumers && b in c.consumers && a != b
                  && c.consumers[a].db == c.consumers[b].db
                  && !(c.consumers[a].subjects !! c.consumers[b].subjects);
      var subject :| subject in c.consumers[a].subjects && subject in c.consumers[b].subjects;
      var steps := OverlapLosesWork(c, a, b, subject);
    }
  }

  // ---------- Handled exactly once, end to end ----------

  /** Nothing is waiting: no unpublished row, and every consumer acked whatever it takes. */
  ghost predicate Drained(c: Config, s: State) {
    && (forall id :: id in s.outbox ==> s.outbox[id].publishedAt.Some?)
    && (forall consumer: Consumer, index: nat :: Takes(c.consumers, s.log, consumer, index) ==>
          (consumer, index) in s.settled && s.settled[(consumer, index)] == Acked)
  }

  /**
   Whenever a run comes to rest, every committed event has been handled exactly once in the database
   of every consumer that takes it, and by that consumer.
   */
  lemma DrainedIsExactlyOnce(c: Config, steps: seq<Step>, consumer: Consumer, id: EventId)
    requires Runs(c, Start(), steps) && Drained(c, End(c, steps)) && SubjectsDisjoint(c)
    requires consumer in c.consumers
    requires id in End(c, steps).enqueued && End(c, steps).enqueued[id] in c.consumers[consumer].subjects
    ensures TimesDone(End(c, steps).work, c.consumers[consumer].db, id) == 1
    ensures Work(c.consumers[consumer].db, consumer, id) in End(c, steps).work
  {
    RunKeepsInv(c, Start(), steps);
    NoEventLost(c, steps, id);
    var s := End(c, steps);
    var index :| 0 <= index < |s.log| && s.log[index].id == id;
    assert Takes(c.consumers, s.log, consumer, index);
    AckedIsHandledOnce(c, steps, consumer, index);
    InboxIsOwn(c, s, consumer, index);
  }

  // ---------- The attempts counter ----------

  /** What the only relay read about the rows still ahead of it is no lower than what they say. */
  ghost predicate ReadsFresh(s: State, relay: RelayId) {
    relay in s.relays ==>
      forall i :: s.relays[relay].at <= i < |s.relays[relay].rows| && s.relays[relay].rows[i].id in s.outbox ==>
        s.outbox[s.relays[relay].rows[i].id].attempts <= s.relays[relay].rows[i].attempts
  }

  ghost predicate OnlyRelay(s: State, relay: RelayId) {
    forall r :: r in s.relays ==> r == relay
  }

  ghost predicate DistinctRows(s: State, relay: RelayId) {
    relay in s.relays ==>
      forall i, j :: 0 <= i < j < |s.relays[relay].rows| ==> s.relays[relay].rows[i].id != s.relays[relay].rows[j].id
  }

  lemma ClaimedRowsAreDistinct(outbox: map<EventId, Row>, wall: int, maxAttempts: nat, batchSize: nat,
                               locked: set<EventId>, rows: seq<Claimed>)
    requires IsClaim(outbox, wall, maxAttempts, batchSize, locked, rows)
    ensures forall i, j :: 0 <= i < j < |rows| ==> rows[i].id != rows[j].id
  {
    forall i, j | 0 <= i < j < |rows| ensures rows[i].id != rows[j].id {
      assert Earlier(outbox, rows[i].id, rows[j].id);
      if rows[i].id == rows[j].id {
        Text.LessIsStrict(rows[i].id, rows[j].id);
      }
    }
  }

  /** What a sole relay's reads rest on: it is the only one, on distinct rows, and they are fresh. */
  ghost predicate SoleRelay(s: State, relay: RelayId) {
    OnlyRelay(s, relay) && DistinctRows(s, relay) && ReadsFresh(s, relay)
  }

  /** Steps of no other relay. */
  predicate ByRelay(step: Step, relay: RelayId) {
    step.Relay? ==> step.relay == relay
  }

  lemma RelayStaysSole(c: Config, s: State, relay: RelayId, act: RelayStep)
    requires RelayEnabled(c, s, relay, act) && SoleRelay(s, relay)
    ensures SoleRelay(RelayNext(c, s, relay, act), relay)
  {
    match act
    case Claim(wall, locked, rows) =>
      ClaimedRowsAreDistinct(s.outbox, wall, c.maxAttempts, c.batchSize, locked, rows);
    case Mark(_) => assert s.relays[relay].rows[s.relays[relay].at] == Current(s, relay);
    case MarkLost(_) => assert s.relays[relay].rows[s.relays[relay].at] == Current(s, relay);
    case RecordFailure(_) => assert s.relays[relay].rows[s.relays[relay].at] == Current(s, relay);
    case _ =>
  }

  lemma RelayNeverLowersAttempts(c: Config, s: State, relay: RelayId, act: RelayStep)
    requires RelayEnabled(c, s, relay, act) && SoleRelay(s, relay)
    ensures forall id :: id in s.outbox ==>
              id in RelayNext(c, s, relay, act).outbox
              && s.outbox[id].attempts <= RelayNext(c, s, relay, act).outbox[id].attempts
  {
    match act
    case RecordFailure(_) => assert s.relays[relay].rows[s.relays[relay].at] == Current(s, relay);
    case _ =>
  }

  lemma SoleRelayStep(c: Config, s: State, step: Step, relay: RelayId)
    requires Enabled(c, s, step) && ByRelay(step, relay) && SoleRelay(s, relay)
    ensures SoleRelay(Next(c, s, step), relay)
    ensures forall id :: id in s.outbox && id in Next(c, s, step).outbox ==>
              s.outbox[id].attempts <= Next(c, s, step).outbox[id].attempts
  {
    match step
    case Relay(r, act) =>
      RelayStaysSole(c, s, r, act);
      RelayNeverLowersAttempts(c, s, r, act);
    case Worker(worker, does) => WorkerKeepsProducer(c, s, worker, does);
    case _ =>
  }

  /** While one relay works alone, no step of a run lowers a row's attempts, so back-off only grows. */
  lemma {:induction false} SoleRelayNeverLowersAttempts(c: Config, s: State, steps: seq<Step>, step: Step, relay: RelayId)
    requires Runs(c, s, steps) && SoleRelay(s, relay) && forall i :: 0 <= i < |steps| ==> ByRelay(steps[i], relay)
    requires Enabled(c, After(c, s, steps), step) && ByRelay(step, relay)
    ensures forall id :: id in After(c, s, steps).outbox && id in Next(c, After(c, s, steps), step).outbox ==>
              After(c, s, steps).outbox[id].attempts <= Next(c, After(c, s, steps), step).outbox[id].attempts
    decreases |steps|
  {
    if steps == [] {
      SoleRelayStep(c, s, step, relay);
    } else {
      SoleRelayStep(c, s, steps[0], relay);
      SoleRelayNeverLowersAttempts(c, Next(c, s, steps[0]), steps[1..], step, relay);
    }
  }

  lemma ClaimsTheOnlyRow(c: Config, s: State, relay: RelayId, wall: int, row: Row)
    requires relay !in s.relays && c.batchSize > 0 && s.outbox == map["e" := row] && Due(row, wall, c.maxAttempts)
    ensures var step := Relay(relay, Claim(wall, {}, [Claimed("e", row.subject, row.attempts)]));
            && Enabled(c, s, step)
            && Next(c, s, step) == s.(relays := s.relays[relay := Pass([Claimed("e", row.subject, row.attempts)], 0, Publishing)])
  {
    var claimed := Claimed("e", row.subject, row.attempts);
    assert IsClaim(s.outbox, wall, c.maxAttempts, c.batchSize, {}, [claimed]) by {
      assert [claimed][0].id == "e";
    }
  }

  lemma RefusedAtTheRow(c: Config, s: State, relay: RelayId, claimed: Claimed)
    requires relay in s.relays && s.relays[relay] == Pass([claimed], 0, Publishing)
    ensures Enabled(c, s, Relay(relay, PublishRefused))
    ensures Next(c, s, Relay(relay, PublishRefused)) == s.(relays := s.relays[relay := Pass([claimed], 0, Failing)])
  {
  }

  lemma RecordsTheFailure(c: Config, s: State, relay: RelayId, wall: int, row: Row, claimed: Claimed)
    requires relay in s.relays && s.relays[relay] == Pass([claimed], 0, Failing)
    requires s.outbox == map["e" := row] && claimed.id == "e"
    ensures Enabled(c, s, Relay(relay, RecordFailure(wall)))
    ensures Next(c, s, Relay(relay, RecordFailure(wall))) == s.(
              outbox := map["e" := row.(attempts := claimed.attempts + 1, nextAttemptAt := wall + BackoffMs(claimed.attempts + 1))],
              relays := s.relays - {relay})
  {
    assert Current(s, relay) == claimed;
    var failed := row.(attempts := claimed.attempts + 1, nextAttemptAt := wall + BackoffMs(claimed.attempts + 1));
    assert s.outbox["e" := failed] == map["e" := failed];
  }

  /** One relay claims the only row, fails to publish it and counts the failure. */
  lemma FailsOnce(c: Config, steps: seq<Step>, s: State, relay: RelayId, wall: int, row: Row) returns (more: seq<Step>)
    requires Runs(c, Start(), steps) && s == End(c, steps) && relay !in s.relays && c.batchSize > 0
    requires s.outbox == map["e" := row] && Due(row, wall, c.maxAttempts)
    ensures Runs(c, Start(), more)
    ensures End(c, more) == s.(outbox := map["e" := row.(attempts := row.attempts + 1, nextAttemptAt := wall + BackoffMs(row.attempts + 1))])
  {
    var claimed := Claimed("e", row.subject, row.attempts);
    ClaimsTheOnlyRow(c, s, relay, wall, row);
    OneMore(c, steps, Relay(relay, Claim(wall, {}, [claimed])));
    more := steps + [Relay(relay, Claim(wall, {}, [claimed]))];
    var t := End(c, more);
    RefusedAtTheRow(c, t, relay, claimed);
    OneMore(c, more, Relay(relay, PublishRefused));
    more := more + [Relay(relay, PublishRefused)];
    var u := End(c, more);
    RecordsTheFailure(c, u, relay, wall, row, claimed);
    OneMore(c, more, Relay(relay, RecordFailure(wall)));
    more := more + [Relay(relay, RecordFailure(wall))];
    assert u.relays - {relay} == s.relays;
  }

  /**
   With two relays the counter can fall: one claims a row and stalls, the other fails on it twice, and
   the first then writes back one more than it read long before.
   */
  lemma TwoRelaysCanLowerAttempts(c: Config) returns (steps: seq<Step>, step: Step)
    requires c.batchSize > 0 && c.maxAttempts > 1
    ensures Runs(c, Start(), steps) && Enabled(c, End(c, steps), step)
    ensures "e" in End(c, steps).outbox && "e" in Next(c, End(c, steps), step).outbox
    ensures Next(c, End(c, steps), step).outbox["e"].attempts < End(c, steps).outbox["e"].attempts
  {
    var row := Row("x.y", 0, None, 0, 0);
    var claimed := Claimed("e", "x.y", 0);
    steps := [Enqueue("e", "x.y", 0)];
    OneMore(c, [], Enqueue("e", "x.y", 0));
    assert [] + [Enqueue("e", "x.y", 0)] == steps;
    assert End(c, steps).outbox == map["e" := row];
    assert IsClaim(End(c, steps).outbox, 0, c.maxAttempts, c.batchSize, {}, [claimed]) by {
      assert [claimed][0].id == "e";
    }
    OneMore(c, steps, Relay(1, Claim(0, {}, [claimed])));
    steps := steps + [Relay(1, Claim(0, {}, [claimed]))];
    steps := FailsOnce(c, steps, End(c, steps), 2, 0, row);
    var failed := End(c, steps).outbox["e"];
    steps := FailsOnce(c, steps, End(c, steps), 2, failed.nextAttemptAt, failed);
    OneMore(c, steps, Relay(1, PublishRefused));
    steps := steps + [Relay(1, PublishRefused)];
    step := Relay(1, RecordFailure(0));
    assert Current(End(c, steps), 1) == claimed;
  }
}
