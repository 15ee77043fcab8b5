/**
 The outbox protocol as a state machine: services commit outbox rows, any number of relays publish
 them, the stream collapses a republish inside its duplicate window, and consumers record an event
 id in the same transaction as their work. A crash may fall between any two steps, and every reply
 of the stream or of the database may be lost after it took effect.
 */
module EventProtocol {
  import opened Arithmetic
  import opened Wrappers
  import Text

  type EventId = string
  type Subject = string
  type RelayId = nat
  type WorkerId = nat
  type Consumer = string
  type Db = string

  // ---------- What is configured ----------

  datatype ConsumerConfig = ConsumerConfig(db: Db, subjects: set<Subject>, maxDeliver: nat)

  datatype Config = Config(
    batchSize: nat,
    maxAttempts: nat,
    retentionMs: nat,
    duplicateWindowMs: nat,
    consumers: map<Consumer, ConsumerConfig>)

  // ---------- What there is ----------

  datatype Row = Row(
    subject: Subject,
    createdAt: int,
    publishedAt: Option<int>,
    attempts: nat,
    nextAttemptAt: int)

  /** An outbox row as a relay read it; `attempts` may be stale by the time it is written back. */
  datatype Claimed = Claimed(id: EventId, subject: Subject, attempts: nat)

  datatype Phase = Publishing | Marking(duplicate: bool) | Failing

  /** A relay's pass: the rows it claimed, the one it is at, and how far it is with that one. */
  datatype Pass = Pass(rows: seq<Claimed>, at: nat, phase: Phase)

  datatype Message = Message(id: EventId, subject: Subject, at: nat)

  datatype HandPhase = Received | Committed | Failed

  /** A delivered message in a worker's hands. */
  datatype Hand = Hand(consumer: Consumer, index: nat, delivery: nat, phase: HandPhase)

  datatype Settlement = Acked | Termed

  /** One committed run of a handler. */
  datatype Work = Work(db: Db, consumer: Consumer, id: EventId)

  datatype State = State(
    clock: nat,                                   // the stream server's clock
    outbox: map<EventId, Row>,
    enqueued: map<EventId, Subject>,              // every event ever committed to the outbox
    relays: map<RelayId, Pass>,                   // a relay between passes is absent
    log: seq<Message>,                            // everything the stream ever stored
    deliveries: map<(Consumer, nat), nat>,
    hands: map<WorkerId, Hand>,
    settled: map<(Consumer, nat), Settlement>,
    inbox: map<(Db, EventId), Consumer>,          // `consumed_events`, by its primary key
    work: seq<Work>)                              // committed handler runs, in commit order

  function Start(): State {
    State(0, map[], map[], map[], [], map[], map[], map[], map[], [])
  }

  // ---------- The relay's query ----------

  predicate Due(row: Row, now: int, maxAttempts: nat) {
    row.publishedAt.None? && row.attempts < maxAttempts && row.nextAttemptAt <= now
  }

  /** `ORDER BY created_at, id`. */
  predicate Earlier(outbox: map<EventId, Row>, a: EventId, b: EventId)
    requires a in outbox && b in outbox
  {
    outbox[a].createdAt < outbox[b].createdAt
    || (outbox[a].createdAt == outbox[b].createdAt && Text.Less(a, b))
  }

  /** What the claiming query may answer when `locked` rows are skipped. */
  ghost predicate IsClaim(outbox: map<EventId, Row>, now: int, maxAttempts: nat, batchSize: nat,
                          locked: set<EventId>, rows: seq<Claimed>)
  {
    && |rows| <= batchSize
    && (forall i :: 0 <= i < |rows| ==>
          && rows[i].id in outbox && rows[i].id !in locked
          && Due(outbox[rows[i].id], now, maxAttempts)
          && rows[i].subject == outbox[rows[i].id].subject
          && rows[i].attempts == outbox[rows[i].id].attempts)
    && (forall i, j :: 0 <= i < j < |rows| ==> Earlier(outbox, rows[i].id, rows[j].id))
    && (forall id :: id in outbox && id !in locked && Due(outbox[id], now, maxAttempts) ==>
          || (exists i :: 0 <= i < |rows| && rows[i].id == id)
          || (|rows| == batchSize && forall i :: 0 <= i < |rows| ==> Earlier(outbox, rows[i].id, id)))
  }

  /** Exponential back-off, capped: `min(30000, 2 ** min(attempts, 10) * 50)`. */
  function BackoffMs(attempts: nat): (ms: nat)
  {
    var grown := Pow2(if attempts < 10 then attempts else 10) * 50;
    if grown < 30_000 then grown else 30_000
  }

  // ---------- The stream ----------

  predicate OnLog(log: seq<Message>, id: EventId) {
    exists i :: 0 <= i < |log| && log[i].id == id
  }

  /** Whether the server still remembers the id, and so collapses a republish. */
  predicate IsDuplicate(log: seq<Message>, id: EventId, clock: nat, window: nat) {
    exists i :: 0 <= i < |log| && log[i].id == id && clock < log[i].at + window
  }

  function Publish(log: seq<Message>, row: Claimed, clock: nat, window: nat): seq<Message> {
    if IsDuplicate(log, row.id, clock, window) then log
    else log + [Message(row.id, row.subject, clock)]
  }

  // ---------- Steps ----------

  datatype RelayStep =
    | Claim(wall: int, locked: set<EventId>, rows: seq<Claimed>)
    | PublishOk
    | PublishLost              // stored, but the relay sees an error
    | PublishRefused
    | Mark(wall: int)
    | MarkLost(wall: int)      // written, but the relay sees an error
    | MarkRefused
    | RecordFailure(wall: int)
    | Crash

  datatype WorkerStep =
    | Deliver(consumer: Consumer, index: nat)
    | OffContract              // the message can never be accepted: terminated
    | Commit
    | CommitLost               // committed, but the worker sees an error
    | HandlerFails
    | Ack
    | GiveBack                 // negative acknowledgement, or terminated after the last delivery
    | Drop                     // a crash, or an answer to the stream that never arrived

  datatype Step =
    | Tick(now: nat)
    | Enqueue(id: EventId, subject: Subject, wall: int)
    | Purge(wall: int, ids: set<EventId>)
    | Relay(relay: RelayId, act: RelayStep)
    | Worker(worker: WorkerId, does: WorkerStep)

  predicate AtRow(s: State, relay: RelayId) {
    relay in s.relays && s.relays[relay].at < |s.relays[relay].rows|
  }

  function Current(s: State, relay: RelayId): Claimed
    requires AtRow(s, relay)
  {
    s.relays[relay].rows[s.relays[relay].at]
  }

  predicate InPhase(s: State, relay: RelayId, phase: Phase) {
    AtRow(s, relay) && s.relays[relay].phase == phase
  }

  predicate IsMarking(s: State, relay: RelayId) {
    AtRow(s, relay) && s.relays[relay].phase.Marking?
  }

  /** `published_at < cutoff`, which a null never satisfies. */
  predicate Expired(row: Row, wall: int, retentionMs: nat) {
    row.publishedAt.Some? && row.publishedAt.value < wall - retentionMs
  }

  ghost predicate RelayEnabled(c: Config, s: State, relay: RelayId, act: RelayStep) {
    match act
    case Claim(wall, locked, rows) =>
      relay !in s.relays && IsClaim(s.outbox, wall, c.maxAttempts, c.batchSize, locked, rows)
    case PublishOk => InPhase(s, relay, Publishing)
    case PublishLost => InPhase(s, relay, Publishing)
    case PublishRefused => InPhase(s, relay, Publishing)
    case Mark(wall) => IsMarking(s, relay)
    case MarkLost(wall) => IsMarking(s, relay)
    case MarkRefused => IsMarking(s, relay)
    case RecordFailure(wall) => InPhase(s, relay, Failing)
    case Crash => relay in s.relays
  }

  /** The relay goes on to its next row, or ends its pass. */
  function Advance(relays: map<RelayId, Pass>, relay: RelayId): map<RelayId, Pass>
    requires relay in relays
  {
    var pass := relays[relay];
    if pass.at + 1 < |pass.rows| then relays[relay := Pass(pass.rows, pass.at + 1, Publishing)]
    else relays - {relay}
  }

  function WithPhase(s: State, relay: RelayId, phase: Phase): State
    requires relay in s.relays
  {
    s.(relays := s.relays[relay := s.relays[relay].(phase := phase)])
  }

  /** `UPDATE outbox SET published_at = …, WHERE id = …`: nothing when the row is gone. */
  function MarkSent(outbox: map<EventId, Row>, id: EventId, wall: int): map<EventId, Row> {
    if id in outbox then outbox[id := outbox[id].(publishedAt := Some(wall))] else outbox
  }

  /** Writes one more than the attempts the relay read, whatever the row says by now. */
  function MarkFailed(outbox: map<EventId, Row>, row: Claimed, wall: int): map<EventId, Row> {
    if row.id in outbox then
      outbox[row.id := outbox[row.id].(
        attempts := row.attempts + 1,
        nextAttemptAt := wall + BackoffMs(row.attempts + 1))]
    else outbox
  }

  ghost function RelayNext(c: Config, s: State, relay: RelayId, act: RelayStep): State
    requires RelayEnabled(c, s, relay, act)
  {
    match act
    case Claim(wall, locked, rows) =>
      if rows == [] then s else s.(relays := s.relays[relay := Pass(rows, 0, Publishing)])
    case PublishOk =>
      var row := Current(s, relay);
      var duplicate := IsDuplicate(s.log, row.id, s.clock, c.duplicateWindowMs);
      WithPhase(s.(log := Publish(s.log, row, s.clock, c.duplicateWindowMs)), relay, Marking(duplicate))
    case PublishLost =>
      WithPhase(s.(log := Publish(s.log, Current(s, relay), s.clock, c.duplicateWindowMs)), relay, Failing)
    case PublishRefused => WithPhase(s, relay, Failing)
    case Mark(wall) =>
      s.(outbox := MarkSent(s.outbox, Current(s, relay).id, wall), relays := Advance(s.relays, relay))
    case MarkLost(wall) =>
      WithPhase(s.(outbox := MarkSent(s.outbox, Current(s, relay).id, wall)), relay, Failing)
    case MarkRefused => WithPhase(s, relay, Failing)
    case RecordFailure(wall) =>
      s.(outbox := MarkFailed(s.outbox, Current(s, relay), wall), relays := Advance(s.relays, relay))
    case Crash => s.(relays := s.relays - {relay})
  }

  predicate Holds(s: State, worker: WorkerId, phase: HandPhase) {
    worker in s.hands && s.hands[worker].phase == phase
  }

  function DeliveriesOf(s: State, consumer: Consumer, index: nat): nat {
    if (consumer, index) in s.deliveries then s.deliveries[(consumer, index)] else 0
  }

  predicate Held(c: Config, s: State, worker: WorkerId) {
    worker in s.hands && s.hands[worker].consumer in c.consumers && s.hands[worker].index < |s.log|
  }

  predicate WorkerEnabled(c: Config, s: State, worker: WorkerId, does: WorkerStep) {
    match does
    case Deliver(consumer, index) =>
      && worker !in s.hands && consumer in c.consumers && index < |s.log|
      && s.log[index].subject in c.consumers[consumer].subjects
      && (consumer, index) !in s.settled
      && DeliveriesOf(s, consumer, index) < c.consumers[consumer].maxDeliver
    case OffContract => Holds(s, worker, Received)
    case Commit => Holds(s, worker, Received) && Held(c, s, worker)
    case CommitLost => Holds(s, worker, Received) && Held(c, s, worker)
    case HandlerFails => Holds(s, worker, Received)
    case Ack => Holds(s, worker, Committed)
    case GiveBack => Holds(s, worker, Failed) && Held(c, s, worker)
    case Drop => worker in s.hands
  }

  function Settle(settled: map<(Consumer, nat), Settlement>, hand: Hand, how: Settlement): map<(Consumer, nat), Settlement> {
    var key := (hand.consumer, hand.index);
    if key in settled then settled else settled[key := how]
  }

  /** The consumer's transaction: the inbox row and the handler's work, or neither. */
  function Consume(c: Config, s: State, hand: Hand): State
    requires hand.consumer in c.consumers && hand.index < |s.log|
  {
    var key := (c.consumers[hand.consumer].db, s.log[hand.index].id);
    if key in s.inbox then s
    else s.(inbox := s.inbox[key := hand.consumer], work := s.work + [Work(key.0, hand.consumer, key.1)])
  }

  function HandTo(s: State, worker: WorkerId, phase: HandPhase): State
    requires worker in s.hands
  {
    s.(hands := s.hands[worker := s.hands[worker].(phase := phase)])
  }

  function Release(s: State, worker: WorkerId): State {
    s.(hands := s.hands - {worker})
  }

  function WorkerNext(c: Config, s: State, worker: WorkerId, does: WorkerStep): State
    requires WorkerEnabled(c, s, worker, does)
  {
    match does
    case Deliver(consumer, index) =>
      var n := DeliveriesOf(s, consumer, index) + 1;
      s.(deliveries := s.deliveries[(consumer, index) := n], hands := s.hands[worker := Hand(consumer, index, n, Received)])
    case OffContract => Release(s.(settled := Settle(s.settled, s.hands[worker], Termed)), worker)
    case Commit => HandTo(Consume(c, s, s.hands[worker]), worker, Committed)
    case CommitLost => HandTo(Consume(c, s, s.hands[worker]), worker, Failed)
    case HandlerFails => HandTo(s, worker, Failed)
    case Ack => Release(s.(settled := Settle(s.settled, s.hands[worker], Acked)), worker)
    case GiveBack =>
      var hand := s.hands[worker];
      if c.consumers[hand.consumer].maxDeliver <= hand.delivery
      then Release(s.(settled := Settle(s.settled, hand, Termed)), worker)
      else Release(s, worker)
    case Drop => Release(s, worker)
  }

  ghost predicate Enabled(c: Config, s: State, step: Step) {
    match step
    case Tick(now) => s.clock <= now
    // The primary key refuses an id already in the outbox; an id a caller supplies names one event.
    case Enqueue(id, subject, wall) =>
      id !in s.outbox && (id in s.enqueued ==> s.enqueued[id] == subject)
    case Purge(wall, ids) =>
      && c.retentionMs > 0
      && forall id :: id in ids ==> id in s.outbox && Expired(s.outbox[id], wall, c.retentionMs)
    case Relay(relay, act) => RelayEnabled(c, s, relay, act)
    case Worker(worker, does) => WorkerEnabled(c, s, worker, does)
  }

  ghost function Next(c: Config, s: State, step: Step): State
    requires Enabled(c, s, step)
  {
    match step
    case Tick(now) => s.(clock := now)
    case Enqueue(id, subject, wall) =>
      s.(outbox := s.outbox[id := Row(subject, wall, None, 0, wall)], enqueued := s.enqueued[id := subject])
    case Purge(wall, ids) => s.(outbox := s.outbox - ids)
    case Relay(relay, act) => RelayNext(c, s, relay, act)
    case Worker(worker, does) => WorkerNext(c, s, worker, does)
  }

  // ---------- Runs ----------

  ghost predicate Runs(c: Config, s: State, steps: seq<Step>)
    decreases |steps|
  {
    steps == [] || (Enabled(c, s, steps[0]) && Runs(c, Next(c, s, steps[0]), steps[1..]))
  }

  ghost function After(c: Config, s: State, steps: seq<Step>): State
    requires Runs(c, s, steps)
    decreases |steps|
  {
    if steps == [] then s else After(c, Next(c, s, steps[0]), steps[1..])
  }

  lemma {:induction false} RunsInTurn(c: Config, s: State, first: seq<Step>, second: seq<Step>)
    requires Runs(c, s, first) && Runs(c, After(c, s, first), second)
    ensures Runs(c, s, first + second)
    ensures After(c, s, first + second) == After(c, After(c, s, first), second)
    decreases |first|
  {
    if first == [] {
      assert first + second == second;
    } else {
      assert (first + second)[0] == first[0] && (first + second)[1..] == first[1..] + second;
      RunsInTurn(c, Next(c, s, first[0]), first[1..], second);
    }
  }

  // ---------- What every run keeps ----------

  function TimesDone(work: seq<Work>, db: Db, id: EventId): nat {
    if work == [] then 0
    else TimesDone(work[..|work| - 1], db, id)
         + if work[|work| - 1].db == db && work[|work| - 1].id == id then 1 else 0
  }

  /** Every event ever enqueued is waiting in the outbox, unpublished, or is on the stream. */
  ghost predicate NothingLost(outbox: map<EventId, Row>, enqueued: map<EventId, Subject>, log: seq<Message>) {
    forall id :: id in enqueued ==> (id in outbox && outbox[id].publishedAt.None?) || OnLog(log, id)
  }

  ghost predicate RowsKnown(outbox: map<EventId, Row>, enqueued: map<EventId, Subject>) {
    forall id :: id in outbox ==> id in enqueued && outbox[id].subject == enqueued[id]
  }

  ghost predicate LogKnown(log: seq<Message>, enqueued: map<EventId, Subject>) {
    forall i :: 0 <= i < |log| ==> log[i].id in enqueued && log[i].subject == enqueued[log[i].id]
  }

  ghost predicate PassHonest(pass: Pass, enqueued: map<EventId, Subject>, log: seq<Message>) {
    && (forall i :: 0 <= i < |pass.rows| ==>
          pass.rows[i].id in enqueued && pass.rows[i].subject == enqueued[pass.rows[i].id])
    && (pass.at < |pass.rows| && pass.phase.Marking? ==> OnLog(log, pass.rows[pass.at].id))
  }

  /** A relay only ever marks a row whose event is on the stream. */
  ghost predicate RelaysHonest(relays: map<RelayId, Pass>, enqueued: map<EventId, Subject>, log: seq<Message>) {
    forall r :: r in relays ==> PassHonest(relays[r], enqueued, log)
  }

  /** The stream's own promise: two stored copies of one id are at least a window apart. */
  ghost predicate CopiesApart(window: nat, clock: nat, log: seq<Message>) {
    && (forall i :: 0 <= i < |log| ==> log[i].at <= clock)
    && (forall i, j :: 0 <= i < j < |log| && log[i].id == log[j].id ==> log[i].at + window <= log[j].at)
  }

  /** The inbox row and the work always come together, once. */
  ghost predicate WorkMatchesInbox(work: seq<Work>, inbox: map<(Db, EventId), Consumer>) {
    && (forall db, id :: TimesDone(work, db, id) == if (db, id) in inbox then 1 else 0)
    && (forall k :: 0 <= k < |work| ==>
          (work[k].db, work[k].id) in inbox && inbox[(work[k].db, work[k].id)] == work[k].consumer)
  }

  /** A consumer in the inbox works on that database and takes that event's subject. */
  ghost predicate InboxKnown(consumers: map<Consumer, ConsumerConfig>, inbox: map<(Db, EventId), Consumer>,
                             enqueued: map<EventId, Subject>)
  {
    forall key :: key in inbox ==>
      && inbox[key] in consumers && consumers[inbox[key]].db == key.0
      && key.1 in enqueued && enqueued[key.1] in consumers[inbox[key]].subjects
  }

  ghost predicate Takes(consumers: map<Consumer, ConsumerConfig>, log: seq<Message>, consumer: Consumer, index: nat) {
    && consumer in consumers && index < |log|
    && log[index].subject in consumers[consumer].subjects
  }

  ghost predicate Recorded(consumers: map<Consumer, ConsumerConfig>, log: seq<Message>,
                           inbox: map<(Db, EventId), Consumer>, consumer: Consumer, index: nat)
  {
    Takes(consumers, log, consumer, index) && (consumers[consumer].db, log[index].id) in inbox
  }

  ghost predicate HandsHonest(consumers: map<Consumer, ConsumerConfig>, log: seq<Message>,
                              inbox: map<(Db, EventId), Consumer>, hands: map<WorkerId, Hand>)
  {
    forall w :: w in hands ==>
      && Takes(consumers, log, hands[w].consumer, hands[w].index)
      && (hands[w].phase == Committed ==> Recorded(consumers, log, inbox, hands[w].consumer, hands[w].index))
  }

  ghost predicate SettledHonest(consumers: map<Consumer, ConsumerConfig>, log: seq<Message>,
                                inbox: map<(Db, EventId), Consumer>, settled: map<(Consumer, nat), Settlement>)
  {
    forall key :: key in settled ==>
      && Takes(consumers, log, key.0, key.1)
      && (settled[key] == Acked ==> Recorded(consumers, log, inbox, key.0, key.1))
  }

  ghost predicate ProducerInv(c: Config, s: State) {
    && NothingLost(s.outbox, s.enqueued, s.log)
    && RowsKnown(s.outbox, s.enqueued)
    && LogKnown(s.log, s.enqueued)
    && RelaysHonest(s.relays, s.enqueued, s.log)
    && CopiesApart(c.duplicateWindowMs, s.clock, s.log)
  }

  ghost predicate ConsumerInv(c: Config, s: State) {
    && WorkMatchesInbox(s.work, s.inbox)
    && InboxKnown(c.consumers, s.inbox, s.enqueued)
    && HandsHonest(c.consumers, s.log, s.inbox, s.hands)
    && SettledHonest(c.consumers, s.log, s.inbox, s.settled)
  }

  ghost predicate Inv(c: Config, s: State) {
    ProducerInv(c, s) && ConsumerInv(c, s)
  }

  // ---------- The producer side ----------

  /** Storing a claimed row keeps what the stream promises, and puts the id on the log. */
  lemma PublishKeepsLog(log: seq<Message>, row: Claimed, clock: nat, window: nat,
                        outbox: map<EventId, Row>, enqueued: map<EventId, Subject>)
    requires row.id in enqueued && enqueued[row.id] == row.subject
    requires NothingLost(outbox, enqueued, log) && LogKnown(log, enqueued) && CopiesApart(window, clock, log)
    ensures var log' := Publish(log, row, clock, window);
            && log <= log' && OnLog(log', row.id)
            && NothingLost(outbox, enqueued, log') && LogKnown(log', enqueued) && CopiesApart(window, clock, log')
  {
    var log' := Publish(log, row, clock, window);
    if log' != log {
      assert log'[|log|].id == row.id;
    }
    OnLogStays(log, log');
  }

  lemma OnLogStays(log: seq<Message>, log': seq<Message>)
    requires log <= log'
    ensures forall id :: OnLog(log, id) ==> OnLog(log', id)
  {
    forall id | OnLog(log, id) ensures OnLog(log', id) {
      var i :| 0 <= i < |log| && log[i].id == id;
      assert log'[i].id == id;
    }
  }

  /** A longer log disturbs neither the relays nor the consumers. */
  lemma LongerLogKeepsInv(c: Config, s: State, log': seq<Message>)
    requires Inv(c, s) && s.log <= log'
    requires NothingLost(s.outbox, s.enqueued, log') && LogKnown(log', s.enqueued)
    requires CopiesApart(c.duplicateWindowMs, s.clock, log')
    ensures Inv(c, s.(log := log'))
  {
    OnLogStays(s.log, log');
    forall consumer, index | Takes(c.consumers, s.log, consumer, index)
      ensures Takes(c.consumers, log', consumer, index)
    {
    }
    forall consumer, index | Recorded(c.consumers, s.log, s.inbox, consumer, index)
      ensures Recorded(c.consumers, log', s.inbox, consumer, index)
    {
    }
  }

  lemma PublishKeepsInv(c: Config, s: State, relay: RelayId, phase: Phase)
    requires Inv(c, s) && AtRow(s, relay)
    ensures Inv(c, WithPhase(s.(log := Publish(s.log, Current(s, relay), s.clock, c.duplicateWindowMs)), relay, phase))
  {
    var row := Current(s, relay);
    assert PassHonest(s.relays[relay], s.enqueued, s.log);
    PublishKeepsLog(s.log, row, s.clock, c.duplicateWindowMs, s.outbox, s.enqueued);
    LongerLogKeepsInv(c, s, Publish(s.log, row, s.clock, c.duplicateWindowMs));
    PhaseKeepsInv(c, s.(log := Publish(s.log, row, s.clock, c.duplicateWindowMs)), relay, phase);
  }

  lemma PhaseKeepsInv(c: Config, s: State, relay: RelayId, phase: Phase)
    requires Inv(c, s) && AtRow(s, relay)
    requires phase.Marking? ==> OnLog(s.log, Current(s, relay).id)
    ensures Inv(c, WithPhase(s, relay, phase))
  {
    assert PassHonest(s.relays[relay], s.enqueued, s.log);
  }

  /** An update of a row that keeps its subject, and publishes it only when it is on the log. */
  lemma RowUpdateKeepsInv(c: Config, s: State, id: EventId, row: Row)
    requires Inv(c, s) && id in s.outbox && row.subject == s.outbox[id].subject
    requires row.publishedAt == s.outbox[id].publishedAt || OnLog(s.log, id)
    ensures Inv(c, s.(outbox := s.outbox[id := row]))
  {
  }

  lemma AdvanceKeepsInv(c: Config, s: State, relay: RelayId)
    requires Inv(c, s) && relay in s.relays
    ensures Inv(c, s.(relays := Advance(s.relays, relay)))
  {
    assert PassHonest(s.relays[relay], s.enqueued, s.log);
  }

  lemma MarkKeepsInv(c: Config, s: State, relay: RelayId, wall: int)
    requires Inv(c, s) && IsMarking(s, relay)
    ensures Inv(c, s.(outbox := MarkSent(s.outbox, Current(s, relay).id, wall)))
  {
    var id := Current(s, relay).id;
    assert PassHonest(s.relays[relay], s.enqueued, s.log);
    if id in s.outbox {
      RowUpdateKeepsInv(c, s, id, s.outbox[id].(publishedAt := Some(wall)));
    }
  }

  lemma RecordFailureKeepsInv(c: Config, s: State, relay: RelayId, wall: int)
    requires Inv(c, s) && AtRow(s, relay)
    ensures Inv(c, s.(outbox := MarkFailed(s.outbox, Current(s, relay), wall)))
  {
    var row := Current(s, relay);
    if row.id in s.outbox {
      RowUpdateKeepsInv(c, s, row.id, MarkFailed(s.outbox, row, wall)[row.id]);
    }
  }

  lemma ClaimKeepsInv(c: Config, s: State, relay: RelayId, rows: seq<Claimed>, wall: int, locked: set<EventId>)
    requires Inv(c, s) && IsClaim(s.outbox, wall, c.maxAttempts, c.batchSize, locked, rows)
    ensures Inv(c, s.(relays := s.relays[relay := Pass(rows, 0, Publishing)]))
  {
    assert PassHonest(Pass(rows, 0, Publishing), s.enqueued, s.log);
  }

  /** Only published rows are purged, and those are on the stream. */
  lemma PurgeKeepsInv(c: Config, s: State, wall: int, ids: set<EventId>)
    requires Inv(c, s)
    requires forall id :: id in ids ==> id in s.outbox && Expired(s.outbox[id], wall, c.retentionMs)
    ensures Inv(c, s.(outbox := s.outbox - ids))
  {
  }

  lemma EnqueueKeepsInv(c: Config, s: State, id: EventId, subject: Subject, row: Row)
    requires Inv(c, s) && id !in s.outbox && (id in s.enqueued ==> s.enqueued[id] == subject)
    requires row.subject == subject && row.publishedAt.None?
    ensures Inv(c, s.(outbox := s.outbox[id := row], enqueued := s.enqueued[id := subject]))
  {
    var enqueued := s.enqueued[id := subject];
    forall r | r in s.relays ensures PassHonest(s.relays[r], enqueued, s.log) {
      assert PassHonest(s.relays[r], s.enqueued, s.log);
    }
  }

  lemma RelayCrashKeepsInv(c: Config, s: State, relay: RelayId)
    requires Inv(c, s)
    ensures Inv(c, s.(relays := s.relays - {relay}))
  {
  }

  lemma TickKeepsInv(c: Config, s: State, now: nat)
    requires Inv(c, s) && s.clock <= now
    ensures Inv(c, s.(clock := now))
  {
  }

  // ---------- The consumer side ----------

  lemma TimesDoneAfter(work: seq<Work>, w: Work, db: Db, id: EventId)
    ensures TimesDone(work + [w], db, id) == TimesDone(work, db, id) + if w.db == db && w.id == id then 1 else 0
  {
    assert (work + [w])[..|work|] == work;
  }

  lemma RecordKeepsWork(work: seq<Work>, inbox: map<(Db, EventId), Consumer>, w: Work)
    requires WorkMatchesInbox(work, inbox) && (w.db, w.id) !in inbox
    ensures WorkMatchesInbox(work + [w], inbox[(w.db, w.id) := w.consumer])
  {
    var inbox' := inbox[(w.db, w.id) := w.consumer];
    forall db, id ensures TimesDone(work + [w], db, id) == if (db, id) in inbox' then 1 else 0 {
      TimesDoneAfter(work, w, db, id);
    }
  }

  lemma ConsumeKeepsInv(c: Config, s: State, hand: Hand)
    requires Inv(c, s) && Takes(c.consumers, s.log, hand.consumer, hand.index)
    ensures Inv(c, Consume(c, s, hand))
    ensures Recorded(c.consumers, s.log, Consume(c, s, hand).inbox, hand.consumer, hand.index)
  {
    var key := (c.consumers[hand.consumer].db, s.log[hand.index].id);
    if key !in s.inbox {
      RecordKeepsWork(s.work, s.inbox, Work(key.0, hand.consumer, key.1));
      var inbox := s.inbox[key := hand.consumer];
      forall consumer, index | Recorded(c.consumers, s.log, s.inbox, consumer, index)
        ensures Recorded(c.consumers, s.log, inbox, consumer, index)
      {
      }
    }
  }

  lemma HandKeepsInv(c: Config, s: State, worker: WorkerId, hand: Hand)
    requires Inv(c, s) && Takes(c.consumers, s.log, hand.consumer, hand.index)
    requires hand.phase == Committed ==> Recorded(c.consumers, s.log, s.inbox, hand.consumer, hand.index)
    ensures Inv(c, s.(hands := s.hands[worker := hand]))
  {
  }

  lemma CommitKeepsInv(c: Config, s: State, worker: WorkerId, phase: HandPhase)
    requires Inv(c, s) && worker in s.hands
    ensures Held(c, s, worker) && Inv(c, HandTo(Consume(c, s, s.hands[worker]), worker, phase))
  {
    var hand := s.hands[worker];
    ConsumeKeepsInv(c, s, hand);
    HandKeepsInv(c, Consume(c, s, hand), worker, hand.(phase := phase));
  }

  lemma SettleKeepsInv(c: Config, s: State, worker: WorkerId, how: Settlement)
    requires Inv(c, s) && worker in s.hands
    requires how == Acked ==> s.hands[worker].phase == Committed
    ensures Inv(c, Release(s.(settled := Settle(s.settled, s.hands[worker], how)), worker))
  {
  }

  lemma ReleaseKeepsInv(c: Config, s: State, worker: WorkerId)
    requires Inv(c, s)
    ensures Inv(c, Release(s, worker))
  {
  }

  lemma DeliveryCountKeepsInv(c: Config, s: State, deliveries: map<(Consumer, nat), nat>)
    requires Inv(c, s)
    ensures Inv(c, s.(deliveries := deliveries))
  {
  }

  // ---------- Every step, every run ----------

  lemma RelayKeepsInv(c: Config, s: State, relay: RelayId, act: RelayStep)
    requires Inv(c, s) && RelayEnabled(c, s, relay, act)
    ensures Inv(c, RelayNext(c, s, relay, act))
  {
    match act
    case PublishOk =>
      PublishKeepsInv(c, s, relay, Marking(IsDuplicate(s.log, Current(s, relay).id, s.clock, c.duplicateWindowMs)));
    case PublishLost => PublishKeepsInv(c, s, relay, Failing);
    case PublishRefused => PhaseKeepsInv(c, s, relay, Failing);
    case Claim(wall, locked, rows) => ClaimKeepsInv(c, s, relay, rows, wall, locked);
    case Crash => RelayCrashKeepsInv(c, s, relay);
    case Mark(wall) =>
      MarkKeepsInv(c, s, relay, wall);
      AdvanceKeepsInv(c, s.(outbox := MarkSent(s.outbox, Current(s, relay).id, wall)), relay);
    case MarkLost(wall) =>
      MarkKeepsInv(c, s, relay, wall);
      PhaseKeepsInv(c, s.(outbox := MarkSent(s.outbox, Current(s, relay).id, wall)), relay, Failing);
    case MarkRefused => PhaseKeepsInv(c, s, relay, Failing);
    case RecordFailure(wall) =>
      RecordFailureKeepsInv(c, s, relay, wall);
      AdvanceKeepsInv(c, s.(outbox := MarkFailed(s.outbox, Current(s, relay), wall)), relay);
  }

  lemma DeliverKeepsInv(c: Config, s: State, worker: WorkerId, consumer: Consumer, index: nat)
    requires Inv(c, s) && WorkerEnabled(c, s, worker, Deliver(consumer, index))
    ensures Inv(c, WorkerNext(c, s, worker, Deliver(consumer, index)))
  {
    var n := DeliveriesOf(s, consumer, index) + 1;
    var counted := s.(deliveries := s.deliveries[(consumer, index) := n]);
    DeliveryCountKeepsInv(c, s, counted.deliveries);
    HandKeepsInv(c, counted, worker, Hand(consumer, index, n, Received));
  }

  lemma WorkerKeepsInv(c: Config, s: State, worker: WorkerId, does: WorkerStep)
    requires Inv(c, s) && WorkerEnabled(c, s, worker, does)
    ensures Inv(c, WorkerNext(c, s, worker, does))
  {
    match does
    case Deliver(consumer, index) => DeliverKeepsInv(c, s, worker, consumer, index);
    case Commit => CommitKeepsInv(c, s, worker, Committed);
    case CommitLost => CommitKeepsInv(c, s, worker, Failed);
    case HandlerFails => HandKeepsInv(c, s, worker, s.hands[worker].(phase := Failed));
    case OffContract => SettleKeepsInv(c, s, worker, Termed);
    case Ack => SettleKeepsInv(c, s, worker, Acked);
    case GiveBack =>
      SettleKeepsInv(c, s, worker, Termed);
      ReleaseKeepsInv(c, s, worker);
    case Drop => ReleaseKeepsInv(c, s, worker);
  }

  lemma StepKeepsInv(c: Config, s: State, step: Step)
    requires Inv(c, s) && Enabled(c, s, step)
    ensures Inv(c, Next(c, s, step))
  {
    match step
    case Tick(now) => TickKeepsInv(c, s, now);
    case Enqueue(id, subject, wall) => EnqueueKeepsInv(c, s, id, subject, Row(subject, wall, None, 0, wall));
    case Purge(wall, ids) => PurgeKeepsInv(c, s, wall, ids);
    case Relay(relay, act) => RelayKeepsInv(c, s, relay, act);
    case Worker(worker, does) => WorkerKeepsInv(c, s, worker, does);
  }

  lemma {:induction false} RunKeepsInv(c: Config, s: State, steps: seq<Step>)
    requires Inv(c, s) && Runs(c, s, steps)
    ensures Inv(c, After(c, s, steps))
    decreases |steps|
  {
    if steps != [] {
      StepKeepsInv(c, s, steps[0]);
      RunKeepsInv(c, Next(c, s, steps[0]), steps[1..]);
    }
  }
}
