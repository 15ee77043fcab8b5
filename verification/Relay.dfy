/**
 One relay as it runs: claim a batch, publish each row, mark it sent or record the failure, and
 sweep old published rows. Every method's effect is a run of the protocol's steps.
 */
module Relay {
  import opened Wrappers
  import opened EventProtocol
  import EventTheorems
  import Text

  /** What a remote call came to: it took effect and said so, took effect unseen, or had none. */
  datatype Reply = Reached | ReplyLost | Refused

  /** The replies one row meets: the stream's, the database's, and whether the failure was recorded. */
  datatype Luck = Luck(publish: Reply, mark: Reply, recorded: bool)

  datatype Outcome = Published | Duplicate | Failure | Threw

  datatype RelayPass = RelayPass(published: nat, duplicates: nat, failed: nat)

  function Counted(pass: RelayPass, outcome: Outcome): RelayPass {
    match outcome
    case Published => pass.(published := pass.published + 1)
    case Duplicate => pass.(duplicates := pass.duplicates + 1)
    case Failure => pass.(failed := pass.failed + 1)
    case Threw => pass
  }

  // ---------- One row ----------

  predicate Succeeds(luck: Luck) {
    luck.publish.Reached? && luck.mark.Reached?
  }

  function Closing(luck: Luck, wall: int): seq<RelayStep> {
    [if luck.recorded then RecordFailure(wall) else Crash]
  }

  /** The protocol steps a row with this luck goes through. */
  function StepsOf(luck: Luck, wall: int): seq<RelayStep> {
    match luck.publish
    case Refused => [PublishRefused] + Closing(luck, wall)
    case ReplyLost => [PublishLost] + Closing(luck, wall)
    case Reached =>
      match luck.mark
      case Reached => [PublishOk, Mark(wall)]
      case ReplyLost => [PublishOk, MarkLost(wall)] + Closing(luck, wall)
      case Refused => [PublishOk, MarkRefused] + Closing(luck, wall)
  }

  function Acts(relay: RelayId, acts: seq<RelayStep>): (steps: seq<Step>)
    ensures |steps| == |acts|
  {
    if acts == [] then [] else [EventProtocol.Relay(relay, acts[0])] + Acts(relay, acts[1..])
  }

  /** The outbox row afterwards. A row may be marked and still count a failure. */
  function RowAfter(row: Row, read: nat, luck: Luck, wall: int): Row {
    var marked := if luck.publish.Reached? && !luck.mark.Refused? then row.(publishedAt := Some(wall)) else row;
    if Succeeds(luck) || !luck.recorded then marked
    else marked.(attempts := read + 1, nextAttemptAt := wall + BackoffMs(read + 1))
  }

  /** The stream after `n` rows met their luck. */
  function Stored(log: seq<Message>, rows: seq<Claimed>, lucks: seq<Luck>, n: nat, clock: nat, window: nat): seq<Message>
    requires n <= |rows| && n <= |lucks|
  {
    if n == 0 then log
    else
      var before := Stored(log, rows, lucks, n - 1, clock, window);
      if lucks[n - 1].publish.Refused? then before else Publish(before, rows[n - 1], clock, window)
  }

  function OutcomeOf(c: Config, log: seq<Message>, clock: nat, row: Claimed, luck: Luck): Outcome {
    if Succeeds(luck) then
      if IsDuplicate(log, row.id, clock, c.duplicateWindowMs) then Duplicate else Published
    else if luck.recorded then Failure else Threw
  }

  /** What the first `n` rows count for. */
  function Tallied(c: Config, s: State, rows: seq<Claimed>, lucks: seq<Luck>, n: nat): RelayPass
    requires n <= |rows| && n <= |lucks|
  {
    if n == 0 then RelayPass(0, 0, 0)
    else
      var log := Stored(s.log, rows, lucks, n - 1, s.clock, c.duplicateWindowMs);
      Counted(Tallied(c, s, rows, lucks, n - 1), OutcomeOf(c, log, s.clock, rows[n - 1], lucks[n - 1]))
  }

  /** How many of `n` rows a pass reaches from row `k` on: it stops after a failure it cannot record. */
  function Reaches(lucks: seq<Luck>, k: nat, n: nat): (r: nat)
    requires k <= n <= |lucks|
    ensures k <= r <= n
    decreases n - k
  {
    if k == n then n
    else if !Succeeds(lucks[k]) && !lucks[k].recorded then k + 1
    else Reaches(lucks, k + 1, n)
  }

  /** The state once a row met its luck, in one piece. */
  function RowDone(c: Config, s: State, relay: RelayId, luck: Luck, wall: int): State
    requires AtRow(s, relay)
  {
    var row := Current(s, relay);
    s.(log := if luck.publish.Refused? then s.log else Publish(s.log, row, s.clock, c.duplicateWindowMs),
       outbox := if row.id in s.outbox then s.outbox[row.id := RowAfter(s.outbox[row.id], row.attempts, luck, wall)]
                 else s.outbox,
       relays := if Succeeds(luck) || luck.recorded then Advance(s.relays, relay) else s.relays - {relay})
  }

  /** The state after a relay with a claimed batch has taken `n` rows, each with its luck. */
  function PassDone(c: Config, s: State, relay: RelayId, lucks: seq<Luck>, wall: int, n: nat): State
    requires n <= |lucks|
  {
    if n == 0 then s
    else
      var before := PassDone(c, s, relay, lucks, wall, n - 1);
      if AtRow(before, relay) then RowDone(c, before, relay, lucks[n - 1], wall) else before
  }

  lemma ActsAdd(relay: RelayId, a: RelayStep, acts: seq<RelayStep>)
    ensures Acts(relay, [a] + acts) == [EventProtocol.Relay(relay, a)] + Acts(relay, acts)
  {
    assert ([a] + acts)[1..] == acts;
  }

  // ---------- The steps of one row ----------

  /** Where a relay goes next does not depend on the phase it leaves. */
  lemma FailingAdvances(relays: map<RelayId, Pass>, relay: RelayId)
    requires relay in relays
    ensures forall phase :: Advance(relays[relay := relays[relay].(phase := phase)], relay) == Advance(relays, relay)
    ensures forall phase :: relays[relay := relays[relay].(phase := phase)] - {relay} == relays - {relay}
  {
  }

  /** A row's luck plays out as steps of the protocol. */
  lemma RowIsARun(c: Config, s: State, relay: RelayId, luck: Luck, wall: int)
    requires InPhase(s, relay, Publishing)
    ensures Runs(c, s, Acts(relay, StepsOf(luck, wall)))
    ensures After(c, s, Acts(relay, StepsOf(luck, wall))) == RowDone(c, s, relay, luck, wall)
  {
    FailingAdvances(s.relays, relay);
    if luck.publish.Refused? {
      FailedPublishIsARun(c, s, relay, luck, wall, PublishRefused);
    } else if luck.publish.ReplyLost? {
      FailedPublishIsARun(c, s, relay, luck, wall, PublishLost);
    } else if luck.mark.Reached? {
      var t := RelayNext(c, s, relay, PublishOk);
      TwoSteps(c, s, relay, PublishOk, t, Mark(wall));
    } else if luck.mark.ReplyLost? {
      FailedMarkIsARun(c, s, relay, luck, wall, MarkLost(wall));
    } else {
      FailedMarkIsARun(c, s, relay, luck, wall, MarkRefused);
    }
  }

  lemma FailedPublishIsARun(c: Config, s: State, relay: RelayId, luck: Luck, wall: int, first: RelayStep)
    requires InPhase(s, relay, Publishing) && !luck.publish.Reached?
    requires first == if luck.publish.Refused? then PublishRefused else PublishLost
    ensures Runs(c, s, Acts(relay, StepsOf(luck, wall)))
    ensures After(c, s, Acts(relay, StepsOf(luck, wall))) == RowDone(c, s, relay, luck, wall)
  {
    FailingAdvances(s.relays, relay);
    var t := RelayNext(c, s, relay, first);
    assert StepsOf(luck, wall) == [first, Closing(luck, wall)[0]];
    TwoSteps(c, s, relay, first, t, Closing(luck, wall)[0]);
    assert RelayNext(c, t, relay, Closing(luck, wall)[0]).outbox == RowDone(c, s, relay, luck, wall).outbox;
  }

  /** Stored, then not marked, or marked with the reply lost. */
  lemma MarkFails(c: Config, s: State, relay: RelayId, luck: Luck, wall: int, mark: RelayStep) returns (t: State, u: State)
    requires InPhase(s, relay, Publishing) && luck.publish.Reached? && !luck.mark.Reached?
    requires mark == if luck.mark.Refused? then MarkRefused else MarkLost(wall)
    ensures t == RelayNext(c, s, relay, PublishOk) && RelayEnabled(c, t, relay, mark) && u == RelayNext(c, t, relay, mark)
    ensures InPhase(u, relay, Failing) && Current(u, relay) == Current(s, relay)
    ensures u == s.(log := Publish(s.log, Current(s, relay), s.clock, c.duplicateWindowMs),
                    outbox := if luck.mark.Refused? then s.outbox else MarkSent(s.outbox, Current(s, relay).id, wall),
                    relays := s.relays[relay := s.relays[relay].(phase := Failing)])
  {
    t := RelayNext(c, s, relay, PublishOk);
    u := RelayNext(c, t, relay, mark);
  }

  lemma FailedMarkIsARun(c: Config, s: State, relay: RelayId, luck: Luck, wall: int, mark: RelayStep)
    requires InPhase(s, relay, Publishing) && luck.publish.Reached? && !luck.mark.Reached?
    requires mark == if luck.mark.Refused? then MarkRefused else MarkLost(wall)
    ensures Runs(c, s, Acts(relay, StepsOf(luck, wall)))
    ensures After(c, s, Acts(relay, StepsOf(luck, wall))) == RowDone(c, s, relay, luck, wall)
  {
    FailingAdvances(s.relays, relay);
    var t, u := MarkFails(c, s, relay, luck, wall, mark);
    assert StepsOf(luck, wall) == [PublishOk, mark, Closing(luck, wall)[0]];
    ThreeSteps(c, s, relay, PublishOk, t, mark, u, Closing(luck, wall)[0]);
    assert RelayNext(c, u, relay, Closing(luck, wall)[0]).outbox == RowDone(c, s, relay, luck, wall).outbox;
  }

  lemma OneStep(c: Config, s: State, relay: RelayId, act: RelayStep)
    requires RelayEnabled(c, s, relay, act)
    ensures Runs(c, s, Acts(relay, [act])) && After(c, s, Acts(relay, [act])) == RelayNext(c, s, relay, act)
  {
    var step := EventProtocol.Relay(relay, act);
    assert Acts(relay, [act]) == [step];
    assert [step][1..] == [];
    assert Runs(c, Next(c, s, step), [step][1..]);
  }

  lemma TwoSteps(c: Config, s: State, relay: RelayId, a: RelayStep, t: State, b: RelayStep)
    requires RelayEnabled(c, s, relay, a) && t == RelayNext(c, s, relay, a) && RelayEnabled(c, t, relay, b)
    ensures Runs(c, s, Acts(relay, [a, b])) && After(c, s, Acts(relay, [a, b])) == RelayNext(c, t, relay, b)
  {
    OneStep(c, s, relay, a);
    OneStep(c, t, relay, b);
    RunsInTurn(c, s, Acts(relay, [a]), Acts(relay, [b]));
    assert [a, b] == [a] + [b];
    ActsAdd(relay, a, [b]);
    assert Acts(relay, [a]) == [EventProtocol.Relay(relay, a)];
  }

  lemma ThreeSteps(c: Config, s: State, relay: RelayId, a: RelayStep, t: State, b: RelayStep, u: State, d: RelayStep)
    requires RelayEnabled(c, s, relay, a) && t == RelayNext(c, s, relay, a)
    requires RelayEnabled(c, t, relay, b) && u == RelayNext(c, t, relay, b) && RelayEnabled(c, u, relay, d)
    ensures Runs(c, s, Acts(relay, [a, b, d])) && After(c, s, Acts(relay, [a, b, d])) == RelayNext(c, u, relay, d)
  {
    OneStep(c, s, relay, a);
    TwoSteps(c, t, relay, b, u, d);
    RunsInTurn(c, s, Acts(relay, [a]), Acts(relay, [b, d]));
    assert [a, b, d] == [a] + [b, d];
    ActsAdd(relay, a, [b, d]);
    assert Acts(relay, [a]) == [EventProtocol.Relay(relay, a)];
  }

  // ---------- A whole pass ----------

  /** The rows reached so far are as their luck left them. */
  ghost predicate FatesOf(before: map<EventId, Row>, after: map<EventId, Row>, rows: seq<Claimed>,
                          lucks: seq<Luck>, wall: int, n: nat)
    requires n <= |rows| && n <= |lucks|
  {
    forall k :: 0 <= k < n ==>
      && rows[k].id in before && rows[k].id in after
      && after[rows[k].id] == RowAfter(before[rows[k].id], rows[k].attempts, lucks[k], wall)
  }

  ghost predicate OthersUnchanged(before: map<EventId, Row>, after: map<EventId, Row>, rows: seq<Claimed>, n: nat)
    requires n <= |rows|
  {
    && after.Keys == before.Keys
    && forall id :: id in before && (forall k :: 0 <= k < n ==> rows[k].id != id) ==> after[id] == before[id]
  }

  /** How far a pass has come after `n` rows, each with its luck. */
  ghost predicate SoFar(c: Config, before: State, after: State, rows: seq<Claimed>, lucks: seq<Luck>, wall: int, n: nat)
  {
    && n <= |rows| == |lucks| && after.clock == before.clock
    && after.log == Stored(before.log, rows, lucks, n, before.clock, c.duplicateWindowMs)
    && FatesOf(before.outbox, after.outbox, rows, lucks, wall, n)
    && OthersUnchanged(before.outbox, after.outbox, rows, n)
  }

  function RelaysAt(idle: map<RelayId, Pass>, relay: RelayId, rows: seq<Claimed>, n: nat): map<RelayId, Pass> {
    if n < |rows| then idle[relay := Pass(rows, n, Publishing)] else idle
  }

  lemma {:induction false} RowAdds(c: Config, s: State, now: State, relay: RelayId, idle: map<RelayId, Pass>,
                                   rows: seq<Claimed>, lucks: seq<Luck>, wall: int, n: nat)
    requires SoFar(c, s, now, rows, lucks, wall, n) && n < |rows| && rows[n].id in s.outbox
    requires relay !in idle && now.relays == RelaysAt(idle, relay, rows, n)
    requires forall i, j :: 0 <= i < j < |rows| ==> rows[i].id != rows[j].id
    ensures SoFar(c, s, RowDone(c, now, relay, lucks[n], wall), rows, lucks, wall, n + 1)
  {
    assert Current(now, relay) == rows[n];
    assert now.outbox[rows[n].id] == s.outbox[rows[n].id];
  }

  lemma {:induction false} RowMovesOn(c: Config, now: State, relay: RelayId, idle: map<RelayId, Pass>,
                                      rows: seq<Claimed>, luck: Luck, wall: int, n: nat)
    requires n < |rows| && relay !in idle && now.relays == RelaysAt(idle, relay, rows, n)
    ensures RowDone(c, now, relay, luck, wall).relays == if Succeeds(luck) || luck.recorded then RelaysAt(idle, relay, rows, n + 1) else idle
  {
    assert idle[relay := Pass(rows, n, Publishing)] - {relay} == idle;
  }

  /** A batch a relay may have claimed, as it starts on it. */
  ghost predicate Ready(s: State, relay: RelayId, idle: map<RelayId, Pass>, rows: seq<Claimed>) {
    && relay !in idle && s.relays == RelaysAt(idle, relay, rows, 0)
    && (forall i, j :: 0 <= i < j < |rows| ==> rows[i].id != rows[j].id)
    && (forall i :: 0 <= i < |rows| ==> rows[i].id in s.outbox)
  }

  /** Each row of a pass meets its own fate. */
  lemma {:induction false} PassSoFar(c: Config, s: State, relay: RelayId, idle: map<RelayId, Pass>, rows: seq<Claimed>,
                                     lucks: seq<Luck>, wall: int, n: nat)
    requires Ready(s, relay, idle, rows) && |lucks| == |rows| && n <= Reaches(lucks, 0, |lucks|)
    ensures SoFar(c, s, PassDone(c, s, relay, lucks, wall, n), rows, lucks, wall, n)
    ensures PassDone(c, s, relay, lucks, wall, n).relays == RelaysWhen(idle, relay, rows, lucks, n)
  {
    if n > 0 {
      PassSoFar(c, s, relay, idle, rows, lucks, wall, n - 1);
      ReachedRecorded(lucks, 0, n - 1);
      var before := PassDone(c, s, relay, lucks, wall, n - 1);
      RowAdds(c, s, before, relay, idle, rows, lucks, wall, n - 1);
      RowMovesOn(c, before, relay, idle, rows, lucks[n - 1], wall, n - 1);
    }
  }

  /** The rows of a pass play out as a run of protocol steps. */
  lemma {:induction false} PassIsARun(c: Config, s: State, relay: RelayId, idle: map<RelayId, Pass>, rows: seq<Claimed>,
                                      lucks: seq<Luck>, wall: int, n: nat)
    returns (steps: seq<Step>)
    requires Ready(s, relay, idle, rows) && |lucks| == |rows| && n <= Reaches(lucks, 0, |lucks|)
    ensures Runs(c, s, steps) && PassDone(c, s, relay, lucks, wall, n) == After(c, s, steps)
  {
    if n == 0 {
      steps := [];
    } else {
      steps := PassIsARun(c, s, relay, idle, rows, lucks, wall, n - 1);
      StillPublishing(c, s, relay, idle, rows, lucks, wall, n - 1);
      steps := OneRowMore(c, s, PassDone(c, s, relay, lucks, wall, n - 1), steps, relay, lucks[n - 1], wall);
    }
  }

  lemma StillPublishing(c: Config, s: State, relay: RelayId, idle: map<RelayId, Pass>, rows: seq<Claimed>,
                        lucks: seq<Luck>, wall: int, n: nat)
    requires Ready(s, relay, idle, rows) && |lucks| == |rows| && n < Reaches(lucks, 0, |lucks|)
    ensures InPhase(PassDone(c, s, relay, lucks, wall, n), relay, Publishing)
  {
    PassSoFar(c, s, relay, idle, rows, lucks, wall, n);
    ReachedRecorded(lucks, 0, n);
  }

  lemma OneRowMore(c: Config, s: State, now: State, steps: seq<Step>, relay: RelayId, luck: Luck, wall: int)
    returns (more: seq<Step>)
    requires Runs(c, s, steps) && now == After(c, s, steps) && InPhase(now, relay, Publishing)
    ensures Runs(c, s, more) && After(c, s, more) == RowDone(c, now, relay, luck, wall)
  {
    RowIsARun(c, now, relay, luck, wall);
    RunsInTurn(c, s, steps, Acts(relay, StepsOf(luck, wall)));
    more := steps + Acts(relay, StepsOf(luck, wall));
  }

  /** Every row before the last one reached ended with its outcome recorded. */
  lemma {:induction false} ReachedRecorded(lucks: seq<Luck>, k: nat, n: nat)
    requires k <= n < |lucks| && n < Reaches(lucks, k, |lucks|)
    ensures forall i :: k <= i < n ==> Succeeds(lucks[i]) || lucks[i].recorded
    decreases n - k
  {
    if k < n {
      ReachedRecorded(lucks, k + 1, n);
    }
  }

  /** Where the relay stands after `n` rows: at the next, or idle once done or thrown. */
  function RelaysWhen(idle: map<RelayId, Pass>, relay: RelayId, rows: seq<Claimed>, lucks: seq<Luck>, n: nat): map<RelayId, Pass>
    requires n <= |lucks|
  {
    if n > 0 && !Succeeds(lucks[n - 1]) && !lucks[n - 1].recorded then idle else RelaysAt(idle, relay, rows, n)
  }

  /** Claiming first makes no difference to what the rows then count for. */
  lemma {:induction false} ClaimChangesOnlyRelays(c: Config, s: State, t: State, rows: seq<Claimed>, lucks: seq<Luck>, n: nat)
    requires t == s.(relays := t.relays) && n <= |rows| && n <= |lucks|
    ensures Tallied(c, t, rows, lucks, n) == Tallied(c, s, rows, lucks, n)
  {
    if n > 0 {
      ClaimChangesOnlyRelays(c, s, t, rows, lucks, n - 1);
    }
  }

  /** A whole pass, the claim included. */
  lemma WholePassIsARun(c: Config, s: State, relay: RelayId, wall: int, locked: set<EventId>, rows: seq<Claimed>, lucks: seq<Luck>)
    returns (steps: seq<Step>)
    requires |lucks| == |rows| && relay !in s.relays
    requires IsClaim(s.outbox, wall, c.maxAttempts, c.batchSize, locked, rows)
    ensures var ready := s.(relays := RelaysAt(s.relays, relay, rows, 0));
            var n := Reaches(lucks, 0, |rows|);
            var now := PassDone(c, ready, relay, lucks, wall, n);
            && Runs(c, s, steps) && now == After(c, s, steps)
            && SoFar(c, s, now, rows, lucks, wall, n)
            && now.relays == s.relays
            && Tallied(c, ready, rows, lucks, n) == Tallied(c, s, rows, lucks, n)
  {
    var n := Reaches(lucks, 0, |rows|);
    var ready := s.(relays := RelaysAt(s.relays, relay, rows, 0));
    EventTheorems.ClaimedRowsAreDistinct(s.outbox, wall, c.maxAttempts, c.batchSize, locked, rows);
    OneStep(c, s, relay, Claim(wall, locked, rows));
    steps := PassIsARun(c, ready, relay, s.relays, rows, lucks, wall, n);
    PassSoFar(c, ready, relay, s.relays, rows, lucks, wall, n);
    ReachesTheEnd(lucks, 0);
    RunsInTurn(c, s, Acts(relay, [Claim(wall, locked, rows)]), steps);
    steps := Acts(relay, [Claim(wall, locked, rows)]) + steps;
    ClaimChangesOnlyRelays(c, s, ready, rows, lucks, n);
  }

  lemma {:induction false} ReachesTheEnd(lucks: seq<Luck>, k: nat)
    requires k <= |lucks|
    ensures var n := Reaches(lucks, k, |lucks|);
            n == |lucks| || (n > 0 && !Succeeds(lucks[n - 1]) && !lucks[n - 1].recorded)
    decreases |lucks| - k
  {
    if k < |lucks| && (Succeeds(lucks[k]) || lucks[k].recorded) {
      ReachesTheEnd(lucks, k + 1);
    }
  }

  // ---------- The claim ----------

  lemma EarlierIsStrict(outbox: map<EventId, Row>, a: EventId, b: EventId)
    requires a in outbox && b in outbox && Earlier(outbox, a, b)
    ensures a != b && !Earlier(outbox, b, a)
  {
    if outbox[a].createdAt == outbox[b].createdAt {
      Text.LessIsStrict(a, b);
    }
  }

  lemma EarlierIsTransitive(outbox: map<EventId, Row>, a: EventId, b: EventId, d: EventId)
    requires a in outbox && b in outbox && d in outbox && Earlier(outbox, a, b) && Earlier(outbox, b, d)
    ensures Earlier(outbox, a, d)
  {
    if outbox[a].createdAt == outbox[b].createdAt == outbox[d].createdAt {
      Text.LessIsTransitive(a, b, d);
    }
  }

  lemma {:induction false} EarliestExists(outbox: map<EventId, Row>, ids: set<EventId>) returns (first: EventId)
    requires ids != {} && ids <= outbox.Keys
    ensures first in ids && forall id :: id in ids && id != first ==> Earlier(outbox, first, id)
    decreases |ids|
  {
    var some :| some in ids;
    if ids == {some} {
      first := some;
    } else {
      first := EarliestExists(outbox, ids - {some});
      Text.LessIsTotal(first, some);
      if !Earlier(outbox, first, some) {
        forall id | id in ids && id != some ensures Earlier(outbox, some, id) {
          if id != first {
            EarlierIsTransitive(outbox, some, first, id);
          }
        }
        first := some;
      }
    }
  }

  /** The earliest `n` of some rows, in order, and all of them when there are fewer. */
  lemma {:induction false} EarliestOf(outbox: map<EventId, Row>, ids: set<EventId>, n: nat) returns (taken: seq<EventId>)
    requires ids <= outbox.Keys
    ensures |taken| <= n && forall i :: 0 <= i < |taken| ==> taken[i] in ids
    ensures forall i, j :: 0 <= i < j < |taken| ==> Earlier(outbox, taken[i], taken[j])
    ensures forall id :: id in ids && id !in taken ==>
              |taken| == n && forall i :: 0 <= i < |taken| ==> Earlier(outbox, taken[i], id)
    decreases n
  {
    if n == 0 || ids == {} {
      taken := [];
    } else {
      var first := EarliestExists(outbox, ids);
      var rest := EarliestOf(outbox, ids - {first}, n - 1);
      taken := [first] + rest;
      forall i, j | 0 <= i < j < |taken| ensures Earlier(outbox, taken[i], taken[j]) {
        if i == 0 {
          assert taken[j] == rest[j - 1];
        }
      }
      forall id | id in ids && id !in taken
        ensures |taken| == n && forall i :: 0 <= i < |taken| ==> Earlier(outbox, taken[i], id)
      {
        assert id != taken[0];
        assert forall k :: 0 <= k < |rest| ==> taken[k + 1] == rest[k];
      }
    }
  }

  lemma ClaimExists(outbox: map<EventId, Row>, now: int, maxAttempts: nat, batchSize: nat, locked: set<EventId>)
    ensures exists rows :: IsClaim(outbox, now, maxAttempts, batchSize, locked, rows)
  {
    var due := set id | id in outbox && id !in locked && Due(outbox[id], now, maxAttempts);
    var taken := EarliestOf(outbox, due, batchSize);
    var rows := seq(|taken|, i requires 0 <= i < |taken| && taken[i] in outbox =>
      Claimed(taken[i], outbox[taken[i]].subject, outbox[taken[i]].attempts));
    forall id | id in outbox && id !in locked && Due(outbox[id], now, maxAttempts)
      ensures (exists i :: 0 <= i < |rows| && rows[i].id == id)
              || (|rows| == batchSize && forall i :: 0 <= i < |rows| ==> Earlier(outbox, rows[i].id, id))
    {
      assert id in due;
      if id in taken {
        var i :| 0 <= i < |taken| && taken[i] == id;
        assert rows[i].id == id;
      }
    }
    assert IsClaim(outbox, now, maxAttempts, batchSize, locked, rows);
  }

  // ---------- The relay ----------

  function ExpiredIds(outbox: map<EventId, Row>, wall: int, retentionMs: nat): set<EventId> {
    set id | id in outbox && Expired(outbox[id], wall, retentionMs)
  }

  lemma SmallerWithout(outbox: map<EventId, Row>, ids: set<EventId>)
    requires ids <= outbox.Keys
    ensures |outbox - ids| == |outbox| - |ids|
  {
    assert (outbox - ids).Keys == outbox.Keys - ids;
    assert |(outbox - ids).Keys| == |outbox - ids| && |outbox.Keys| == |outbox|;
  }

  /** Where the loop over a claim stands: `i` rows are behind it, and it goes on unless the last one threw. */
  ghost predicate PassAt(c: Config, s: State, now: State, relay: RelayId, rows: seq<Claimed>, lucks: seq<Luck>, wall: int,
                         i: nat, pass: RelayPass, threw: bool)
  {
    && i <= |rows| == |lucks|
    && now == PassDone(c, s, relay, lucks, wall, i) && now.clock == s.clock
    && now.log == Stored(s.log, rows, lucks, i, s.clock, c.duplicateWindowMs)
    && pass == Tallied(c, s, rows, lucks, i)
    && (!threw && i < |rows| ==> relay in now.relays && now.relays[relay] == Pass(rows, i, Publishing))
    && Reaches(lucks, 0, |rows|) == if threw then i else Reaches(lucks, i, |rows|)
  }

  lemma {:induction false} RowDoneMeans(c: Config, now: State, relay: RelayId, rows: seq<Claimed>, luck: Luck, wall: int, i: nat)
    requires i < |rows| && relay in now.relays && now.relays[relay] == Pass(rows, i, Publishing)
    ensures var t := RowDone(c, now, relay, luck, wall);
            && t.clock == now.clock
            && t.log == (if luck.publish.Refused? then now.log else Publish(now.log, rows[i], now.clock, c.duplicateWindowMs))
            && ((Succeeds(luck) || luck.recorded) && i + 1 < |rows| ==>
                  relay in t.relays && t.relays[relay] == Pass(rows, i + 1, Publishing))
  {
  }

  lemma {:induction false} ReachesOn(lucks: seq<Luck>, i: nat, n: nat, from: nat)
    requires i < n <= |lucks| && from == Reaches(lucks, i, n)
    ensures from == if !Succeeds(lucks[i]) && !lucks[i].recorded then i + 1 else Reaches(lucks, i + 1, n)
  {
  }

  lemma {:induction false} PassGoesOn(c: Config, s: State, now: State, relay: RelayId, rows: seq<Claimed>, lucks: seq<Luck>, wall: int, i: nat)
    requires i < |rows| == |lucks| && now == PassDone(c, s, relay, lucks, wall, i)
    requires relay in now.relays && now.relays[relay] == Pass(rows, i, Publishing)
    ensures PassDone(c, s, relay, lucks, wall, i + 1) == RowDone(c, now, relay, lucks[i], wall)
  {
  }

  lemma {:induction false} OneMoreCounted(c: Config, s: State, rows: seq<Claimed>, lucks: seq<Luck>, i: nat, log: seq<Message>)
    requires i < |rows| == |lucks| && log == Stored(s.log, rows, lucks, i, s.clock, c.duplicateWindowMs)
    ensures Tallied(c, s, rows, lucks, i + 1) ==
            Counted(Tallied(c, s, rows, lucks, i), OutcomeOf(c, log, s.clock, rows[i], lucks[i]))
    ensures Stored(s.log, rows, lucks, i + 1, s.clock, c.duplicateWindowMs) ==
            if lucks[i].publish.Refused? then log else Publish(log, rows[i], s.clock, c.duplicateWindowMs)
  {
  }

  lemma {:induction false} RowFurther(c: Config, s: State, now: State, relay: RelayId, rows: seq<Claimed>, lucks: seq<Luck>,
                                      wall: int, i: nat, pass: RelayPass)
    requires PassAt(c, s, now, relay, rows, lucks, wall, i, pass, false) && i < |rows|
    ensures var outcome := OutcomeOf(c, now.log, now.clock, rows[i], lucks[i]);
            PassAt(c, s, RowDone(c, now, relay, lucks[i], wall), relay, rows, lucks, wall, i + 1,
                   Counted(pass, outcome), outcome == Threw)
  {
    RowDoneMeans(c, now, relay, rows, lucks[i], wall, i);
    PassGoesOn(c, s, now, relay, rows, lucks, wall, i);
    OneMoreCounted(c, s, rows, lucks, i, now.log);
    ReachesOn(lucks, i, |rows|, Reaches(lucks, 0, |rows|));
  }

  /** A sweep so far: these expired rows are gone. */
  ghost predicate Swept(was: map<EventId, Row>, ids: set<EventId>, now: map<EventId, Row>, wall: int, retentionMs: nat) {
    ids <= ExpiredIds(was, wall, retentionMs) && now == was - ids
  }

  lemma {:induction false} SweptFurther(was: map<EventId, Row>, ids: set<EventId>, now: map<EventId, Row>,
                                        batch: set<EventId>, wall: int, retentionMs: nat)
    requires Swept(was, ids, now, wall, retentionMs) && batch <= ExpiredIds(now, wall, retentionMs)
    ensures Swept(was, ids + batch, now - batch, wall, retentionMs) && |ids + batch| == |ids| + |batch|
    ensures batch == ExpiredIds(now, wall, retentionMs) ==> ids + batch == ExpiredIds(was, wall, retentionMs)
    ensures |now - batch| == |now| - |batch|
  {
    assert ids !! batch;
    assert was - (ids + batch) == now - batch;
    SmallerWithout(now, batch);
  }

  /** Nothing but the outbox has changed, and there only these expired rows. */
  ghost predicate Sweeping(c: Config, s: State, now: State, ids: set<EventId>, wall: int) {
    now == s.(outbox := now.outbox) && Swept(s.outbox, ids, now.outbox, wall, c.retentionMs)
  }

  lemma {:induction false} SweepIsPurge(c: Config, s: State, now: State, ids: set<EventId>, wall: int)
    requires Sweeping(c, s, now, ids, wall) && c.retentionMs > 0
    ensures Enabled(c, s, Purge(wall, ids)) && now == Next(c, s, Purge(wall, ids))
  {
  }

  lemma {:induction false} SweepingFurther(c: Config, s: State, now: State, ids: set<EventId>, batch: set<EventId>, wall: int)
    requires Sweeping(c, s, now, ids, wall) && batch <= ExpiredIds(now.outbox, wall, c.retentionMs)
    ensures Sweeping(c, s, now.(outbox := now.outbox - batch), ids + batch, wall) && |ids + batch| == |ids| + |batch|
    ensures batch == ExpiredIds(now.outbox, wall, c.retentionMs) ==> ids + batch == ExpiredIds(s.outbox, wall, c.retentionMs)
    ensures |now.outbox - batch| == |now.outbox| - |batch|
  {
    SweptFurther(s.outbox, ids, now.outbox, batch, wall, c.retentionMs);
  }

  lemma {:induction false} OldestExists(outbox: map<EventId, Row>, ids: set<EventId>) returns (oldest: EventId)
    requires ids != {} && forall id :: id in ids ==> id in outbox && outbox[id].publishedAt.Some?
    ensures oldest in ids
    ensures forall id :: id in ids ==> outbox[oldest].publishedAt.value <= outbox[id].publishedAt.value
    decreases |ids|
  {
    oldest :| oldest in ids;
    if ids != {oldest} {
      var other := OldestExists(outbox, ids - {oldest});
      if outbox[other].publishedAt.value < outbox[oldest].publishedAt.value {
        oldest := other;
      }
    }
  }

  /** The database, the bus and the other processes, as one shared place. */
  class Platform {
    var s: State

    constructor (s: State)
      ensures this.s == s
    {
      this.s := s;
    }

    /** `DELETE … WHERE published_at < cutoff ORDER BY published_at LIMIT …`. */
    method DeleteExpired(wall: int, retentionMs: nat, limit: nat) returns (count: nat, ghost ids: set<EventId>)
      modifies this
      ensures ids <= ExpiredIds(old(s.outbox), wall, retentionMs)
      ensures s == old(s).(outbox := old(s.outbox) - ids)
      ensures count == |ids| && count <= limit
      ensures count < limit ==> ids == ExpiredIds(old(s.outbox), wall, retentionMs)
      ensures forall a, b :: a in ids && b in ExpiredIds(s.outbox, wall, retentionMs) ==>
                old(s.outbox)[a].publishedAt.value <= s.outbox[b].publishedAt.value
    {
      count, ids := 0, {};
      while count < limit && ExpiredIds(s.outbox, wall, retentionMs) != {}
        invariant ids <= ExpiredIds(old(s.outbox), wall, retentionMs)
        invariant s == old(s).(outbox := old(s.outbox) - ids)
        invariant count == |ids| <= limit
        invariant forall a, b :: a in ids && b in ExpiredIds(s.outbox, wall, retentionMs) ==>
                    old(s.outbox)[a].publishedAt.value <= s.outbox[b].publishedAt.value
      {
        var expired := ExpiredIds(s.outbox, wall, retentionMs);
        ghost var first := OldestExists(s.outbox, expired);
        var oldest :| oldest in expired
                      && forall id :: id in expired ==> s.outbox[oldest].publishedAt.value <= s.outbox[id].publishedAt.value;
        s := s.(outbox := s.outbox - {oldest});
        ids := ids + {oldest};
        count := count + 1;
      }
    }
  }

  class OutboxRelay {
    const c: Config
    const id: RelayId
    const platform: Platform
    const cleanupBatchSize: nat
    var stopped: bool

    constructor (c: Config, id: RelayId, platform: Platform, cleanupBatchSize: nat)
      ensures this.c == c && this.id == id && this.platform == platform
      ensures this.cleanupBatchSize == cleanupBatchSize && !stopped
    {
      this.c, this.id, this.platform := c, id, platform;
      this.cleanupBatchSize, this.stopped := cleanupBatchSize, false;
    }

    method Stop()
      modifies this
      ensures stopped
    {
      stopped := true;
    }

    /** Counts the failure on the row, or loses the pass when even that fails. */
    method Fail(recorded: bool, wall: int) returns (outcome: Outcome)
      requires InPhase(platform.s, id, Failing)
      modifies platform
      ensures outcome == if recorded then Failure else Threw
      ensures platform.s == RelayNext(c, old(platform.s), id, if recorded then RecordFailure(wall) else Crash)
    {
      var row := Current(platform.s, id);
      if recorded {
        var outbox := platform.s.outbox;
        if row.id in outbox {
          var attempts := row.attempts + 1;
          outbox := outbox[row.id := outbox[row.id].(attempts := attempts, nextAttemptAt := wall + BackoffMs(attempts))];
        }
        platform.s := platform.s.(outbox := outbox, relays := Advance(platform.s.relays, id));
        outcome := Failure;
      } else {
        platform.s := platform.s.(relays := platform.s.relays - {id});
        outcome := Threw;
      }
    }

    /** Publish first, then mark sent. */
    method PublishRow(luck: Luck, wall: int) returns (outcome: Outcome)
      requires InPhase(platform.s, id, Publishing)
      modifies platform
      ensures platform.s == RowDone(c, old(platform.s), id, luck, wall)
      ensures outcome == OutcomeOf(c, old(platform.s.log), platform.s.clock, Current(old(platform.s), id), luck)
    {
      ghost var s := platform.s;
      var row := Current(platform.s, id);
      var duplicate := IsDuplicate(platform.s.log, row.id, platform.s.clock, c.duplicateWindowMs);
      if !luck.publish.Refused? && !duplicate {
        platform.s := platform.s.(log := platform.s.log + [Message(row.id, row.subject, platform.s.clock)]);
      }
      if luck.publish.Reached? {
        if !luck.mark.Refused? && row.id in platform.s.outbox {
          var marked := platform.s.outbox[row.id].(publishedAt := Some(wall));
          platform.s := platform.s.(outbox := platform.s.outbox[row.id := marked]);
        }
        if luck.mark.Reached? {
          platform.s := platform.s.(relays := Advance(platform.s.relays, id));
          return if duplicate then Duplicate else Published;
        }
      }
      platform.s := WithPhase(platform.s, id, Failing);
      outcome := Fail(luck.recorded, wall);
      FailingAdvances(s.relays, id);
      assert platform.s.outbox == RowDone(c, s, id, luck, wall).outbox;
    }

    /** One batch of a sweep that began in `s` and has taken `ids` so far. */
    method SweepBatch(ghost s: State, ghost ids: set<EventId>, wall: int) returns (count: nat, ghost all: set<EventId>)
      requires Sweeping(c, s, platform.s, ids, wall)
      modifies platform
      ensures Sweeping(c, s, platform.s, all, wall) && |all| == |ids| + count && count <= cleanupBatchSize
      ensures count < cleanupBatchSize ==> all == ExpiredIds(s.outbox, wall, c.retentionMs)
      ensures |platform.s.outbox| == |old(platform.s).outbox| - count
    {
      ghost var now := platform.s;
      ghost var batch;
      count, batch := platform.DeleteExpired(wall, c.retentionMs, cleanupBatchSize);
      SweepingFurther(c, s, now, ids, batch, wall);
      all := ids + batch;
    }

    /**
     Sweeps published rows past their retention, a batch at a time, until one comes back short. A
     relay asked to stop leaves after one batch, the oldest.
     */
    method PurgePublished(wall: int) returns (deleted: nat, ghost ids: set<EventId>)
      requires cleanupBatchSize > 0
      modifies platform
      ensures c.retentionMs == 0 ==> platform.s == old(platform.s) && deleted == 0 && ids == {}
      ensures c.retentionMs > 0 ==> Enabled(c, old(platform.s), Purge(wall, ids))
                                    && platform.s == Next(c, old(platform.s), Purge(wall, ids))
      ensures deleted == |ids| && ids <= ExpiredIds(old(platform.s.outbox), wall, c.retentionMs)
      ensures c.retentionMs > 0 && !stopped ==> ids == ExpiredIds(old(platform.s.outbox), wall, c.retentionMs)
      ensures stopped ==> deleted <= cleanupBatchSize
    {
      deleted, ids := 0, {};
      if c.retentionMs == 0 {
        return;
      }
      ghost var s := platform.s;
      var more := true;
      while more
        invariant Sweeping(c, s, platform.s, ids, wall) && deleted == |ids|
        invariant more ==> deleted == 0 || !stopped
        invariant !more && !stopped ==> ids == ExpiredIds(s.outbox, wall, c.retentionMs)
        invariant stopped ==> deleted <= cleanupBatchSize
        decreases more, |platform.s.outbox|
      {
        var count;
        count, ids := SweepBatch(s, ids, wall);
        deleted := deleted + count;
        more := !(count < cleanupBatchSize || stopped);
      }
      SweepIsPurge(c, s, platform.s, ids, wall);
    }

    /** Publishes the claimed rows one by one, until a failure cannot even be recorded. */
    method PublishAll(rows: seq<Claimed>, wall: int, lucks: seq<Luck>) returns (pass: RelayPass)
      requires |lucks| == |rows| && (rows != [] ==> id in platform.s.relays)
      requires rows != [] ==> platform.s.relays[id] == Pass(rows, 0, Publishing)
      modifies platform
      ensures platform.s == PassDone(c, old(platform.s), id, lucks, wall, Reaches(lucks, 0, |rows|))
      ensures pass == Tallied(c, old(platform.s), rows, lucks, Reaches(lucks, 0, |rows|))
    {
      ghost var s := platform.s;
      pass := RelayPass(0, 0, 0);
      var i := 0;
      var threw := false;
      while i < |rows| && !threw
        invariant 0 <= i <= |rows| && PassAt(c, s, platform.s, id, rows, lucks, wall, i, pass, threw)
      {
        RowFurther(c, s, platform.s, id, rows, lucks, wall, i, pass);
        var outcome := PublishRow(lucks[i], wall);
        pass := Counted(pass, outcome);
        threw := outcome == Threw;
        i := i + 1;
      }
    }

    /** One pass over what the claiming query answered. */
    method RunOnce(wall: int, ghost locked: set<EventId>, rows: seq<Claimed>, lucks: seq<Luck>)
      returns (pass: RelayPass, ghost steps: seq<Step>)
      requires |lucks| == |rows| && id !in platform.s.relays
      requires IsClaim(platform.s.outbox, wall, c.maxAttempts, c.batchSize, locked, rows)
      modifies platform
      ensures Runs(c, old(platform.s), steps) && platform.s == After(c, old(platform.s), steps)
      ensures SoFar(c, old(platform.s), platform.s, rows, lucks, wall, Reaches(lucks, 0, |rows|))
      ensures pass == Tallied(c, old(platform.s), rows, lucks, Reaches(lucks, 0, |rows|))
      ensures platform.s.relays == old(platform.s.relays)
    {
      ghost var s := platform.s;
      if rows != [] {
        platform.s := platform.s.(relays := platform.s.relays[id := Pass(rows, 0, Publishing)]);
      }
      ghost var ready := platform.s;
      pass := PublishAll(rows, wall, lucks);
      steps := WholePassIsARun(c, s, id, wall, locked, rows, lucks);
    }
  }
}
