/**
 One consumer as it runs: each fetched message is terminated, or handled in a transaction that also
 records the event id, and then answered. Every method's effect is a run of the protocol's steps.
 */
module Inbox {
  import opened Wrappers
  import opened EventProtocol
  import R = Relay

  /**
   What one message meets: whether it matches its contract, whether the handler succeeds, what comes
   of the commit, and whether the answer reaches the stream.
   */
  datatype Fate = Fate(onContract: bool, handler: bool, commit: R.Reply, answered: bool)

  datatype Verdict = Handled | Skipped | NotHandled

  datatype ConsumerPass = ConsumerPass(handled: nat, skipped: nat, failed: nat)

  function Counting(pass: ConsumerPass, verdict: Verdict): ConsumerPass {
    match verdict
    case Handled => pass.(handled := pass.handled + 1)
    case Skipped => pass.(skipped := pass.skipped + 1)
    case NotHandled => pass.(failed := pass.failed + 1)
  }

  predicate Ready(c: Config, s: State, worker: WorkerId) {
    Holds(s, worker, Received) && Held(c, s, worker)
  }

  function KeyOf(c: Config, s: State, worker: WorkerId): (Db, EventId)
    requires Held(c, s, worker)
  {
    (c.consumers[s.hands[worker].consumer].db, s.log[s.hands[worker].index].id)
  }

  predicate AlreadyConsumed(c: Config, s: State, worker: WorkerId)
    requires Held(c, s, worker)
  {
    KeyOf(c, s, worker) in s.inbox
  }

  /** The transaction is attempted: the id is new and the handler succeeded, or the id is known. */
  predicate Attempts(c: Config, s: State, worker: WorkerId, fate: Fate)
    requires Held(c, s, worker)
  {
    fate.onContract && (AlreadyConsumed(c, s, worker) || fate.handler)
  }

  predicate Commits(c: Config, s: State, worker: WorkerId, fate: Fate)
    requires Held(c, s, worker)
  {
    Attempts(c, s, worker, fate) && !fate.commit.Refused?
  }

  function VerdictOf(c: Config, s: State, worker: WorkerId, fate: Fate): Verdict
    requires Held(c, s, worker)
  {
    if Attempts(c, s, worker, fate) && fate.commit.Reached? then
      if AlreadyConsumed(c, s, worker) then Skipped else Handled
    else NotHandled
  }

  function StepsFor(c: Config, s: State, worker: WorkerId, fate: Fate): seq<WorkerStep>
    requires Held(c, s, worker)
  {
    if !fate.onContract then [if fate.answered then OffContract else Drop]
    else if Attempts(c, s, worker, fate) && fate.commit.Reached? then [Commit, if fate.answered then Ack else Drop]
    else [if Commits(c, s, worker, fate) then CommitLost else HandlerFails, if fate.answered then GiveBack else Drop]
  }

  function Does(worker: WorkerId, does: seq<WorkerStep>): (steps: seq<Step>)
    ensures |steps| == |does|
  {
    if does == [] then [] else [Worker(worker, does[0])] + Does(worker, does[1..])
  }

  /** How the message is settled, if the answer arrives and settles it at all. */
  function Settling(c: Config, s: State, worker: WorkerId, fate: Fate): Option<Settlement>
    requires Held(c, s, worker)
  {
    var hand := s.hands[worker];
    if !fate.answered then None
    else if !fate.onContract then Some(Termed)
    else if VerdictOf(c, s, worker, fate) != NotHandled then Some(Acked)
    else if c.consumers[hand.consumer].maxDeliver <= hand.delivery then Some(Termed)
    else None
  }

  /** The state once a message met its fate, in one piece. */
  function HandDone(c: Config, s: State, worker: WorkerId, fate: Fate): State
    requires Held(c, s, worker)
  {
    var hand := s.hands[worker];
    var done := if Commits(c, s, worker, fate) then Consume(c, s, hand) else s;
    var how := Settling(c, s, worker, fate);
    done.(hands := s.hands - {worker},
          settled := if how.Some? then Settle(s.settled, hand, how.value) else s.settled)
  }

  lemma {:induction false} OneDoes(c: Config, s: State, worker: WorkerId, a: WorkerStep)
    requires WorkerEnabled(c, s, worker, a)
    ensures Runs(c, s, Does(worker, [a])) && After(c, s, Does(worker, [a])) == WorkerNext(c, s, worker, a)
  {
    var step := Worker(worker, a);
    assert Does(worker, [a]) == [step];
    assert [step][1..] == [];
    assert Runs(c, Next(c, s, step), [step][1..]);
  }

  lemma {:induction false} TwoDoes(c: Config, s: State, worker: WorkerId, a: WorkerStep, t: State, b: WorkerStep)
    requires WorkerEnabled(c, s, worker, a) && t == WorkerNext(c, s, worker, a) && WorkerEnabled(c, t, worker, b)
    ensures Runs(c, s, Does(worker, [a, b])) && After(c, s, Does(worker, [a, b])) == WorkerNext(c, t, worker, b)
  {
    OneDoes(c, s, worker, a);
    OneDoes(c, t, worker, b);
    RunsInTurn(c, s, Does(worker, [a]), Does(worker, [b]));
    assert [a, b][1..] == [b];
    assert Does(worker, [a]) == [Worker(worker, a)];
  }

  lemma {:induction false} HandsGo(hands: map<WorkerId, Hand>, worker: WorkerId)
    requires worker in hands
    ensures forall hand {:trigger hands[worker := hand]} :: hands[worker := hand] - {worker} == hands - {worker}
  {
  }

  /** A message's fate plays out as steps of the protocol. */
  lemma {:induction false} FateIsARun(c: Config, s: State, worker: WorkerId, fate: Fate)
    requires Ready(c, s, worker)
    ensures Runs(c, s, Does(worker, StepsFor(c, s, worker, fate)))
    ensures After(c, s, Does(worker, StepsFor(c, s, worker, fate))) == HandDone(c, s, worker, fate)
  {
    HandsGo(s.hands, worker);
    var steps := StepsFor(c, s, worker, fate);
    if !fate.onContract {
      OneDoes(c, s, worker, steps[0]);
    } else if steps[0].Commit? {
      CommittedIsARun(c, s, worker, fate);
    } else if steps[0].CommitLost? {
      LostCommitIsARun(c, s, worker, fate);
    } else {
      FailureIsARun(c, s, worker, fate);
    }
  }

  lemma {:induction false} CommittedIsARun(c: Config, s: State, worker: WorkerId, fate: Fate)
    requires Ready(c, s, worker) && Attempts(c, s, worker, fate) && fate.commit.Reached?
    ensures Runs(c, s, Does(worker, StepsFor(c, s, worker, fate)))
    ensures After(c, s, Does(worker, StepsFor(c, s, worker, fate))) == HandDone(c, s, worker, fate)
  {
    HandsGo(s.hands, worker);
    var t := WorkerNext(c, s, worker, Commit);
    assert t.hands == s.hands[worker := s.hands[worker].(phase := Committed)] && t.settled == s.settled;
    TwoDoes(c, s, worker, Commit, t, if fate.answered then Ack else Drop);
  }

  lemma {:induction false} LostCommitIsARun(c: Config, s: State, worker: WorkerId, fate: Fate)
    requires Ready(c, s, worker) && Attempts(c, s, worker, fate) && fate.commit.ReplyLost?
    ensures Runs(c, s, Does(worker, StepsFor(c, s, worker, fate)))
    ensures After(c, s, Does(worker, StepsFor(c, s, worker, fate))) == HandDone(c, s, worker, fate)
  {
    HandsGo(s.hands, worker);
    var t := WorkerNext(c, s, worker, CommitLost);
    assert t.hands == s.hands[worker := s.hands[worker].(phase := Failed)] && t.settled == s.settled && t.log == s.log;
    TwoDoes(c, s, worker, CommitLost, t, if fate.answered then GiveBack else Drop);
  }

  lemma {:induction false} FailureIsARun(c: Config, s: State, worker: WorkerId, fate: Fate)
    requires Ready(c, s, worker) && fate.onContract && (!Attempts(c, s, worker, fate) || fate.commit.Refused?)
    ensures Runs(c, s, Does(worker, StepsFor(c, s, worker, fate)))
    ensures After(c, s, Does(worker, StepsFor(c, s, worker, fate))) == HandDone(c, s, worker, fate)
  {
    HandsGo(s.hands, worker);
    var t := WorkerNext(c, s, worker, HandlerFails);
    TwoDoes(c, s, worker, HandlerFails, t, if fate.answered then GiveBack else Drop);
  }

  // ---------- A whole pass ----------

  ghost predicate AllReady(c: Config, s: State, workers: seq<WorkerId>, n: nat) {
    && (forall k :: n <= k < |workers| ==> Ready(c, s, workers[k]))
    && (forall i, j :: 0 <= i < j < |workers| ==> workers[i] != workers[j])
  }

  lemma {:induction false} OthersStayReady(c: Config, s: State, workers: seq<WorkerId>, n: nat, fate: Fate)
    requires AllReady(c, s, workers, n) && n < |workers|
    ensures AllReady(c, HandDone(c, s, workers[n], fate), workers, n + 1)
  {
    var t := HandDone(c, s, workers[n], fate);
    assert t.log == s.log && t.hands == s.hands - {workers[n]};
  }

  /** The state after the first `n` fetched messages, each with its fate. */
  ghost function PassedOn(c: Config, s: State, workers: seq<WorkerId>, fates: seq<Fate>, n: nat): State
    requires |fates| == |workers| && n <= |workers| && AllReady(c, s, workers, 0)
    ensures AllReady(c, PassedOn(c, s, workers, fates, n), workers, n)
  {
    if n == 0 then s
    else
      var before := PassedOn(c, s, workers, fates, n - 1);
      OthersStayReady(c, before, workers, n - 1, fates[n - 1]);
      HandDone(c, before, workers[n - 1], fates[n - 1])
  }

  ghost function CountedOn(c: Config, s: State, workers: seq<WorkerId>, fates: seq<Fate>, n: nat): ConsumerPass
    requires |fates| == |workers| && n <= |workers| && AllReady(c, s, workers, 0)
  {
    if n == 0 then ConsumerPass(0, 0, 0)
    else
      Counting(CountedOn(c, s, workers, fates, n - 1),
               VerdictOf(c, PassedOn(c, s, workers, fates, n - 1), workers[n - 1], fates[n - 1]))
  }

  lemma {:induction false} PassedOnIsARun(c: Config, s: State, workers: seq<WorkerId>, fates: seq<Fate>, n: nat)
    returns (steps: seq<Step>)
    requires |fates| == |workers| && n <= |workers| && AllReady(c, s, workers, 0)
    ensures Runs(c, s, steps) && After(c, s, steps) == PassedOn(c, s, workers, fates, n)
  {
    if n == 0 {
      steps := [];
    } else {
      var before := PassedOn(c, s, workers, fates, n - 1);
      steps := PassedOnIsARun(c, s, workers, fates, n - 1);
      steps := OneMessageMore(c, s, before, steps, workers[n - 1], fates[n - 1]);
    }
  }

  lemma {:induction false} OneMessageMore(c: Config, s: State, now: State, steps: seq<Step>, worker: WorkerId, fate: Fate)
    returns (more: seq<Step>)
    requires Runs(c, s, steps) && now == After(c, s, steps) && Ready(c, now, worker)
    ensures Runs(c, s, more) && After(c, s, more) == HandDone(c, now, worker, fate)
  {
    FateIsARun(c, now, worker, fate);
    var turn := Does(worker, StepsFor(c, now, worker, fate));
    RunsInTurn(c, s, steps, turn);
    more := steps + turn;
  }

  function LostCommits(fates: seq<Fate>): nat {
    if fates == [] then 0
    else LostCommits(fates[..|fates| - 1]) + if fates[|fates| - 1].commit.ReplyLost? then 1 else 0
  }

  lemma {:induction false} FateBalances(c: Config, s: State, worker: WorkerId, fate: Fate)
    requires Ready(c, s, worker)
    ensures var handled := if VerdictOf(c, s, worker, fate) == Handled then 1 else 0;
            |s.work| + handled <= |HandDone(c, s, worker, fate).work| <= |s.work| + handled + if fate.commit.ReplyLost? then 1 else 0
  {
  }

  /**
   The books balance: every fetched message is counted once, and the work committed is what the pass
   reports as handled, plus at most the commits whose success it never saw.
   */
  lemma {:induction false} PassBalances(c: Config, s: State, workers: seq<WorkerId>, fates: seq<Fate>, n: nat)
    requires |fates| == |workers| && n <= |workers| && AllReady(c, s, workers, 0)
    ensures var pass := CountedOn(c, s, workers, fates, n);
            var now := PassedOn(c, s, workers, fates, n);
            && pass.handled + pass.skipped + pass.failed == n
            && |s.work| + pass.handled <= |now.work| <= |s.work| + pass.handled + LostCommits(fates[..n])
  {
    if n > 0 {
      var before := PassedOn(c, s, workers, fates, n - 1);
      PassBalances(c, s, workers, fates, n - 1);
      FateBalances(c, before, workers[n - 1], fates[n - 1]);
      OneMoreLost(fates, n);
    }
  }

  lemma {:induction false} OneMoreLost(fates: seq<Fate>, n: nat)
    requires 0 < n <= |fates|
    ensures LostCommits(fates[..n]) == LostCommits(fates[..n - 1]) + if fates[n - 1].commit.ReplyLost? then 1 else 0
  {
    assert fates[..n][..n - 1] == fates[..n - 1];
  }

  // ---------- The consumer ----------

  class EventConsumer {
    const c: Config
    const platform: R.Platform
    var stopped: bool

    constructor (c: Config, platform: R.Platform)
      ensures this.c == c && this.platform == platform && !stopped
    {
      this.c, this.platform, this.stopped := c, platform, false;
    }

    /** Inserts the inbox row; a duplicate key means the event was consumed before. */
    method RecordConsumed(worker: WorkerId) returns (already: bool)
      requires Held(c, platform.s, worker)
      modifies platform
      ensures already == AlreadyConsumed(c, old(platform.s), worker)
      ensures platform.s == if already then old(platform.s)
                            else old(platform.s).(inbox := old(platform.s).inbox[KeyOf(c, old(platform.s), worker) := old(platform.s).hands[worker].consumer])
    {
      var key := KeyOf(c, platform.s, worker);
      already := key in platform.s.inbox;
      if !already {
        platform.s := platform.s.(inbox := platform.s.inbox[key := platform.s.hands[worker].consumer]);
      }
    }

    /** One message: handled and recorded together, skipped, or given back. */
    method HandleMessage(worker: WorkerId, fate: Fate) returns (verdict: Verdict)
      requires Ready(c, platform.s, worker)
      modifies platform
      ensures platform.s == HandDone(c, old(platform.s), worker, fate)
      ensures verdict == VerdictOf(c, old(platform.s), worker, fate)
    {
      var hand := platform.s.hands[worker];
      if !fate.onContract {
        Answer(worker, hand, fate.answered, Some(Termed));
        return NotHandled;
      }
      var begun := platform.s;
      var already := RecordConsumed(worker);
      if !already && fate.handler {
        platform.s := platform.s.(work := platform.s.work + [Work(c.consumers[hand.consumer].db, hand.consumer, platform.s.log[hand.index].id)]);
      }
      if (!already && !fate.handler) || fate.commit.Refused? {
        platform.s := begun;
      }
      if (already || fate.handler) && fate.commit.Reached? {
        Answer(worker, hand, fate.answered, Some(Acked));
        return if already then Skipped else Handled;
      }
      Answer(worker, hand, fate.answered,
             if c.consumers[hand.consumer].maxDeliver <= hand.delivery then Some(Termed) else None);
      verdict := NotHandled;
    }

    /** Ack, term, or (with no settlement) a nak that leaves the message for redelivery. */
    method Answer(worker: WorkerId, hand: Hand, arrives: bool, how: Option<Settlement>)
      modifies platform
      ensures platform.s == old(platform.s).(
        hands := old(platform.s).hands - {worker},
        settled := if arrives && how.Some? then Settle(old(platform.s).settled, hand, how.value) else old(platform.s).settled)
    {
      if arrives && how.Some? && (hand.consumer, hand.index) !in platform.s.settled {
        platform.s := platform.s.(settled := platform.s.settled[(hand.consumer, hand.index) := how.value]);
      }
      platform.s := platform.s.(hands := platform.s.hands - {worker});
    }

    /** One pass over the fetched messages. */
    method RunOnce(workers: seq<WorkerId>, fates: seq<Fate>) returns (pass: ConsumerPass, ghost steps: seq<Step>)
      requires |fates| == |workers| && AllReady(c, platform.s, workers, 0)
      modifies platform
      ensures Runs(c, old(platform.s), steps) && platform.s == After(c, old(platform.s), steps)
      ensures platform.s == PassedOn(c, old(platform.s), workers, fates, |workers|)
      ensures pass == CountedOn(c, old(platform.s), workers, fates, |workers|)
      ensures pass.handled + pass.skipped + pass.failed == |workers|
    {
      ghost var s := platform.s;
      pass := ConsumerPass(0, 0, 0);
      var i := 0;
      while i < |workers|
        invariant 0 <= i <= |workers|
        invariant platform.s == PassedOn(c, s, workers, fates, i)
        invariant pass == CountedOn(c, s, workers, fates, i)
      {
        var verdict := HandleMessage(workers[i], fates[i]);
        pass := Counting(pass, verdict);
        i := i + 1;
      }
      PassBalances(c, s, workers, fates, |workers|);
      steps := PassedOnIsARun(c, s, workers, fates, |workers|);
    }
  }
}
