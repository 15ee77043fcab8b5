/**
 What `stop` achieves when passes may still begin while it runs and after it: a replica gives up for
 good exactly the nodes for which no pass asks again. `runOnce` does not look whether `stop` was
 called, so it is for its callers to see to that.
 */
module Shutdown {
  import opened Wrappers
  import opened RedisStore
  import opened OwnershipProtocol
  import opened NodeOwnership

  // ---------- Over all runs of the protocol ----------

  /** No acquire of this claim is in flight; `stop` sends nothing but releases. */
  predicate Unasked(calls: map<Slot, Call>, who: Claim) {
    && (Slot(who, Pass) in calls ==> !calls[Slot(who, Pass)].kind.Acquire?)
    && (Slot(who, Stop) in calls ==> calls[Slot(who, Stop)].kind.Release?)
  }

  predicate AsksFor(step: Step, who: Claim) {
    step.Send? && step.slot.who == who && step.kind.Acquire?
  }

  ghost predicate NeverAsks(steps: seq<Step>, who: Claim) {
    forall i :: 0 <= i < |steps| ==> !AsksFor(steps[i], who)
  }

  /** The release of `stop` was answered, or failed. */
  predicate GivesUp(step: Step, who: Claim) {
    step == Answer(Slot(who, Stop)) || step == Break(Slot(who, Stop))
  }

  ghost predicate GaveUp(steps: seq<Step>, who: Claim) {
    exists i :: 0 <= i < |steps| && GivesUp(steps[i], who)
  }

  lemma {:induction false} AnswerTakesNothing(s: State, slot: Slot, who: Claim)
    requires Enabled(s, Answer(slot)) && Unasked(s.calls, who)
    ensures Unasked(Answered(s, slot).calls, who)
    ensures who in Answered(s, slot).owned ==> who in s.owned && slot != Slot(who, Stop)
  {
    if slot.who == who {
      assert slot == Slot(who, slot.from) && (slot.from == Pass || slot.from == Stop);
    }
  }

  lemma {:induction false} ExecuteTakesNothing(ttl: nat, s: State, slot: Slot, who: Claim)
    requires Enabled(s, Execute(slot)) && Unasked(s.calls, who)
    ensures Unasked(Executed(ttl, s, slot).calls, who) && Executed(ttl, s, slot).owned == s.owned
  {
  }

  lemma {:induction false} BreakTakesNothing(s: State, slot: Slot, who: Claim)
    requires Enabled(s, Break(slot)) && Unasked(s.calls, who)
    ensures Unasked(Broken(s, slot).calls, who)
    ensures who in Broken(s, slot).owned ==> who in s.owned && slot != Slot(who, Stop)
  {
  }

  lemma {:induction false} StepTakesNothing(ttl: nat, s: State, step: Step, who: Claim)
    requires Enabled(s, step) && !AsksFor(step, who) && Unasked(s.calls, who)
    ensures Unasked(Next(ttl, s, step).calls, who)
    ensures who in Next(ttl, s, step).owned ==> who in s.owned && !GivesUp(step, who)
  {
    match step
    case Answer(slot) => AnswerTakesNothing(s, slot, who);
    case Execute(slot) => ExecuteTakesNothing(ttl, s, slot, who);
    case Break(slot) => BreakTakesNothing(s, slot, who);
    case Send(slot, kind) =>
    case Crash(replica) =>
    case _ =>
  }

  /** A node that is not owned, and not asked for, stays not owned. */
  lemma {:induction false} NotTakenBack(ttl: nat, s: State, steps: seq<Step>, who: Claim)
    requires Runs(ttl, s, steps) && NeverAsks(steps, who)
    requires Unasked(s.calls, who) && who !in s.owned
    ensures who !in After(ttl, s, steps).owned
    decreases |steps|
  {
    if steps != [] {
      assert !AsksFor(steps[0], who);
      StepTakesNothing(ttl, s, steps[0], who);
      NotTakenBack(ttl, Next(ttl, s, steps[0]), steps[1..], who);
    }
  }

  /** A node `stop` has given up stays given up until a pass asks for it. */
  lemma {:induction false} GivenUpForGood(ttl: nat, s: State, steps: seq<Step>, who: Claim)
    requires Runs(ttl, s, steps) && NeverAsks(steps, who) && GaveUp(steps, who)
    requires Unasked(s.calls, who)
    ensures who !in After(ttl, s, steps).owned
    decreases |steps|
  {
    assert !AsksFor(steps[0], who);
    StepTakesNothing(ttl, s, steps[0], who);
    var i :| 0 <= i < |steps| && GivesUp(steps[i], who);
    if i == 0 {
      NotTakenBack(ttl, Next(ttl, s, steps[0]), steps[1..], who);
    } else {
      assert GivesUp(steps[1..][i - 1], who);
      GivenUpForGood(ttl, Next(ttl, s, steps[0]), steps[1..], who);
    }
  }

  /** `stop` gives this node up in some run that ends with it owned. */
  ghost predicate CanEndOwned(ttl: nat, s: State, who: Claim, asks: bool) {
    exists steps ::
      && Runs(ttl, s, steps) && GaveUp(steps, who)
      && (asks || NeverAsks(steps, who))
      && who in After(ttl, s, steps).owned
  }

  lemma {:induction false} GaveUpJoins(a: seq<Step>, b: seq<Step>, who: Claim)
    requires GaveUp(a, who) || GaveUp(b, who)
    ensures GaveUp(a + b, who)
  {
    if GaveUp(a, who) {
      var i :| 0 <= i < |a| && GivesUp(a[i], who);
      assert GivesUp((a + b)[i], who);
    } else {
      var i :| 0 <= i < |b| && GivesUp(b[i], who);
      assert GivesUp((a + b)[|a| + i], who);
    }
  }

  ghost predicate AsksNothing(steps: seq<Step>) {
    forall i :: 0 <= i < |steps| ==> !(steps[i].Send? && steps[i].kind.Acquire?)
  }

  ghost predicate AsksOnly(steps: seq<Step>, who: Claim) {
    forall i :: 0 <= i < |steps| ==> (steps[i].Send? && steps[i].kind.Acquire? ==> steps[i].slot.who == who)
  }

  /** The calls of one slot fail. */
  lemma {:induction false} ClearSlot(ttl: nat, s: State, slot: Slot) returns (steps: seq<Step>)
    ensures Runs(ttl, s, steps) && After(ttl, s, steps).calls == s.calls - {slot}
    ensures slot.from.Pass? ==> After(ttl, s, steps).owned == s.owned
    ensures slot.from.Stop? && slot in s.calls ==> After(ttl, s, steps).owned == s.owned - {slot.who}
    ensures slot in s.calls ==> steps == [Break(slot)]
    ensures slot !in s.calls ==> steps == []
  {
    if slot in s.calls {
      steps := [Break(slot)];
      OneStep(ttl, s, Break(slot));
    } else {
      steps := [];
      assert s.calls - {slot} == s.calls;
    }
  }

  /** `stop` gives the node up, whatever is in flight. */
  lemma {:induction false} StopOnce(ttl: nat, s: State, who: Claim) returns (steps: seq<Step>)
    ensures Runs(ttl, s, steps) && GaveUp(steps, who) && AsksNothing(steps)
    ensures After(ttl, s, steps).calls == s.calls - {Slot(who, Stop)}
    ensures After(ttl, s, steps).owned == s.owned - {who}
  {
    var slot := Slot(who, Stop);
    if slot in s.calls {
      steps := ClearSlot(ttl, s, slot);
      assert GivesUp(steps[0], who);
    } else {
      steps := [Send(slot, Release), Break(slot)];
      TwoSteps(ttl, s, Send(slot, Release), Break(slot));
      assert GivesUp(steps[1], who);
      assert s.calls[slot := Call(Release, s.clock, None)] - {slot} == s.calls - {slot};
    }
  }

  /** Once any lease on the node has run out, a pass takes it. */
  lemma {:induction false} TakeOnce(ttl: nat, s: State, who: Claim) returns (steps: seq<Step>)
    requires Slot(who, Pass) !in s.calls && who !in s.owned
    ensures Runs(ttl, s, steps) && who in After(ttl, s, steps).owned && AsksOnly(steps, who)
  {
    var slot := Slot(who, Pass);
    var lapsed := if who.1 in s.store && s.store[who.1].expiresAt > s.clock then s.store[who.1].expiresAt else s.clock;
    OneStep(ttl, s, Tick(lapsed));
    var t := Next(ttl, s, Tick(lapsed));
    CallIsARun(ttl, t, slot, Acquire, Fine);
    RunsJoin(ttl, s, [Tick(lapsed)], CallRun(slot, Acquire, Fine));
    steps := [Tick(lapsed)] + CallRun(slot, Acquire, Fine);
  }

  lemma {:induction false} TakenBackAfterStop(ttl: nat, s: State, who: Claim) returns (steps: seq<Step>)
    ensures Runs(ttl, s, steps) && GaveUp(steps, who) && who in After(ttl, s, steps).owned && AsksOnly(steps, who)
  {
    var first := StopOnce(ttl, s, who);
    var t := After(ttl, s, first);
    var second := ClearSlot(ttl, t, Slot(who, Pass));
    RunsJoin(ttl, s, first, second);
    GaveUpJoins(first, second, who);
    var third := TakeOnce(ttl, After(ttl, t, second), who);
    RunsJoin(ttl, s, first + second, third);
    GaveUpJoins(first + second, third, who);
    steps := first + second + third;
  }

  /**
   A node that `stop` gives up can end owned exactly when some pass sends an acquire of it after
   `stop` began.
   */
  lemma {:induction false} StopIsFinalIffNobodyAsks(ttl: nat, s: State, who: Claim, asks: bool)
    requires Unasked(s.calls, who)
    ensures CanEndOwned(ttl, s, who, asks) <==> asks
  {
    if asks {
      var steps := TakenBackAfterStop(ttl, s, who);
    } else {
      forall steps | Runs(ttl, s, steps) && GaveUp(steps, who) && NeverAsks(steps, who)
        ensures who !in After(ttl, s, steps).owned
      {
        GivenUpForGood(ttl, s, steps, who);
      }
    }
  }

  // ---------- A whole replica ----------

  ghost predicate BeginsNoPass(steps: seq<Step>, replica: Replica) {
    forall i :: 0 <= i < |steps| ==> !(steps[i].Send? && steps[i].slot.from.Pass? && steps[i].slot.who.0 == replica)
  }

  /** `stop` gave up every node of the snapshot it took in this state. */
  ghost predicate Stopped(s: State, steps: seq<Step>, replica: Replica) {
    forall who :: who in s.owned && who.0 == replica ==> GaveUp(steps, who)
  }

  /** After a `stop` during and after which no pass begins, the replica owns nothing. */
  lemma {:induction false} StopGivesUpEverything(ttl: nat, s: State, steps: seq<Step>, replica: Replica, node: Node)
    requires Idle(s, replica)
    requires Runs(ttl, s, steps) && Stopped(s, steps, replica) && BeginsNoPass(steps, replica)
    ensures (replica, node) !in After(ttl, s, steps).owned
  {
    NoPassNeverAsks(ttl, s, steps, (replica, node));
    NotAskedNotOwned(ttl, s, steps, (replica, node));
  }

  /** Only passes ask. */
  lemma {:induction false} NoPassNeverAsks(ttl: nat, s: State, steps: seq<Step>, who: Claim)
    requires Runs(ttl, s, steps) && BeginsNoPass(steps, who.0)
    ensures NeverAsks(steps, who)
    decreases |steps|
  {
    if steps != [] {
      assert !(steps[0].Send? && steps[0].slot.from.Pass? && steps[0].slot.who.0 == who.0);
      NoPassNeverAsks(ttl, Next(ttl, s, steps[0]), steps[1..], who);
      forall i | 0 <= i < |steps|
        ensures !AsksFor(steps[i], who)
      {
        if i > 0 {
          assert !AsksFor(steps[1..][i - 1], who);
        }
      }
    }
  }

  ghost predicate GaveUpAll(steps: seq<Step>, claims: set<Claim>) {
    forall who :: who in claims ==> GaveUp(steps, who)
  }

  lemma {:induction false} StopAll(ttl: nat, s: State, claims: set<Claim>) returns (steps: seq<Step>)
    ensures Runs(ttl, s, steps) && GaveUpAll(steps, claims) && AsksNothing(steps)
    decreases |claims|
  {
    if claims == {} {
      steps := [];
    } else {
      var who :| who in claims;
      var first := StopOnce(ttl, s, who);
      var rest := StopAll(ttl, After(ttl, s, first), claims - {who});
      RunsJoin(ttl, s, first, rest);
      steps := first + rest;
      forall other | other in claims
        ensures GaveUp(steps, other)
      {
        GaveUpJoins(first, rest, other);
      }
    }
  }

  /** Passes of this replica ask for these nodes only: the configured ones they find connected. */
  ghost predicate AsksWithin(steps: seq<Step>, replica: Replica, within: set<Node>) {
    forall i :: 0 <= i < |steps| ==>
      !(steps[i].Send? && steps[i].kind.Acquire? && steps[i].slot.who.0 == replica && steps[i].slot.who.1 !in within)
  }

  /** The replica stops in some run, with such passes or none, that ends with this node owned by it. */
  ghost predicate CanStopOwning(ttl: nat, s: State, replica: Replica, node: Node, passes: bool, within: set<Node>) {
    exists steps ::
      && Runs(ttl, s, steps) && Stopped(s, steps, replica)
      && (if passes then AsksWithin(steps, replica, within) else BeginsNoPass(steps, replica))
      && (replica, node) in After(ttl, s, steps).owned
  }

  lemma {:induction false} OutsideNeverAsked(steps: seq<Step>, who: Claim, within: set<Node>)
    requires AsksWithin(steps, who.0, within) && who.1 !in within
    ensures NeverAsks(steps, who)
  {
  }

  lemma {:induction false} NotAskedNotOwned(ttl: nat, s: State, steps: seq<Step>, who: Claim)
    requires Idle(s, who.0) && Runs(ttl, s, steps) && Stopped(s, steps, who.0) && NeverAsks(steps, who)
    ensures who !in After(ttl, s, steps).owned
  {
    if who in s.owned {
      GivenUpForGood(ttl, s, steps, who);
    } else {
      NotTakenBack(ttl, s, steps, who);
    }
  }

  lemma {:induction false} AsksJoin(a: seq<Step>, b: seq<Step>, replica: Replica, within: set<Node>)
    requires AsksWithin(a, replica, within) && AsksWithin(b, replica, within)
    ensures AsksWithin(a + b, replica, within)
  {
  }

  /**
   `stop`, from the moment it has awaited the running pass, leaves a node not owned in every run
   exactly when no pass begins any more, or none finds the node among the configured ones connected.
   */
  lemma {:induction false} StopIsFinalIffNoPassBegins(ttl: nat, s: State, replica: Replica, node: Node, passes: bool, within: set<Node>)
    requires Idle(s, replica)
    ensures CanStopOwning(ttl, s, replica, node, passes, within) <==> passes && node in within
  {
    if passes && node in within {
      var all := StopAll(ttl, s, s.owned);
      var last := TakenBackAfterStop(ttl, After(ttl, s, all), (replica, node));
      RunsJoin(ttl, s, all, last);
      AsksJoin(all, last, replica, within);
      forall who | who in s.owned && who.0 == replica
        ensures GaveUp(all + last, who)
      {
        GaveUpJoins(all, last, who);
      }
    } else {
      forall steps | Runs(ttl, s, steps) && Stopped(s, steps, replica)
                     && (if passes then AsksWithin(steps, replica, within) else BeginsNoPass(steps, replica))
        ensures (replica, node) !in After(ttl, s, steps).owned
      {
        if passes {
          OutsideNeverAsked(steps, (replica, node), within);
        } else {
          NoPassNeverAsks(ttl, s, steps, (replica, node));
        }
        NotAskedNotOwned(ttl, s, steps, (replica, node));
      }
    }
  }

  // ---------- Passes inside and after `stop` ----------

  lemma {:induction false} PassTakesOnlyConnected(v: View, replica: Replica, nodes: seq<Node>, ttl: nat, connected: set<Node>,
                                                  lucks: seq<Luck>, node: Node)
    requires |lucks| <= |nodes| && node !in v.owned && node !in connected
    ensures node !in PassChecked(v, replica, nodes, ttl, connected, lucks).owned
    decreases |lucks|
  {
    if |lucks| > 0 {
      PassTakesOnlyConnected(v, replica, nodes, ttl, connected, lucks[..|lucks| - 1], node);
    }
  }

  /** A node given up stays so unless a later pass finds it connected. */
  lemma {:induction false} GivenUpStays(v: View, replica: Replica, nodes: seq<Node>, ttl: nat, mine: seq<Node>,
                                        lucks: seq<Luck>, rounds: seq<Option<Round>>, i: nat)
    requires i < |lucks| <= |mine| && |lucks| <= |rounds| && RoundsFit(rounds, nodes)
    requires forall j :: i < j < |lucks| && rounds[j].Some? ==> mine[i] !in rounds[j].value.connected
    ensures mine[i] !in AllGivenUp(v, replica, nodes, ttl, mine, lucks, rounds).owned
    decreases |lucks|
  {
    var k := |lucks| - 1;
    if i < k {
      GivenUpStays(v, replica, nodes, ttl, mine, lucks[..k], rounds, i);
      if rounds[k].Some? {
        PassTakesOnlyConnected(Freed(AllGivenUp(v, replica, nodes, ttl, mine, lucks[..k], rounds), replica, mine[k], lucks[k]),
                               replica, nodes, ttl, rounds[k].value.connected, rounds[k].value.lucks, mine[i]);
      }
    }
  }

  ghost predicate AllFine(lucks: seq<Luck>) {
    forall k :: 0 <= k < |lucks| ==> lucks[k].Fine?
  }

  lemma {:induction false} PassKeepsClock(v: View, replica: Replica, nodes: seq<Node>, ttl: nat, connected: set<Node>, lucks: seq<Luck>)
    requires |lucks| <= |nodes|
    ensures PassChecked(v, replica, nodes, ttl, connected, lucks).clock == v.clock
    decreases |lucks|
  {
    if |lucks| > 0 {
      PassKeepsClock(v, replica, nodes, ttl, connected, lucks[..|lucks| - 1]);
    }
  }

  /** A pass whose calls work, while `stop` awaits another release, takes back exactly what is connected and free. */
  lemma {:induction false} TakenBackDuringStop(v: View, replica: Replica, nodes: seq<Node>, ttl: nat, node: Node, luck: Luck,
                                               round: Round, i: nat)
    requires i < |nodes| == |round.lucks| && AllFine(round.lucks) && Distinct(nodes) && ttl > 0
    requires nodes[i] != node && nodes[i] !in v.owned
    ensures nodes[i] in GivenUp(v, replica, nodes, ttl, node, luck, Some(round)).owned
            <==> nodes[i] in round.connected && !Live(v.store, nodes[i], v.clock)
  {
    PassKeepsClock(Freed(v, replica, node, luck), replica, nodes, ttl, round.connected, round.lucks);
    PassSettles(Freed(v, replica, node, luck), replica, nodes, ttl, round.connected, round.lucks, i);
  }

  lemma {:induction false} StopFreesOwnLeases(v: View, replica: Replica, nodes: seq<Node>, ttl: nat, mine: seq<Node>,
                                              lucks: seq<Luck>, rounds: seq<Option<Round>>, node: Node)
    requires |lucks| <= |mine| && |lucks| <= |rounds| && NoRound(rounds) && AllFine(lucks)
    ensures var t := AllGivenUp(v, replica, nodes, ttl, mine, lucks, rounds);
            && t.clock == v.clock
            && (Live(t.store, node, t.clock) <==>
                  Live(v.store, node, v.clock) && !(node in mine[..|lucks|] && HeldBy(v.store, node, replica, v.clock)))
            && (Live(t.store, node, t.clock) ==> t.store[node] == v.store[node])
    decreases |lucks|
  {
    if |lucks| > 0 {
      var k := |lucks| - 1;
      assert mine[..|lucks|] == mine[..k] + [mine[k]];
      StopFreesOwnLeases(v, replica, nodes, ttl, mine, lucks[..k], rounds, node);
    }
  }

  /**
   A pass begun once `stop` has returned, as when the sockets of the other nodes are closed, takes
   back exactly the connected nodes that nobody else holds.
   */
  lemma {:induction false} TakenBackAfterwards(v: View, replica: Replica, nodes: seq<Node>, ttl: nat, mine: seq<Node>,
                                               lucks: seq<Luck>, rounds: seq<Option<Round>>, round: Round, i: nat)
    requires |lucks| == |mine| == |rounds| && NoRound(rounds) && AllFine(lucks) && v.owned == (set node | node in mine)
    requires i < |nodes| == |round.lucks| && AllFine(round.lucks) && Distinct(nodes) && ttl > 0
    ensures nodes[i] in Meanwhile(AllGivenUp(v, replica, nodes, ttl, mine, lucks, rounds), replica, nodes, ttl, Some(round)).owned
            <==> nodes[i] in round.connected
                 && (Live(v.store, nodes[i], v.clock) ==> nodes[i] in mine && v.store[nodes[i]].value == replica)
  {
    var t := AllGivenUp(v, replica, nodes, ttl, mine, lucks, rounds);
    if |mine| > 0 {
      ShutdownFrees(v, replica, nodes, ttl, mine, lucks, rounds, 0);
    }
    assert mine[..|lucks|] == mine;
    StopFreesOwnLeases(v, replica, nodes, ttl, mine, lucks, rounds, nodes[i]);
    PassKeepsClock(t, replica, nodes, ttl, round.connected, round.lucks);
    PassSettles(t, replica, nodes, ttl, round.connected, round.lucks, i);
  }

  /**
   Two nodes owned: `stop` has given up the first and awaits the release of the second when a socket
   event starts a pass. The first is owned again when `stop` returns, with a full lease.
   */
  lemma {:induction false} PassDuringStopLeavesANode()
    ensures var connected := {"n1", "n2"};
            var held := Entry("r", 4_000);
            var v := View(0, map["n1" := held, "n2" := held], {"n1", "n2"}, map["n1" := [Acquired], "n2" := [Acquired]]);
            var t := AllGivenUp(v, "r", ["n1", "n2"], 6_000, ["n1", "n2"], [Fine, Fine],
                                [None, Some(Round(connected, [Fine, Fine]))]);
            && t.owned == {"n1"} && t.store == map["n1" := Entry("r", 6_000)]
            && Told(t, "n1") == [Acquired, Lost, Acquired] && Told(t, "n2") == [Acquired, Lost]
  {
    var connected := {"n1", "n2"};
    var held := Entry("r", 4_000);
    var v := View(0, map["n1" := held, "n2" := held], {"n1", "n2"}, map["n1" := [Acquired], "n2" := [Acquired]]);
    var nodes, lucks := ["n1", "n2"], [Fine, Fine];
    var rounds := [None, Some(Round(connected, lucks))];
    assert lucks[..1] == [Fine] && [Fine][..0] == [] && lucks[..0] == [];
    var first := AllGivenUp(v, "r", nodes, 6_000, nodes, [Fine], rounds);
    assert first == GivenUp(v, "r", nodes, 6_000, "n1", Fine, None);
    assert first.store == map["n2" := held] && first.owned == {"n2"};
    assert Told(first, "n1") == [Acquired, Lost] && Told(first, "n2") == [Acquired];
    var freed := Freed(first, "r", "n2", Fine);
    assert freed.store == map[];
    var checked := PassChecked(freed, "r", nodes, 6_000, connected, [Fine]);
    assert checked == Checked(freed, "r", "n1", 6_000, true, Fine);
    assert checked.owned == {"n1", "n2"} && checked.store == map["n1" := Entry("r", 6_000)];
    var both := PassChecked(freed, "r", nodes, 6_000, connected, lucks);
    assert both == Checked(checked, "r", "n2", 6_000, true, Fine);
  }
}
