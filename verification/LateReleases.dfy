/**
 Which leases can be cut short by a release that runs late: the calls of a claim may overlap, and one
 that its caller gave up may still reach Redis.
 */
module LateReleases {
  import opened Wrappers
  import opened RedisStore
  import opened OwnershipProtocol
  import opened NodeOwnership

  // ---------- Releases that run late ----------

  predicate SendsRelease(step: Step, who: Claim) {
    step.Send? && step.slot.who == who && step.kind.Release?
  }

  ghost predicate SendsNoRelease(steps: seq<Step>, who: Claim) {
    forall i :: 0 <= i < |steps| ==> !SendsRelease(steps[i], who)
  }

  /** Redis names the replica until this time at least. */
  predicate Named(store: map<Node, Entry>, who: Claim, until: int) {
    who.1 in store && store[who.1].value == who.0 && until <= store[who.1].expiresAt
  }

  lemma {:induction false} RunningKeepsName(ttl: nat, s: State, who: Claim, other: Claim, kind: Kind, until: int)
    requires Named(s.store, who, until) && LeasesBounded(ttl, s.clock, s.store) && s.clock < until
    requires kind.Release? ==> other != who
    ensures Named(Ran(ttl, s, other, kind).store, who, until)
  {
  }

  lemma {:induction false} ExecuteStaysSettled(ttl: nat, s: State, slot: Slot, who: Claim)
    requires Enabled(s, Execute(slot)) && !Unsettled(s.calls, s.astray, who)
    ensures !Unsettled(Executed(ttl, s, slot).calls, s.astray, who)
    ensures s.calls[slot].kind.Release? ==> slot.who != who
  {
    assert slot == Slot(slot.who, slot.from) && (slot.from == Pass || slot.from == Stop);
  }

  lemma {:induction false} BreakStaysSettled(s: State, slot: Slot, who: Claim)
    requires Enabled(s, Break(slot)) && !Unsettled(s.calls, s.astray, who)
    ensures !Unsettled(Broken(s, slot).calls, Broken(s, slot).astray, who)
  {
    assert slot == Slot(slot.who, slot.from) && (slot.from == Pass || slot.from == Stop);
  }

  lemma {:induction false} CrashStaysSettled(s: State, replica: Replica, who: Claim)
    requires !Unsettled(s.calls, s.astray, who)
    ensures !Unsettled(Crashed(s, replica).calls, Crashed(s, replica).astray, who)
  {
    forall slot | slot in s.calls && slot.who == who
      ensures !AwaitsRelease(s.calls, slot)
    {
      assert slot == Slot(slot.who, slot.from) && (slot.from == Pass || slot.from == Stop);
    }
  }

  lemma {:induction false} SendStaysSettled(s: State, slot: Slot, kind: Kind, who: Claim)
    requires Enabled(s, Send(slot, kind)) && !Unsettled(s.calls, s.astray, who) && !SendsRelease(Send(slot, kind), who)
    ensures !Unsettled(Sent(s, slot, kind).calls, Sent(s, slot, kind).astray, who)
  {
  }

  lemma {:induction false} AnswerStaysSettled(s: State, slot: Slot, who: Claim)
    requires Enabled(s, Answer(slot)) && !Unsettled(s.calls, s.astray, who)
    ensures !Unsettled(Answered(s, slot).calls, Answered(s, slot).astray, who)
  {
  }

  lemma {:induction false} StepStaysSettled(ttl: nat, s: State, step: Step, who: Claim)
    requires Enabled(s, step) && !Unsettled(s.calls, s.astray, who) && !SendsRelease(step, who)
    ensures !Unsettled(Next(ttl, s, step).calls, Next(ttl, s, step).astray, who)
  {
    match step
    case Send(slot, kind) => SendStaysSettled(s, slot, kind, who);
    case Execute(slot) => ExecuteStaysSettled(ttl, s, slot, who);
    case Answer(slot) => AnswerStaysSettled(s, slot, who);
    case Break(slot) => BreakStaysSettled(s, slot, who);
    case Crash(replica) => CrashStaysSettled(s, replica, who);
    case _ =>
  }

  lemma {:induction false} StepKeepsName(ttl: nat, s: State, step: Step, who: Claim, until: int)
    requires Enabled(s, step) && Named(s.store, who, until) && LeasesBounded(ttl, s.clock, s.store) && s.clock < until
    requires !Unsettled(s.calls, s.astray, who)
    ensures Named(Next(ttl, s, step).store, who, until)
  {
    match step
    case Execute(slot) =>
      ExecuteStaysSettled(ttl, s, slot, who);
      RunningKeepsName(ttl, s, who, slot.who, s.calls[slot].kind, until);
    case Late(stray) =>
      assert stray == Stray(stray.who, stray.kind);
      RunningKeepsName(ttl, s, who, stray.who, stray.kind, until);
    case _ =>
  }

  lemma {:induction false} ClockOnlyGrows(ttl: nat, s: State, steps: seq<Step>)
    requires Runs(ttl, s, steps)
    ensures s.clock <= After(ttl, s, steps).clock
    decreases |steps|
  {
    if steps != [] {
      ClockOnlyGrows(ttl, Next(ttl, s, steps[0]), steps[1..]);
    }
  }

  lemma {:induction false} SettledLeaseLasts(ttl: nat, s: State, steps: seq<Step>, who: Claim, until: int)
    requires Inv(ttl, s) && Runs(ttl, s, steps) && SendsNoRelease(steps, who)
    requires Named(s.store, who, until) && !Unsettled(s.calls, s.astray, who) && After(ttl, s, steps).clock < until
    ensures Named(After(ttl, s, steps).store, who, until)
    decreases |steps|
  {
    if steps != [] {
      assert !SendsRelease(steps[0], who);
      ClockOnlyGrows(ttl, s, steps);
      StepKeepsInv(ttl, s, steps[0]);
      StepStaysSettled(ttl, s, steps[0], who);
      StepKeepsName(ttl, s, steps[0], who, until);
      SettledLeaseLasts(ttl, Next(ttl, s, steps[0]), steps[1..], who, until);
    }
  }

  /** However things go on, Redis names the replica until its lease runs out, unless it sends a release. */
  ghost predicate LeaseLasts(ttl: nat, s: State, who: Claim)
    requires who.1 in s.store
  {
    forall steps ::
      Runs(ttl, s, steps) && SendsNoRelease(steps, who) && After(ttl, s, steps).clock < s.store[who.1].expiresAt
      ==> Get(After(ttl, s, steps).store, who.1, After(ttl, s, steps).clock) == Some(who.0)
  }

  /** One command that may still run and deletes the claim. */
  lemma {:induction false} UnsettledCanDelete(ttl: nat, s: State, who: Claim) returns (step: Step)
    requires HeldBy(s.store, who.1, who.0, s.clock) && Unsettled(s.calls, s.astray, who)
    ensures Enabled(s, step) && !step.Send? && Next(ttl, s, step).clock == s.clock && who.1 !in Next(ttl, s, step).store
  {
    if Stray(who, Release) in s.astray {
      step := Late(Stray(who, Release));
    } else {
      step := Execute(if AwaitsRelease(s.calls, Slot(who, Pass)) then Slot(who, Pass) else Slot(who, Stop));
    }
  }

  /**
   A lease lasts in every continuation exactly when no release of it is in flight or astray. This is
   what exclusive ownership rests on: a second replica can win the node only once Redis forgets the first.
   */
  lemma {:induction false} LeaseLastsIffSettled(ttl: nat, s: State, who: Claim)
    requires Inv(ttl, s) && HeldBy(s.store, who.1, who.0, s.clock)
    ensures LeaseLasts(ttl, s, who) <==> !Unsettled(s.calls, s.astray, who)
  {
    if Unsettled(s.calls, s.astray, who) {
      var step := UnsettledCanDelete(ttl, s, who);
      OneStep(ttl, s, step);
      assert Runs(ttl, s, [step]) && SendsNoRelease([step], who);
      assert After(ttl, s, [step]).clock < s.store[who.1].expiresAt;
    } else {
      forall steps | Runs(ttl, s, steps) && SendsNoRelease(steps, who) && After(ttl, s, steps).clock < s.store[who.1].expiresAt
        ensures Get(After(ttl, s, steps).store, who.1, After(ttl, s, steps).clock) == Some(who.0)
      {
        SettledLeaseLasts(ttl, s, steps, who, s.store[who.1].expiresAt);
      }
    }
  }

  // ---------- Which answers count ----------

  /** A positive answer in flight for this claim stands for a grant that counts. */
  predicate AnswerStands(s: State, slot: Slot) {
    slot in s.calls && !s.calls[slot].kind.Release? && s.calls[slot].reply == Some(true) ==> slot.who in s.granted
  }

  lemma {:induction false} ExecuteStands(ttl: nat, s: State, other: Slot, slot: Slot)
    requires Enabled(s, Execute(other)) && AnswerStands(s, slot) && !Unsettled(s.calls, s.astray, slot.who)
    ensures AnswerStands(Executed(ttl, s, other), slot)
  {
  }

  lemma {:induction false} AnswerLeaves(s: State, other: Slot, slot: Slot)
    requires Enabled(s, Answer(other)) && AnswerStands(s, slot)
    ensures AnswerStands(Answered(s, other), slot)
  {
    HearingTouches(s, other.who, s.calls[other]);
  }

  lemma {:induction false} LateStands(ttl: nat, s: State, stray: Stray, slot: Slot)
    requires AnswerStands(s, slot)
    ensures AnswerStands(Ran(ttl, s, stray.who, stray.kind), slot)
  {
  }

  lemma {:induction false} BreakStands(s: State, other: Slot, slot: Slot)
    requires Enabled(s, Break(other)) && AnswerStands(s, slot)
    ensures AnswerStands(Broken(s, other), slot)
  {
  }

  lemma {:induction false} StepStands(ttl: nat, s: State, step: Step, slot: Slot)
    requires Enabled(s, step) && AnswerStands(s, slot) && !Unsettled(s.calls, s.astray, slot.who) && !SendsRelease(step, slot.who)
    ensures AnswerStands(Next(ttl, s, step), slot)
  {
    match step
    case Execute(other) => ExecuteStands(ttl, s, other, slot);
    case Answer(other) => AnswerLeaves(s, other, slot);
    case Late(stray) => LateStands(ttl, s, stray, slot);
    case Break(other) => BreakStands(s, other, slot);
    case _ =>
  }

  lemma {:induction false} RunStands(ttl: nat, s: State, steps: seq<Step>, slot: Slot)
    requires Runs(ttl, s, steps) && SendsNoRelease(steps, slot.who)
    requires AnswerStands(s, slot) && !Unsettled(s.calls, s.astray, slot.who)
    ensures AnswerStands(After(ttl, s, steps), slot)
    decreases |steps|
  {
    if steps != [] {
      assert !SendsRelease(steps[0], slot.who);
      StepStands(ttl, s, steps[0], slot);
      StepStaysSettled(ttl, s, steps[0], slot.who);
      RunStands(ttl, Next(ttl, s, steps[0]), steps[1..], slot);
    }
  }

  /**
   What a replica knows by itself: if its earlier releases of the node are settled and it has sent
   none since it asked, a positive answer means that Redis names it for a lease from when it asked.
   */
  lemma {:induction false} AnswerCounts(ttl: nat, s: State, steps: seq<Step>, slot: Slot)
    requires Inv(ttl, s) && Runs(ttl, s, steps) && SendsNoRelease(steps, slot.who)
    requires slot !in s.calls && !Unsettled(s.calls, s.astray, slot.who)
    requires var t := After(ttl, s, steps);
             Enabled(t, Answer(slot)) && !t.calls[slot].kind.Release? && t.calls[slot].reply == Some(true)
    ensures var t := After(ttl, s, steps);
            && slot.who in Answered(t, slot).confirmed && Answered(t, slot).confirmed[slot.who] == t.calls[slot].sentAt
            && (t.clock < t.calls[slot].sentAt + ttl ==> Get(t.store, slot.who.1, t.clock) == Some(slot.who.0))
  {
    RunStands(ttl, s, steps, slot);
    RunKeepsInv(ttl, s, steps);
    AnsweredInTime(ttl, After(ttl, s, steps), slot);
  }

  lemma {:induction false} AnsweredInTime(ttl: nat, t: State, slot: Slot)
    requires Inv(ttl, t) && Enabled(t, Answer(slot)) && !t.calls[slot].kind.Release? && t.calls[slot].reply == Some(true)
    requires slot.who in t.granted
    ensures slot.who in Answered(t, slot).confirmed && Answered(t, slot).confirmed[slot.who] == t.calls[slot].sentAt
    ensures t.clock < t.calls[slot].sentAt + ttl ==> Get(t.store, slot.who.1, t.clock) == Some(slot.who.0)
  {
  }

  // ---------- Two owners by a late release ----------

  function LateReleaseRun(a: Slot, b: Slot): seq<Step> {
    CallRun(a, Acquire, Fine) + CallRun(a, Release, RequestLost) + CallRun(a, Renew, Fine)
    + [Late(Stray(a.who, Release))] + CallRun(b, Acquire, Fine)
  }

  lemma {:induction false} ThenCall(ttl: nat, s: State, steps: seq<Step>, slot: Slot, kind: Kind, luck: Luck)
    requires Runs(ttl, s, steps) && Enabled(After(ttl, s, steps), Send(slot, kind))
    ensures Runs(ttl, s, steps + CallRun(slot, kind, luck))
    ensures After(ttl, s, steps + CallRun(slot, kind, luck)) == Called(ttl, After(ttl, s, steps), slot, kind, luck)
  {
    CallIsARun(ttl, After(ttl, s, steps), slot, kind, luck);
    RunsJoin(ttl, s, steps, CallRun(slot, kind, luck));
  }

  /** The replica owns the node, and these releases of it are astray. */
  ghost predicate OwnsAlone(ttl: nat, s: State, who: Claim, astray: set<Stray>) {
    && s.clock == 0 && s.store == map[who.1 := Entry(who.0, ttl)] && s.owned == {who} && s.calls == map[] && s.astray == astray
    && s.callbacks == map[who := [Acquired]]
  }

  lemma {:induction false} FirstAcquire(ttl: nat, who: Claim)
    requires ttl > 0
    ensures var slot := Slot(who, Pass);
            Runs(ttl, Start(), CallRun(slot, Acquire, Fine)) && OwnsAlone(ttl, End(ttl, CallRun(slot, Acquire, Fine)), who, {})
  {
    var slot := Slot(who, Pass);
    CallIsARun(ttl, Start(), slot, Acquire, Fine);
    CallIsOver(ttl, Start(), slot, Acquire, Fine);
    assert End(ttl, CallRun(slot, Acquire, Fine)).callbacks[who] == [Acquired];
  }

  lemma {:induction false} ReleaseGoesAstray(ttl: nat, s: State, who: Claim)
    requires OwnsAlone(ttl, s, who, {}) && ttl > 0
    ensures var slot := Slot(who, Pass);
            var steps := CallRun(slot, Release, RequestLost) + CallRun(slot, Renew, Fine);
            Runs(ttl, s, steps) && OwnsAlone(ttl, After(ttl, s, steps), who, {Stray(who, Release)})
  {
    var slot := Slot(who, Pass);
    var first := CallRun(slot, Release, RequestLost);
    CallIsARun(ttl, s, slot, Release, RequestLost);
    CallIsOver(ttl, s, slot, Release, RequestLost);
    ThenCall(ttl, s, first, slot, Renew, Fine);
    CallIsOver(ttl, After(ttl, s, first), slot, Renew, Fine);
  }

  lemma {:induction false} LateReleaseLetsIn(ttl: nat, s: State, who: Claim, slot: Slot)
    requires OwnsAlone(ttl, s, who, {Stray(who, Release)}) && ttl > 0
    requires slot.from == Pass && slot.who.1 == who.1 && slot.who.0 != who.0
    ensures var steps := [Late(Stray(who, Release))] + CallRun(slot, Acquire, Fine);
            && Runs(ttl, s, steps) && After(ttl, s, steps).clock == 0
            && After(ttl, s, steps).owned == {who, slot.who}
            && CallbacksOf(After(ttl, s, steps), who) == CallbacksOf(After(ttl, s, steps), slot.who) == [Acquired]
  {
    var late := Late(Stray(who, Release));
    OneStep(ttl, s, late);
    ThenCall(ttl, s, [late], slot, Acquire, Fine);
  }

  /**
   A check gives the node up and its release fails, so the node stays owned; the next check renews
   it; then the release runs after all and another replica wins. Both own the node at the same
   instant, though neither lease has run out.
   */
  lemma {:induction false} LateReleaseSharesANode(ttl: nat, a: Replica, b: Replica, node: Node)
    requires a != b && ttl > 0
    ensures var steps := LateReleaseRun(Slot((a, node), Pass), Slot((b, node), Pass));
            && Runs(ttl, Start(), steps) && End(ttl, steps).clock == 0
            && End(ttl, steps).owned == {(a, node), (b, node)}
            && CallbacksOf(End(ttl, steps), (a, node)) == CallbacksOf(End(ttl, steps), (b, node)) == [Acquired]
  {
    var p, q := Slot((a, node), Pass), Slot((b, node), Pass);
    var first := CallRun(p, Acquire, Fine);
    var second := CallRun(p, Release, RequestLost) + CallRun(p, Renew, Fine);
    var third := [Late(Stray(p.who, Release))] + CallRun(q, Acquire, Fine);
    FirstAcquire(ttl, p.who);
    ReleaseGoesAstray(ttl, End(ttl, first), p.who);
    RunsJoin(ttl, Start(), first, second);
    LateReleaseLetsIn(ttl, End(ttl, first + second), p.who, q);
    RunsJoin(ttl, Start(), first + second, third);
    assert LateReleaseRun(p, q) == first + second + third;
  }
}
