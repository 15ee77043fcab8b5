/**
 Nodes do not see each other: a run takes each node through the steps of that node, and nothing else
 matters to it. So the checks of one pass, which are started together and run side by side, end as if
 they had run one after another, whatever other replicas, `stop` and the clock do in between.
 */
module PassOrder {
  import opened Wrappers
  import opened RedisStore
  import opened OwnershipProtocol
  import opened NodeOwnership

  // ---------- What one node sees of a run ----------

  /** The claim a step is about; the clock and a crash are about all of them. */
  function About(step: Step): Option<Claim> {
    match step
    case Send(slot, _) => Some(slot.who)
    case Execute(slot) => Some(slot.who)
    case Answer(slot) => Some(slot.who)
    case Break(slot) => Some(slot.who)
    case Late(stray) => Some(stray.who)
    case Drop(stray) => Some(stray.who)
    case _ => None
  }

  predicate Concerns(step: Step, node: Node) {
    About(step).None? || About(step).value.1 == node
  }

  /** The steps that concern a node. */
  function Of(steps: seq<Step>, node: Node): seq<Step> {
    if steps == [] then []
    else (if Concerns(steps[0], node) then [steps[0]] else []) + Of(steps[1..], node)
  }

  predicate SameEntry<K, V(==)>(a: map<K, V>, b: map<K, V>, key: K) {
    (key in a <==> key in b) && (key in a ==> a[key] == b[key])
  }

  predicate SameStrays(a: set<Stray>, b: set<Stray>, who: Claim) {
    && (Stray(who, Acquire) in a <==> Stray(who, Acquire) in b)
    && (Stray(who, Renew) in a <==> Stray(who, Renew) in b)
    && (Stray(who, Release) in a <==> Stray(who, Release) in b)
  }

  predicate SameCalls(a: map<Slot, Call>, b: map<Slot, Call>, who: Claim) {
    SameEntry(a, b, Slot(who, Pass)) && SameEntry(a, b, Slot(who, Stop))
  }

  predicate SameOwner(s: State, t: State, who: Claim) {
    (who in s.owned <==> who in t.owned) && CallbacksOf(s, who) == CallbacksOf(t, who)
  }

  /** The states agree on all they hold for this claim. */
  predicate SameClaim(s: State, t: State, who: Claim) {
    && SameOwner(s, t, who) && SameCalls(s.calls, t.calls, who) && SameStrays(s.astray, t.astray, who)
    && SameEntry(s.granted, t.granted, who) && SameEntry(s.confirmed, t.confirmed, who)
  }

  ghost predicate SameClaims(s: State, t: State, node: Node) {
    forall replica: Replica :: SameClaim(s, t, (replica, node))
  }

  /** The states agree on this node. */
  ghost predicate SameNode(s: State, t: State, node: Node) {
    s.clock == t.clock && SameKey(s.store, t.store, node) && SameClaims(s, t, node)
  }

  // ---------- Steps about another claim ----------

  lemma {:induction false} OtherSend(s: State, slot: Slot, kind: Kind, who: Claim)
    requires Enabled(s, Send(slot, kind)) && slot.who != who
    ensures SameClaim(Sent(s, slot, kind), s, who)
  {
  }

  lemma {:induction false} OtherRunning(ttl: nat, s: State, other: Claim, kind: Kind, who: Claim)
    requires other != who
    ensures SameClaim(Ran(ttl, s, other, kind), s, who)
  {
  }

  lemma {:induction false} OtherExecute(ttl: nat, s: State, slot: Slot, who: Claim)
    requires Enabled(s, Execute(slot)) && slot.who != who
    ensures SameClaim(Executed(ttl, s, slot), s, who)
  {
    OtherRunning(ttl, s, slot.who, s.calls[slot].kind, who);
  }

  lemma {:induction false} OtherAnswer(s: State, slot: Slot, who: Claim)
    requires Enabled(s, Answer(slot)) && slot.who != who
    ensures SameClaim(Answered(s, slot), s, who)
  {
    HearingTouches(s, slot.who, s.calls[slot]);
  }

  lemma {:induction false} OtherBreak(s: State, slot: Slot, who: Claim)
    requires Enabled(s, Break(slot)) && slot.who != who
    ensures SameClaim(Broken(s, slot), s, who)
  {
  }

  lemma {:induction false} OtherClaim(ttl: nat, s: State, step: Step, who: Claim)
    requires Enabled(s, step) && About(step).Some? && About(step).value != who
    ensures SameClaim(Next(ttl, s, step), s, who)
  {
    match step
    case Send(slot, kind) => OtherSend(s, slot, kind, who);
    case Execute(slot) => OtherExecute(ttl, s, slot, who);
    case Answer(slot) => OtherAnswer(s, slot, who);
    case Break(slot) => OtherBreak(s, slot, who);
    case Late(stray) => OtherRunning(ttl, s, stray.who, stray.kind, who);
    case Drop(stray) =>
  }

  lemma {:induction false} OtherNode(ttl: nat, s: State, step: Step, node: Node)
    requires Enabled(s, step) && !Concerns(step, node)
    ensures SameNode(Next(ttl, s, step), s, node)
  {
    StepLeavesKey(ttl, s, step, node);
    ClockStays(ttl, s, step);
    forall replica: Replica
      ensures SameClaim(Next(ttl, s, step), s, (replica, node))
    {
      OtherClaim(ttl, s, step, (replica, node));
    }
  }

  lemma {:induction false} ClockStays(ttl: nat, s: State, step: Step)
    requires Enabled(s, step) && !step.Tick?
    ensures Next(ttl, s, step).clock == s.clock
  {
  }

  // ---------- Steps about the same claim ----------

  lemma {:induction false} UnsettledAlike(s: State, t: State, who: Claim)
    requires SameClaim(s, t, who)
    ensures Unsettled(s.calls, s.astray, who) <==> Unsettled(t.calls, t.astray, who)
  {
  }

  lemma {:induction false} StoreAlike(ttl: nat, s: State, t: State, who: Claim, kind: Kind)
    requires s.clock == t.clock && SameKey(s.store, t.store, who.1)
    ensures Works(s, who, kind) == Works(t, who, kind)
    ensures SameKey(Ran(ttl, s, who, kind).store, Ran(ttl, t, who, kind).store, who.1)
  {
  }

  lemma {:induction false} RunningAlike(ttl: nat, s: State, t: State, who: Claim, kind: Kind)
    requires s.clock == t.clock && SameKey(s.store, t.store, who.1) && SameClaim(s, t, who)
    ensures Works(s, who, kind) == Works(t, who, kind)
    ensures SameKey(Ran(ttl, s, who, kind).store, Ran(ttl, t, who, kind).store, who.1)
    ensures SameEntry(Ran(ttl, s, who, kind).granted, Ran(ttl, t, who, kind).granted, who)
  {
    StoreAlike(ttl, s, t, who, kind);
    UnsettledAlike(s, t, who);
    GrantedByRunning(ttl, s, who, kind);
    GrantedByRunning(ttl, t, who, kind);
  }

  lemma {:induction false} GrantedByRunning(ttl: nat, s: State, who: Claim, kind: Kind)
    ensures Ran(ttl, s, who, kind).granted == if kind.Release? then s.granted else GrantedIf(s, who, Works(s, who, kind))
  {
  }

  /** What running a command leaves alone. */
  lemma {:induction false} RunningKeeps(ttl: nat, s: State, who: Claim, kind: Kind)
    ensures var u := Ran(ttl, s, who, kind);
            u.clock == s.clock && u.owned == s.owned && u.callbacks == s.callbacks && u.calls == s.calls
            && u.astray == s.astray && u.confirmed == s.confirmed
  {
  }

  lemma {:induction false} OwnRunning(ttl: nat, s: State, t: State, who: Claim, kind: Kind)
    requires s.clock == t.clock && SameKey(s.store, t.store, who.1) && SameClaim(s, t, who)
    ensures SameClaim(Ran(ttl, s, who, kind), Ran(ttl, t, who, kind), who)
  {
    RunningAlike(ttl, s, t, who, kind);
    RunningKeeps(ttl, s, who, kind);
    RunningKeeps(ttl, t, who, kind);
  }

  lemma {:induction false} OwnExecute(ttl: nat, s: State, t: State, slot: Slot)
    requires Enabled(s, Execute(slot)) && Enabled(t, Execute(slot))
    requires s.clock == t.clock && SameKey(s.store, t.store, slot.who.1) && SameClaim(s, t, slot.who)
    requires s.calls[slot] == t.calls[slot]
    ensures SameClaim(Executed(ttl, s, slot), Executed(ttl, t, slot), slot.who)
    ensures SameKey(Executed(ttl, s, slot).store, Executed(ttl, t, slot).store, slot.who.1)
  {
    RunningAlike(ttl, s, t, slot.who, s.calls[slot].kind);
    RunningKeeps(ttl, s, slot.who, s.calls[slot].kind);
    RunningKeeps(ttl, t, slot.who, s.calls[slot].kind);
  }

  lemma {:induction false} LoseAlike(s: State, t: State, who: Claim)
    requires SameOwner(s, t, who)
    ensures SameOwner(Lose(s, who), Lose(t, who), who)
  {
  }

  lemma {:induction false} GainAlike(s: State, t: State, who: Claim)
    requires SameOwner(s, t, who)
    ensures SameOwner(Gain(s, who), Gain(t, who), who)
  {
  }

  lemma {:induction false} HearingAlike(s: State, t: State, who: Claim, call: Call)
    requires SameOwner(s, t, who) && call.reply.Some?
    ensures SameOwner(Heard(s, who, call), Heard(t, who, call), who)
  {
    LoseAlike(s, t, who);
    GainAlike(s, t, who);
  }

  lemma {:induction false} OwnAnswer(s: State, t: State, slot: Slot)
    requires Enabled(s, Answer(slot)) && Enabled(t, Answer(slot)) && SameClaim(s, t, slot.who) && s.calls[slot] == t.calls[slot]
    ensures SameClaim(Answered(s, slot), Answered(t, slot), slot.who)
  {
    HearingTouches(s, slot.who, s.calls[slot]);
    HearingTouches(t, slot.who, t.calls[slot]);
    HearingAlike(s, t, slot.who, s.calls[slot]);
  }

  lemma {:induction false} OwnBreak(s: State, t: State, slot: Slot)
    requires Enabled(s, Break(slot)) && Enabled(t, Break(slot)) && SameClaim(s, t, slot.who) && s.calls[slot] == t.calls[slot]
    ensures SameClaim(Broken(s, slot), Broken(t, slot), slot.who)
  {
    LoseAlike(s, t, slot.who);
    BreakMeans(s, slot);
    BreakMeans(t, slot);
  }

  lemma {:induction false} BreakMeans(s: State, slot: Slot)
    requires Enabled(s, Break(slot))
    ensures var u := Broken(s, slot);
            && u.calls == s.calls - {slot} && u.granted == s.granted && u.confirmed == s.confirmed
            && u.astray == (if s.calls[slot].reply.None? then s.astray + {Stray(slot.who, s.calls[slot].kind)} else s.astray)
            && u.owned == (if slot.from.Stop? then Lose(s, slot.who) else s).owned
            && u.callbacks == (if slot.from.Stop? then Lose(s, slot.who) else s).callbacks
  {
  }

  lemma {:induction false} OwnSend(s: State, t: State, slot: Slot, kind: Kind)
    requires Enabled(s, Send(slot, kind)) && SameClaim(s, t, slot.who) && s.clock == t.clock
    ensures SameClaim(Sent(s, slot, kind), Sent(t, slot, kind), slot.who)
  {
  }

  /** The call itself, in both states. */
  lemma {:induction false} SlotAlike(s: State, t: State, slot: Slot)
    requires SameClaim(s, t, slot.who)
    ensures SameEntry(s.calls, t.calls, slot)
  {
    assert slot == Slot(slot.who, slot.from) && (slot.from == Pass || slot.from == Stop);
  }

  lemma {:induction false} EnabledAlike(s: State, t: State, step: Step)
    requires Enabled(s, step) && About(step).Some? && SameClaim(s, t, About(step).value)
    ensures Enabled(t, step)
  {
    match step
    case Send(slot, kind) => SlotAlike(s, t, slot);
    case Execute(slot) => SlotAlike(s, t, slot);
    case Answer(slot) => SlotAlike(s, t, slot);
    case Break(slot) => SlotAlike(s, t, slot);
    case Late(stray) => StrayAlike(s.astray, t.astray, stray.who, stray.kind);
    case Drop(stray) => StrayAlike(s.astray, t.astray, stray.who, stray.kind);
  }

  lemma {:induction false} StrayAlike(a: set<Stray>, b: set<Stray>, who: Claim, kind: Kind)
    requires SameStrays(a, b, who)
    ensures Stray(who, kind) in a <==> Stray(who, kind) in b
  {
    match kind
    case Acquire =>
    case Renew =>
    case Release =>
  }

  lemma {:induction false} OwnClaim(ttl: nat, s: State, t: State, step: Step)
    requires Enabled(s, step) && Enabled(t, step) && About(step).Some?
    requires s.clock == t.clock && SameKey(s.store, t.store, About(step).value.1) && SameClaim(s, t, About(step).value)
    ensures SameClaim(Next(ttl, s, step), Next(ttl, t, step), About(step).value)
  {
    match step
    case Send(slot, kind) => OwnSend(s, t, slot, kind);
    case Execute(slot) => SlotAlike(s, t, slot); OwnExecute(ttl, s, t, slot);
    case Answer(slot) => SlotAlike(s, t, slot); OwnAnswer(s, t, slot);
    case Break(slot) => SlotAlike(s, t, slot); OwnBreak(s, t, slot);
    case Late(stray) => OwnRunning(ttl, s, t, stray.who, stray.kind);
    case Drop(stray) => assert stray == Stray(stray.who, stray.kind);
  }

  lemma {:induction false} KeyAlike(ttl: nat, s: State, t: State, step: Step)
    requires Enabled(s, step) && Enabled(t, step) && About(step).Some?
    requires s.clock == t.clock && SameKey(s.store, t.store, About(step).value.1) && SameClaim(s, t, About(step).value)
    ensures SameKey(Next(ttl, s, step).store, Next(ttl, t, step).store, About(step).value.1)
  {
    match step
    case Execute(slot) => SlotAlike(s, t, slot); OwnExecute(ttl, s, t, slot);
    case Late(stray) => StoreAlike(ttl, s, t, stray.who, stray.kind);
    case _ => StoreStays(ttl, s, step); StoreStays(ttl, t, step);
  }

  lemma {:induction false} StoreStays(ttl: nat, s: State, step: Step)
    requires Enabled(s, step) && !step.Execute? && !step.Late?
    ensures Next(ttl, s, step).store == s.store
  {
  }

  lemma {:induction false} CrashAlike(s: State, t: State, replica: Replica, who: Claim)
    requires SameClaim(s, t, who)
    ensures SameClaim(Crashed(s, replica), Crashed(t, replica), who)
  {
    forall kind: Kind
      ensures Stray(who, kind) in Crashed(s, replica).astray <==> Stray(who, kind) in Crashed(t, replica).astray
    {
      StrayAlike(s.astray, t.astray, who, kind);
      StraysOfCrash(s, replica, who, kind);
      StraysOfCrash(t, replica, who, kind);
    }
  }

  predicate AwaitsKind(calls: map<Slot, Call>, slot: Slot, kind: Kind) {
    slot in calls && calls[slot].kind == kind && calls[slot].reply.None?
  }

  lemma {:induction false} StraysOfCrash(s: State, replica: Replica, who: Claim, kind: Kind)
    ensures Stray(who, kind) in Crashed(s, replica).astray <==>
              || Stray(who, kind) in s.astray
              || (who.0 == replica && (AwaitsKind(s.calls, Slot(who, Pass), kind) || AwaitsKind(s.calls, Slot(who, Stop), kind)))
  {
    if slot :| slot in s.calls && slot.who == who && s.calls[slot].kind == kind && s.calls[slot].reply.None? {
      assert slot == Slot(slot.who, slot.from) && (slot.from == Pass || slot.from == Stop);
    }
  }

  lemma {:induction false} Transitive(s: State, t: State, u: State, who: Claim)
    requires SameClaim(s, t, who) && SameClaim(t, u, who)
    ensures SameClaim(s, u, who)
  {
  }

  lemma {:induction false} Symmetric(s: State, t: State, who: Claim)
    requires SameClaim(s, t, who)
    ensures SameClaim(t, s, who)
  {
  }

  lemma {:induction false} ClaimOfNode(ttl: nat, s: State, t: State, step: Step, node: Node, who: Claim)
    requires Enabled(s, step) && Enabled(t, step) && Concerns(step, node) && who.1 == node && SameNode(s, t, node)
    ensures SameClaim(Next(ttl, s, step), Next(ttl, t, step), who)
  {
    assert SameClaim(s, t, (who.0, node)) && who == (who.0, node);
    if About(step) == Some(who) {
      OwnClaim(ttl, s, t, step);
    } else if About(step).Some? {
      OtherClaim(ttl, s, step, who);
      OtherClaim(ttl, t, step, who);
      Symmetric(Next(ttl, t, step), t, who);
      Transitive(Next(ttl, s, step), s, t, who);
      Transitive(Next(ttl, s, step), t, Next(ttl, t, step), who);
    } else if step.Crash? {
      CrashAlike(s, t, step.replica, who);
    }
  }

  lemma {:induction false} OwnNode(ttl: nat, s: State, t: State, step: Step, node: Node)
    requires Enabled(s, step) && Concerns(step, node) && SameNode(s, t, node)
    ensures Enabled(t, step) && SameNode(Next(ttl, s, step), Next(ttl, t, step), node)
  {
    if About(step).Some? {
      var who := About(step).value;
      assert SameClaim(s, t, (who.0, node)) && who == (who.0, node);
      EnabledAlike(s, t, step);
      KeyAlike(ttl, s, t, step);
      ClockStays(ttl, s, step);
      ClockStays(ttl, t, step);
    }
    forall replica: Replica
      ensures SameClaim(Next(ttl, s, step), Next(ttl, t, step), (replica, node))
    {
      ClaimOfNode(ttl, s, t, step, node, (replica, node));
    }
  }

  lemma {:induction false} NodesCompose(s: State, t: State, u: State, node: Node)
    requires SameNode(s, t, node) && SameNode(t, u, node)
    ensures SameNode(s, u, node) && SameNode(t, s, node)
  {
    forall replica: Replica
      ensures SameClaim(s, u, (replica, node)) && SameClaim(t, s, (replica, node))
    {
      assert SameClaim(s, t, (replica, node)) && SameClaim(t, u, (replica, node));
      Transitive(s, t, u, (replica, node));
      Symmetric(s, t, (replica, node));
    }
  }

  /** A run takes each node through its own steps only. */
  lemma {:induction false} NodeByNode(ttl: nat, s: State, t: State, steps: seq<Step>, node: Node)
    requires Runs(ttl, s, steps) && SameNode(s, t, node)
    ensures Runs(ttl, t, Of(steps, node))
    ensures SameNode(After(ttl, s, steps), After(ttl, t, Of(steps, node)), node)
    decreases |steps|
  {
    if steps != [] {
      if Concerns(steps[0], node) {
        OwnNode(ttl, s, t, steps[0], node);
        NodeByNode(ttl, Next(ttl, s, steps[0]), Next(ttl, t, steps[0]), steps[1..], node);
        RunsOn(ttl, t, steps[0], Of(steps[1..], node));
      } else {
        OtherNode(ttl, s, steps[0], node);
        NodesCompose(Next(ttl, s, steps[0]), s, t, node);
        NodeByNode(ttl, Next(ttl, s, steps[0]), t, steps[1..], node);
        assert Of(steps, node) == Of(steps[1..], node);
      }
    }
  }

  lemma {:induction false} RunsOn(ttl: nat, t: State, step: Step, rest: seq<Step>)
    requires Enabled(t, step) && Runs(ttl, Next(ttl, t, step), rest)
    ensures Runs(ttl, t, [step] + rest) && After(ttl, t, [step] + rest) == After(ttl, Next(ttl, t, step), rest)
  {
    assert ([step] + rest)[1..] == rest;
  }

  lemma {:induction false} SameAsItself(s: State, node: Node)
    ensures SameNode(s, s, node)
  {
  }

  /**
   Two runs that take every node through the same steps end alike, whichever nodes they served first:
   passes, `stop`, calls that run late, other replicas and the clock all included.
   */
  lemma {:induction false} OnlyTheOrderPerNodeMatters(ttl: nat, s: State, a: seq<Step>, b: seq<Step>, node: Node)
    requires Runs(ttl, s, a) && Runs(ttl, s, b) && Of(a, node) == Of(b, node)
    ensures SameNode(After(ttl, s, a), After(ttl, s, b), node)
  {
    SameAsItself(s, node);
    NodeByNode(ttl, s, s, a, node);
    NodeByNode(ttl, s, s, b, node);
    var there := After(ttl, s, Of(a, node));
    SameAsItself(there, node);
    NodesCompose(After(ttl, s, b), there, there, node);
    NodesCompose(After(ttl, s, a), there, After(ttl, s, b), node);
  }

  // ---------- Side by side is one after another ----------

  lemma {:induction false} CheckIsLocal(v: View, w: View, replica: Replica, node: Node, ttl: nat, connected: bool, luck: Luck)
    requires SameView(v, w, node)
    ensures SameView(Checked(v, replica, node, ttl, connected, luck), Checked(w, replica, node, ttl, connected, luck), node)
  {
  }

  /** Of each node, a pass leaves what its own check leaves. */
  lemma {:induction false} PassIsItsChecks(v: View, replica: Replica, nodes: seq<Node>, ttl: nat, connected: set<Node>,
                                           lucks: seq<Luck>, i: nat)
    requires i < |lucks| <= |nodes| && Distinct(nodes)
    ensures SameView(PassChecked(v, replica, nodes, ttl, connected, lucks),
                     Checked(v, replica, nodes[i], ttl, nodes[i] in connected, lucks[i]), nodes[i])
    decreases |lucks|
  {
    var k := |lucks| - 1;
    var before := PassChecked(v, replica, nodes, ttl, connected, lucks[..k]);
    if i < k {
      PassIsItsChecks(v, replica, nodes, ttl, connected, lucks[..k], i);
      CheckLeavesOthers(before, replica, nodes[k], ttl, nodes[k] in connected, lucks[k], nodes[i]);
    } else {
      PassLeavesOthers(v, replica, nodes, ttl, connected, lucks[..k], nodes[k]);
      CheckIsLocal(before, v, replica, nodes[k], ttl, nodes[k] in connected, lucks[k]);
    }
  }

  /** The view agrees with the state on this node. */
  ghost predicate MirrorsAt(s: State, replica: Replica, v: View, node: Node) {
    && v.clock == s.clock && SameKey(v.store, s.store, node)
    && (node in v.owned <==> (replica, node) in s.owned)
    && Told(v, node) == CallbacksOf(s, (replica, node))
  }

  lemma {:induction false} MirrorsEverywhere(s: State, replica: Replica, v: View)
    requires forall node: Node :: MirrorsAt(s, replica, v, node)
    ensures Mirrors(s, replica, v)
  {
    forall node: Node
      ensures (node in v.store <==> node in s.store) && (node in v.store ==> v.store[node] == s.store[node])
      ensures (node in v.owned <==> (replica, node) in s.owned) && Told(v, node) == CallbacksOf(s, (replica, node))
    {
      assert MirrorsAt(s, replica, v, node);
    }
    assert MirrorsAt(s, replica, v, "");
    assert v.store == s.store;
  }

  /** Each node's steps are those of its own check, and nothing else happens. */
  ghost predicate SideBySide(v: View, replica: Replica, nodes: seq<Node>, connected: set<Node>, lucks: seq<Luck>, steps: seq<Step>)
    requires |lucks| == |nodes|
  {
    && (forall i :: 0 <= i < |nodes| ==>
          Of(steps, nodes[i]) == CheckRun(v, replica, nodes[i], nodes[i] in connected, lucks[i]))
    && (forall node: Node :: node !in nodes ==> Of(steps, node) == [])
  }

  lemma {:induction false} NodeEndsChecked(ttl: nat, s: State, replica: Replica, v: View, nodes: seq<Node>, connected: set<Node>,
                                           lucks: seq<Luck>, steps: seq<Step>, node: Node)
    requires |lucks| == |nodes| && Distinct(nodes) && Mirrors(s, replica, v) && Runs(ttl, s, steps)
    requires Slot((replica, node), Pass) !in s.calls && SideBySide(v, replica, nodes, connected, lucks, steps)
    ensures MirrorsAt(After(ttl, s, steps), replica, PassChecked(v, replica, nodes, ttl, connected, lucks), node)
  {
    SameAsItself(s, node);
    NodeByNode(ttl, s, s, steps, node);
    assert SameClaim(After(ttl, s, steps), After(ttl, s, Of(steps, node)), (replica, node));
    if node in nodes {
      var i :| 0 <= i < |nodes| && nodes[i] == node;
      CheckIsARun(ttl, s, replica, v, node, node in connected, lucks[i]);
      PassIsItsChecks(v, replica, nodes, ttl, connected, lucks, i);
    } else {
      PassLeavesOthers(v, replica, nodes, ttl, connected, lucks, node);
    }
  }

  /** However its checks interleave, a pass ends as if it had run them one after another. */
  lemma {:induction false} AnyOrderWillDo(ttl: nat, s: State, replica: Replica, v: View, nodes: seq<Node>, connected: set<Node>,
                                          lucks: seq<Luck>, steps: seq<Step>)
    requires |lucks| == |nodes| && Distinct(nodes) && Mirrors(s, replica, v) && Runs(ttl, s, steps)
    requires forall node: Node :: Slot((replica, node), Pass) !in s.calls
    requires SideBySide(v, replica, nodes, connected, lucks, steps)
    ensures Mirrors(After(ttl, s, steps), replica, PassChecked(v, replica, nodes, ttl, connected, lucks))
  {
    forall node: Node
      ensures MirrorsAt(After(ttl, s, steps), replica, PassChecked(v, replica, nodes, ttl, connected, lucks), node)
    {
      NodeEndsChecked(ttl, s, replica, v, nodes, connected, lucks, steps, node);
    }
    MirrorsEverywhere(After(ttl, s, steps), replica, PassChecked(v, replica, nodes, ttl, connected, lucks));
  }
}
