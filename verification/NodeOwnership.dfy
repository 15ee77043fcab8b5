/**
 One replica's half of media-node ownership: the `owned` set, one check of a node, a pass over all
 of them, and giving everything up on shutdown, during which passes may still begin. Each is shown
 to be a run of OwnershipProtocol, so what holds of every run there holds of any mix of these objects.
 */
module NodeOwnership {
  import opened Wrappers
  import opened RedisStore
  import opened OwnershipProtocol

  /** What becomes of one Redis call: it works, or fails before or after Redis ran it. */
  datatype Luck = Fine | RequestLost | ReplyLost

  /** The store, and what one replica keeps: the nodes it owns and what their owners' callbacks were told. */
  datatype View = View(clock: int, store: map<Node, Entry>, owned: set<Node>, told: map<Node, seq<Callback>>)

  function Told(v: View, node: Node): seq<Callback> {
    if node in v.told then v.told[node] else []
  }

  ghost predicate OwnerMirrors(s: State, replica: Replica, v: View) {
    && (forall node: Node :: node in v.owned <==> (replica, node) in s.owned)
    && (forall node: Node :: Told(v, node) == CallbacksOf(s, (replica, node)))
  }

  /** The view is what the replica sees of the whole system. */
  ghost predicate Mirrors(s: State, replica: Replica, v: View) {
    v.clock == s.clock && v.store == s.store && OwnerMirrors(s, replica, v)
  }

  function Dropped(v: View, node: Node): View {
    if node in v.owned then
      v.(owned := v.owned - {node}, told := v.told[node := Told(v, node) + [Lost]])
    else v
  }

  function Taken(v: View, node: Node): View {
    v.(owned := v.owned + {node}, told := v.told[node := Told(v, node) + [Acquired]])
  }

  /** The call a check makes, if any. */
  function CallFor(v: View, node: Node, connected: bool): Option<Kind> {
    if node in v.owned then Some(if connected then Renew else Release)
    else if connected then Some(Acquire)
    else None
  }

  /** The store once Redis ran the command. */
  function Commanded(v: View, replica: Replica, node: Node, ttl: nat, kind: Kind): map<Node, Entry> {
    match kind
    case Acquire => SetIfFree(v.store, node, replica, ttl, v.clock)
    case Renew => RenewIfHeld(v.store, node, replica, ttl, v.clock)
    case Release => DeleteIfHeld(v.store, node, replica, v.clock)
  }

  /** The reply a call would get in this view, and what it does to it. */
  function HeardIn(v: View, replica: Replica, node: Node, kind: Kind): View {
    match kind
    case Acquire => if !Live(v.store, node, v.clock) then Taken(v, node) else v
    case Renew => if !HeldBy(v.store, node, replica, v.clock) then Dropped(v, node) else v
    case Release => Dropped(v, node)
  }

  /** `checkNode`: the store and the replica afterwards. */
  function Checked(v: View, replica: Replica, node: Node, ttl: nat, connected: bool, luck: Luck): View {
    match CallFor(v, node, connected)
    case None => v
    case Some(kind) =>
      var t := if luck.Fine? then HeardIn(v, replica, node, kind) else v;
      if luck.RequestLost? then t else t.(store := Commanded(v, replica, node, ttl, kind))
  }

  /** The protocol steps behind one call. */
  function CallRun(slot: Slot, kind: Kind, luck: Luck): seq<Step> {
    match luck
    case Fine => [Send(slot, kind), Execute(slot), Answer(slot)]
    case ReplyLost => [Send(slot, kind), Execute(slot), Break(slot)]
    case RequestLost => [Send(slot, kind), Break(slot)]
  }

  function CheckRun(v: View, replica: Replica, node: Node, connected: bool, luck: Luck): seq<Step> {
    match CallFor(v, node, connected)
    case None => []
    case Some(kind) => CallRun(Slot((replica, node), Pass), kind, luck)
  }

  /** The state after one call, without going through its steps. */
  function Called(ttl: nat, s: State, slot: Slot, kind: Kind, luck: Luck): State
    requires Enabled(s, Send(slot, kind))
  {
    var t := Next(ttl, s, Send(slot, kind));
    match luck
    case Fine => Answered(Executed(ttl, t, slot), slot)
    case ReplyLost => Next(ttl, Executed(ttl, t, slot), Break(slot))
    case RequestLost => Next(ttl, t, Break(slot))
  }

  lemma {:induction false} TwoSteps(ttl: nat, s: State, a: Step, b: Step)
    requires Enabled(s, a) && Enabled(Next(ttl, s, a), b)
    ensures Runs(ttl, s, [a, b]) && After(ttl, s, [a, b]) == Next(ttl, Next(ttl, s, a), b)
  {
    var t := Next(ttl, s, a);
    assert [a, b][1..] == [b];
    OneStep(ttl, t, b);
  }

  lemma {:induction false} ThreeSteps(ttl: nat, s: State, a: Step, b: Step, c: Step)
    requires Enabled(s, a) && Enabled(Next(ttl, s, a), b) && Enabled(Next(ttl, Next(ttl, s, a), b), c)
    ensures Runs(ttl, s, [a, b, c]) && After(ttl, s, [a, b, c]) == Next(ttl, Next(ttl, Next(ttl, s, a), b), c)
  {
    assert [a, b, c][1..] == [b, c];
    TwoSteps(ttl, Next(ttl, s, a), b, c);
  }

  lemma {:induction false} PutAndTake(calls: map<Slot, Call>, slot: Slot, sent: Call, answered: Call)
    requires slot !in calls
    ensures calls[slot := sent] - {slot} == calls && calls[slot := sent][slot := answered] - {slot} == calls
  {
  }

  lemma {:induction false} CallIsOver(ttl: nat, s: State, slot: Slot, kind: Kind, luck: Luck)
    requires Enabled(s, Send(slot, kind))
    ensures Called(ttl, s, slot, kind, luck).calls == s.calls
  {
    var t := Next(ttl, s, Send(slot, kind));
    PutAndTake(s.calls, slot, t.calls[slot], Executed(ttl, t, slot).calls[slot]);
  }

  lemma {:induction false} CallIsARun(ttl: nat, s: State, slot: Slot, kind: Kind, luck: Luck)
    requires Enabled(s, Send(slot, kind))
    ensures Runs(ttl, s, CallRun(slot, kind, luck))
    ensures After(ttl, s, CallRun(slot, kind, luck)) == Called(ttl, s, slot, kind, luck)
  {
    match luck
    case Fine => ThreeSteps(ttl, s, Send(slot, kind), Execute(slot), Answer(slot));
    case ReplyLost => ThreeSteps(ttl, s, Send(slot, kind), Execute(slot), Break(slot));
    case RequestLost => TwoSteps(ttl, s, Send(slot, kind), Break(slot));
  }

  lemma {:induction false} SentMeans(s: State, slot: Slot, kind: Kind)
    ensures var t := Sent(s, slot, kind);
            t.clock == s.clock && t.store == s.store && t.owned == s.owned && t.callbacks == s.callbacks
            && slot in t.calls && t.calls[slot] == Call(kind, s.clock, None)
  {
  }

  /** A command that ran, before its caller hears of it. */
  lemma {:induction false} RanMeans(ttl: nat, s: State, slot: Slot, kind: Kind)
    ensures var t := Executed(ttl, Sent(s, slot, kind), slot);
            && t.clock == s.clock && t.store == Ran(ttl, s, slot.who, kind).store && t.owned == s.owned && t.callbacks == s.callbacks
            && slot in t.calls && t.calls[slot] == Call(kind, s.clock, Some(Works(s, slot.who, kind)))
  {
    SentMeans(s, slot, kind);
  }

  lemma {:induction false} LoseMeans(s: State, t: State, who: Claim)
    requires t.owned == s.owned && t.callbacks == s.callbacks
    ensures Lose(t, who).owned == Lose(s, who).owned && Lose(t, who).callbacks == Lose(s, who).callbacks
  {
  }

  lemma {:induction false} GainMeans(s: State, t: State, who: Claim)
    requires t.owned == s.owned && t.callbacks == s.callbacks
    ensures Gain(t, who).owned == Gain(s, who).owned && Gain(t, who).callbacks == Gain(s, who).callbacks
  {
  }

  lemma {:induction false} HeardMeans(s: State, t: State, who: Claim, call: Call)
    requires t.owned == s.owned && t.callbacks == s.callbacks && call.reply.Some?
    ensures Heard(t, who, call).owned == Heard(s, who, call).owned && Heard(t, who, call).callbacks == Heard(s, who, call).callbacks
  {
    LoseMeans(s, t, who);
    GainMeans(s, t, who);
  }

  /** A call of a pass, seen from outside. */
  lemma {:induction false} CalledMeans(ttl: nat, s: State, slot: Slot, kind: Kind, luck: Luck)
    requires Enabled(s, Send(slot, kind)) && slot.from.Pass?
    ensures var t := Called(ttl, s, slot, kind, luck);
            var heard := Heard(s, slot.who, Call(kind, s.clock, Some(Works(s, slot.who, kind))));
            && t.clock == s.clock
            && t.store == (if luck.RequestLost? then s.store else Ran(ttl, s, slot.who, kind).store)
            && t.owned == (if luck.Fine? then heard.owned else s.owned)
            && t.callbacks == (if luck.Fine? then heard.callbacks else s.callbacks)
  {
    var t := Executed(ttl, Sent(s, slot, kind), slot);
    SentMeans(s, slot, kind);
    RanMeans(ttl, s, slot, kind);
    if luck.Fine? {
      HeardMeans(s, t, slot.who, t.calls[slot]);
      HearingTouches(t, slot.who, t.calls[slot]);
    }
  }

  lemma {:induction false} LoseMirrors(s: State, replica: Replica, v: View, node: Node)
    requires OwnerMirrors(s, replica, v)
    ensures OwnerMirrors(Lose(s, (replica, node)), replica, Dropped(v, node))
  {
  }

  lemma {:induction false} GainMirrors(s: State, replica: Replica, v: View, node: Node)
    requires OwnerMirrors(s, replica, v)
    ensures OwnerMirrors(Gain(s, (replica, node)), replica, Taken(v, node))
  {
  }

  lemma {:induction false} HeardMirrors(s: State, replica: Replica, v: View, node: Node, kind: Kind, sentAt: int)
    requires Mirrors(s, replica, v)
    ensures OwnerMirrors(Heard(s, (replica, node), Call(kind, sentAt, Some(Works(s, (replica, node), kind)))), replica,
                         HeardIn(v, replica, node, kind))
  {
    LoseMirrors(s, replica, v, node);
    GainMirrors(s, replica, v, node);
  }

  /** A check that makes a call, in terms of what the call does. */
  lemma {:induction false} CheckedMeans(ttl: nat, s: State, replica: Replica, v: View, node: Node, connected: bool, luck: Luck)
    requires Mirrors(s, replica, v) && CallFor(v, node, connected).Some?
    ensures var kind := CallFor(v, node, connected).value;
            var t := Checked(v, replica, node, ttl, connected, luck);
            && t.clock == v.clock
            && t.store == (if luck.RequestLost? then s.store else Ran(ttl, s, (replica, node), kind).store)
            && t.owned == (if luck.Fine? then HeardIn(v, replica, node, kind).owned else v.owned)
            && t.told == (if luck.Fine? then HeardIn(v, replica, node, kind).told else v.told)
  {
  }

  lemma {:induction false} CallMirrors(ttl: nat, s: State, replica: Replica, v: View, node: Node, connected: bool, luck: Luck, kind: Kind)
    requires Mirrors(s, replica, v) && CallFor(v, node, connected) == Some(kind)
    requires Enabled(s, Send(Slot((replica, node), Pass), kind))
    ensures Mirrors(Called(ttl, s, Slot((replica, node), Pass), kind, luck), replica,
                    Checked(v, replica, node, ttl, connected, luck))
  {
    CalledMeans(ttl, s, Slot((replica, node), Pass), kind, luck);
    CheckedMeans(ttl, s, replica, v, node, connected, luck);
    HeardMirrors(s, replica, v, node, kind, s.clock);
  }

  /** A check of a node is a run of the protocol, whatever `stop` and other replicas have in flight. */
  lemma {:induction false} CheckIsARun(ttl: nat, s: State, replica: Replica, v: View, node: Node, connected: bool, luck: Luck)
    requires Mirrors(s, replica, v) && Slot((replica, node), Pass) !in s.calls
    ensures var steps := CheckRun(v, replica, node, connected, luck);
            && Runs(ttl, s, steps)
            && Mirrors(After(ttl, s, steps), replica, Checked(v, replica, node, ttl, connected, luck))
            && After(ttl, s, steps).calls == s.calls
  {
    match CallFor(v, node, connected)
    case None =>
    case Some(kind) =>
      CallIsARun(ttl, s, Slot((replica, node), Pass), kind, luck);
      CallIsOver(ttl, s, Slot((replica, node), Pass), kind, luck);
      CallMirrors(ttl, s, replica, v, node, connected, luck, kind);
  }

  // ---------- A pass over the configured nodes ----------

  /** The first `|lucks|` nodes checked, one call each. */
  function PassChecked(v: View, replica: Replica, nodes: seq<Node>, ttl: nat, connected: set<Node>, lucks: seq<Luck>): View
    requires |lucks| <= |nodes|
    decreases |lucks|
  {
    if |lucks| == 0 then v
    else
      var k := |lucks| - 1;
      Checked(PassChecked(v, replica, nodes, ttl, connected, lucks[..k]), replica, nodes[k], ttl, nodes[k] in connected, lucks[k])
  }

  function PassRun(v: View, replica: Replica, nodes: seq<Node>, ttl: nat, connected: set<Node>, lucks: seq<Luck>): seq<Step>
    requires |lucks| <= |nodes|
    decreases |lucks|
  {
    if |lucks| == 0 then []
    else
      var k := |lucks| - 1;
      PassRun(v, replica, nodes, ttl, connected, lucks[..k])
      + CheckRun(PassChecked(v, replica, nodes, ttl, connected, lucks[..k]), replica, nodes[k], nodes[k] in connected, lucks[k])
  }

  /** A whole pass is a run of the protocol too. */
  lemma {:induction false} PassIsARun(ttl: nat, s: State, replica: Replica, v: View, nodes: seq<Node>,
                                      connected: set<Node>, lucks: seq<Luck>)
    requires |lucks| <= |nodes| && Mirrors(s, replica, v)
    requires forall node: Node :: node in nodes ==> Slot((replica, node), Pass) !in s.calls
    ensures var steps := PassRun(v, replica, nodes, ttl, connected, lucks);
            && Runs(ttl, s, steps)
            && Mirrors(After(ttl, s, steps), replica, PassChecked(v, replica, nodes, ttl, connected, lucks))
            && After(ttl, s, steps).calls == s.calls
    decreases |lucks|
  {
    if |lucks| > 0 {
      var k := |lucks| - 1;
      PassIsARun(ttl, s, replica, v, nodes, connected, lucks[..k]);
      var steps := PassRun(v, replica, nodes, ttl, connected, lucks[..k]);
      var between := PassChecked(v, replica, nodes, ttl, connected, lucks[..k]);
      CheckIsARun(ttl, After(ttl, s, steps), replica, between, nodes[k], nodes[k] in connected, lucks[k]);
      RunsJoin(ttl, s, steps, CheckRun(between, replica, nodes[k], nodes[k] in connected, lucks[k]));
    }
  }

  /**
   What a pass leaves, node by node, when every call works: a connected node is owned exactly when
   nobody else holds it, with a full lease; a disconnected one is not owned, nor held by us if we
   owned it before.
   */
  ghost predicate Settled(before: View, v: View, replica: Replica, node: Node, ttl: nat, connected: bool) {
    if connected && node in before.owned then
      && (node in v.owned <==> HeldBy(before.store, node, replica, v.clock))
      && (node in v.owned ==> node in v.store && v.store[node] == Entry(replica, v.clock + ttl))
    else if connected then
      && (node in v.owned <==> !Live(before.store, node, v.clock))
      && (node in v.owned ==> node in v.store && v.store[node] == Entry(replica, v.clock + ttl))
    else
      && node !in v.owned
      && (node in before.owned ==> !HeldBy(v.store, node, replica, v.clock))
  }

  /** The views agree on this node. */
  ghost predicate SameView(v: View, w: View, node: Node) {
    && v.clock == w.clock && SameKey(v.store, w.store, node)
    && (node in v.owned <==> node in w.owned) && Told(v, node) == Told(w, node)
  }

  ghost predicate Distinct(nodes: seq<Node>) {
    forall j, k :: 0 <= j < k < |nodes| ==> nodes[j] != nodes[k]
  }

  lemma {:induction false} CheckLeavesOthers(v: View, replica: Replica, node: Node, ttl: nat, connected: bool, luck: Luck, other: Node)
    requires other != node
    ensures SameView(Checked(v, replica, node, ttl, connected, luck), v, other)
  {
  }

  lemma {:induction false} PassLeavesOthers(v: View, replica: Replica, nodes: seq<Node>, ttl: nat, connected: set<Node>,
                                            lucks: seq<Luck>, other: Node)
    requires |lucks| <= |nodes| && forall i :: 0 <= i < |lucks| ==> nodes[i] != other
    ensures SameView(PassChecked(v, replica, nodes, ttl, connected, lucks), v, other)
    decreases |lucks|
  {
    if |lucks| > 0 {
      var k := |lucks| - 1;
      PassLeavesOthers(v, replica, nodes, ttl, connected, lucks[..k], other);
      CheckLeavesOthers(PassChecked(v, replica, nodes, ttl, connected, lucks[..k]), replica, nodes[k], ttl,
                        nodes[k] in connected, lucks[k], other);
    }
  }

  /** A pass whose calls all work settles every configured node. */
  lemma {:induction false} PassSettles(v: View, replica: Replica, nodes: seq<Node>, ttl: nat, connected: set<Node>,
                                       lucks: seq<Luck>, i: nat)
    requires i < |lucks| <= |nodes| && (forall j :: 0 <= j < |lucks| ==> lucks[j].Fine?)
    requires Distinct(nodes) && ttl > 0
    ensures Settled(v, PassChecked(v, replica, nodes, ttl, connected, lucks), replica, nodes[i], ttl, nodes[i] in connected)
    decreases |lucks|
  {
    var k := |lucks| - 1;
    if i < k {
      PassSettles(v, replica, nodes, ttl, connected, lucks[..k], i);
      CheckLeavesOthers(PassChecked(v, replica, nodes, ttl, connected, lucks[..k]), replica, nodes[k], ttl,
                        nodes[k] in connected, lucks[k], nodes[i]);
    } else {
      PassLeavesOthers(v, replica, nodes, ttl, connected, lucks[..k], nodes[k]);
    }
  }

  // ---------- Shutdown ----------

  /** One pass begun by a socket event: what it finds connected, and what becomes of its calls. */
  datatype Round = Round(connected: set<Node>, lucks: seq<Luck>)

  predicate RoundsFit(rounds: seq<Option<Round>>, nodes: seq<Node>) {
    forall k :: 0 <= k < |rounds| && rounds[k].Some? ==> |rounds[k].value.lucks| == |nodes|
  }

  /** The release of `stop` has run, or has not. */
  function Freed(v: View, replica: Replica, node: Node, luck: Luck): View {
    if luck.RequestLost? then v else v.(store := DeleteIfHeld(v.store, node, replica, v.clock))
  }

  function Meanwhile(v: View, replica: Replica, nodes: seq<Node>, ttl: nat, round: Option<Round>): View
    requires round.Some? ==> |round.value.lucks| == |nodes|
  {
    if round.None? then v
    else PassChecked(v, replica, nodes, ttl, round.value.connected, round.value.lucks)
  }

  /** One turn of the loop in `stop`: a pass may run while it awaits its release, whose failure is swallowed. */
  function GivenUp(v: View, replica: Replica, nodes: seq<Node>, ttl: nat, node: Node, luck: Luck, round: Option<Round>): View
    requires round.Some? ==> |round.value.lucks| == |nodes|
  {
    Dropped(Meanwhile(Freed(v, replica, node, luck), replica, nodes, ttl, round), node)
  }

  /** The first `|lucks|` nodes of the snapshot given up. */
  function AllGivenUp(v: View, replica: Replica, nodes: seq<Node>, ttl: nat, mine: seq<Node>,
                      lucks: seq<Luck>, rounds: seq<Option<Round>>): View
    requires |lucks| <= |mine| && |lucks| <= |rounds| && RoundsFit(rounds, nodes)
    decreases |lucks|
  {
    if |lucks| == 0 then v
    else
      var k := |lucks| - 1;
      GivenUp(AllGivenUp(v, replica, nodes, ttl, mine, lucks[..k], rounds), replica, nodes, ttl, mine[k], lucks[k], rounds[k])
  }

  function TurnBegins(slot: Slot, luck: Luck): seq<Step> {
    if luck.RequestLost? then [Send(slot, Release)] else [Send(slot, Release), Execute(slot)]
  }

  function TurnEnds(slot: Slot, luck: Luck): seq<Step> {
    if luck.Fine? then [Answer(slot)] else [Break(slot)]
  }

  function RoundRun(v: View, replica: Replica, nodes: seq<Node>, ttl: nat, round: Option<Round>): seq<Step>
    requires round.Some? ==> |round.value.lucks| == |nodes|
  {
    if round.None? then [] else PassRun(v, replica, nodes, ttl, round.value.connected, round.value.lucks)
  }

  function TurnRun(v: View, replica: Replica, nodes: seq<Node>, ttl: nat, node: Node, luck: Luck, round: Option<Round>): seq<Step>
    requires round.Some? ==> |round.value.lucks| == |nodes|
  {
    var slot := Slot((replica, node), Stop);
    TurnBegins(slot, luck) + RoundRun(Freed(v, replica, node, luck), replica, nodes, ttl, round) + TurnEnds(slot, luck)
  }

  function StopRun(v: View, replica: Replica, nodes: seq<Node>, ttl: nat, mine: seq<Node>,
                   lucks: seq<Luck>, rounds: seq<Option<Round>>): seq<Step>
    requires |lucks| <= |mine| && |lucks| <= |rounds| && RoundsFit(rounds, nodes)
    decreases |lucks|
  {
    if |lucks| == 0 then []
    else
      var k := |lucks| - 1;
      StopRun(v, replica, nodes, ttl, mine, lucks[..k], rounds)
      + TurnRun(AllGivenUp(v, replica, nodes, ttl, mine, lucks[..k], rounds), replica, nodes, ttl, mine[k], lucks[k], rounds[k])
  }

  /** No call of this replica is in flight. */
  ghost predicate Idle(s: State, replica: Replica) {
    forall slot :: slot in s.calls ==> slot.who.0 != replica
  }

  lemma {:induction false} TurnBeginsMirrors(ttl: nat, s: State, replica: Replica, v: View, node: Node, luck: Luck)
    requires Mirrors(s, replica, v) && Slot((replica, node), Stop) !in s.calls
    ensures var slot := Slot((replica, node), Stop);
            var t := After(ttl, s, TurnBegins(slot, luck));
            && Runs(ttl, s, TurnBegins(slot, luck))
            && Mirrors(t, replica, Freed(v, replica, node, luck))
            && slot in t.calls && t.calls == s.calls[slot := t.calls[slot]]
            && t.calls[slot].kind.Release? && (t.calls[slot].reply.None? <==> luck.RequestLost?)
  {
    var slot := Slot((replica, node), Stop);
    if luck.RequestLost? {
      OneStep(ttl, s, Send(slot, Release));
    } else {
      TwoSteps(ttl, s, Send(slot, Release), Execute(slot));
    }
  }

  lemma {:induction false} TurnEndsMirrors(ttl: nat, s: State, replica: Replica, v: View, node: Node, luck: Luck)
    requires var slot := Slot((replica, node), Stop);
             && Mirrors(s, replica, v) && slot in s.calls
             && s.calls[slot].kind.Release? && (s.calls[slot].reply.None? <==> luck.RequestLost?)
    ensures var slot := Slot((replica, node), Stop);
            && Runs(ttl, s, TurnEnds(slot, luck))
            && Mirrors(After(ttl, s, TurnEnds(slot, luck)), replica, Dropped(v, node))
            && After(ttl, s, TurnEnds(slot, luck)).calls == s.calls - {slot}
  {
    var slot := Slot((replica, node), Stop);
    OneStep(ttl, s, if luck.Fine? then Answer(slot) else Break(slot));
  }

  lemma {:induction false} RoundIsARun(ttl: nat, s: State, replica: Replica, v: View, nodes: seq<Node>, round: Option<Round>)
    requires round.Some? ==> |round.value.lucks| == |nodes|
    requires Mirrors(s, replica, v) && forall node: Node :: Slot((replica, node), Pass) !in s.calls
    ensures Runs(ttl, s, RoundRun(v, replica, nodes, ttl, round))
    ensures Mirrors(After(ttl, s, RoundRun(v, replica, nodes, ttl, round)), replica, Meanwhile(v, replica, nodes, ttl, round))
    ensures After(ttl, s, RoundRun(v, replica, nodes, ttl, round)).calls == s.calls
  {
    if round.Some? {
      PassIsARun(ttl, s, replica, v, nodes, round.value.connected, round.value.lucks);
    }
  }

  /** One turn of `stop`, with a pass in its midst, is a run of the protocol. */
  lemma {:induction false} TurnIsARun(ttl: nat, s: State, replica: Replica, v: View, nodes: seq<Node>, node: Node,
                                      luck: Luck, round: Option<Round>)
    requires round.Some? ==> |round.value.lucks| == |nodes|
    requires Mirrors(s, replica, v) && Idle(s, replica)
    ensures Runs(ttl, s, TurnRun(v, replica, nodes, ttl, node, luck, round))
    ensures Mirrors(After(ttl, s, TurnRun(v, replica, nodes, ttl, node, luck, round)), replica,
                    GivenUp(v, replica, nodes, ttl, node, luck, round))
    ensures After(ttl, s, TurnRun(v, replica, nodes, ttl, node, luck, round)).calls == s.calls
  {
    var slot := Slot((replica, node), Stop);
    var begins := TurnBegins(slot, luck);
    var during := RoundRun(Freed(v, replica, node, luck), replica, nodes, ttl, round);
    TurnBeginsMirrors(ttl, s, replica, v, node, luck);
    var t := After(ttl, s, begins);
    RoundIsARun(ttl, t, replica, Freed(v, replica, node, luck), nodes, round);
    RunsJoin(ttl, s, begins, during);
    TurnEndsMirrors(ttl, After(ttl, t, during), replica, Meanwhile(Freed(v, replica, node, luck), replica, nodes, ttl, round), node, luck);
    RunsJoin(ttl, s, begins + during, TurnEnds(slot, luck));
    assert s.calls[slot := t.calls[slot]] - {slot} == s.calls;
  }

  /** The whole of `stop`, with passes in its midst, is a run of the protocol. */
  lemma {:induction false} StopIsARun(ttl: nat, s: State, replica: Replica, v: View, nodes: seq<Node>, mine: seq<Node>,
                                      lucks: seq<Luck>, rounds: seq<Option<Round>>)
    requires |lucks| <= |mine| && |lucks| <= |rounds| && RoundsFit(rounds, nodes)
    requires Mirrors(s, replica, v) && Idle(s, replica)
    ensures Runs(ttl, s, StopRun(v, replica, nodes, ttl, mine, lucks, rounds))
    ensures Mirrors(After(ttl, s, StopRun(v, replica, nodes, ttl, mine, lucks, rounds)), replica,
                    AllGivenUp(v, replica, nodes, ttl, mine, lucks, rounds))
    ensures After(ttl, s, StopRun(v, replica, nodes, ttl, mine, lucks, rounds)).calls == s.calls
    decreases |lucks|
  {
    if |lucks| > 0 {
      var k := |lucks| - 1;
      var first := StopRun(v, replica, nodes, ttl, mine, lucks[..k], rounds);
      var between := AllGivenUp(v, replica, nodes, ttl, mine, lucks[..k], rounds);
      StopIsARun(ttl, s, replica, v, nodes, mine, lucks[..k], rounds);
      TurnIsARun(ttl, After(ttl, s, first), replica, between, nodes, mine[k], lucks[k], rounds[k]);
      RunsJoin(ttl, s, first, TurnRun(between, replica, nodes, ttl, mine[k], lucks[k], rounds[k]));
    }
  }

  predicate NoRound(rounds: seq<Option<Round>>) {
    forall k :: 0 <= k < |rounds| ==> rounds[k].None?
  }

  /** When no pass begins, shutdown leaves nothing owned and frees every node whose release Redis ran. */
  lemma {:induction false} ShutdownFrees(v: View, replica: Replica, nodes: seq<Node>, ttl: nat, mine: seq<Node>,
                                         lucks: seq<Luck>, rounds: seq<Option<Round>>, i: nat)
    requires i < |lucks| <= |mine| && |lucks| <= |rounds| && NoRound(rounds)
    ensures var t := AllGivenUp(v, replica, nodes, ttl, mine, lucks, rounds);
            && t.clock == v.clock
            && t.owned == v.owned - (set node | node in mine[..|lucks|])
            && (!lucks[i].RequestLost? ==> !HeldBy(t.store, mine[i], replica, t.clock))
    decreases |lucks|
  {
    var k := |lucks| - 1;
    assert mine[..|lucks|] == mine[..k] + [mine[k]];
    if k > 0 {
      ShutdownFrees(v, replica, nodes, ttl, mine, lucks[..k], rounds, if i < k then i else 0);
    }
  }

  // ---------- The classes ----------

  class Redis {
    var store: map<Node, Entry>
    var clock: int

    constructor (now: int)
      ensures store == map[] && clock == now
    {
      store, clock := map[], now;
    }

    /** `SET key value PX ttl NX`. */
    method SetNx(key: Node, value: string, ttl: nat) returns (ok: bool)
      modifies this`store
      ensures ok == !Live(old(store), key, clock)
      ensures store == SetIfFree(old(store), key, value, ttl, clock)
    {
      ok := key !in store || store[key].expiresAt <= clock;
      if ok {
        store := store[key := Entry(value, clock + ttl)];
      }
    }

    /** The RENEW script. */
    method Renew(key: Node, value: string, ttl: nat) returns (ok: bool)
      modifies this`store
      ensures ok == HeldBy(old(store), key, value, clock)
      ensures store == RenewIfHeld(old(store), key, value, ttl, clock)
    {
      ok := Get(store, key, clock) == Some(value);
      if ok {
        store := store[key := store[key].(expiresAt := clock + ttl)];
      }
    }

    /** The RELEASE script. */
    method Release(key: Node, value: string) returns (ok: bool)
      modifies this`store
      ensures ok == HeldBy(old(store), key, value, clock)
      ensures store == DeleteIfHeld(old(store), key, value, clock)
    {
      ok := Get(store, key, clock) == Some(value);
      if ok {
        store := store - {key};
      }
    }
  }

  class NodeOwnership {
    const redis: Redis
    const replicaId: Replica
    const nodeIds: seq<Node>
    const leaseTtlMs: nat
    var owned: set<Node>
    var told: map<Node, seq<Callback>>

    constructor (redis: Redis, replicaId: Replica, nodeIds: seq<Node>, leaseTtlMs: nat)
      ensures this.redis == redis && this.replicaId == replicaId && this.nodeIds == nodeIds && this.leaseTtlMs == leaseTtlMs
      ensures owned == {} && told == map[]
    {
      this.redis, this.replicaId, this.nodeIds, this.leaseTtlMs := redis, replicaId, nodeIds, leaseTtlMs;
      owned, told := {}, map[];
    }

    function Now(): View
      reads this, redis
    {
      View(redis.clock, redis.store, owned, told)
    }

    method Lose(nodeId: Node)
      modifies this
      ensures Now() == Dropped(old(Now()), nodeId)
    {
      if nodeId !in owned {
        return;
      }
      owned := owned - {nodeId};
      told := told[nodeId := (if nodeId in told then told[nodeId] else []) + [Lost]];
    }

    method CheckNode(nodeId: Node, connected: bool, luck: Luck)
      modifies this, redis`store
      ensures Now() == Checked(old(Now()), replicaId, nodeId, leaseTtlMs, connected, luck)
    {
      var ok := false;
      if !connected {
        if nodeId in owned {
          if !luck.RequestLost? {
            ok := redis.Release(nodeId, replicaId);
          }
          if luck.Fine? {
            Lose(nodeId);
          }
        }
        return;
      }
      if nodeId in owned {
        if !luck.RequestLost? {
          ok := redis.Renew(nodeId, replicaId, leaseTtlMs);
        }
        if luck.Fine? && !ok {
          Lose(nodeId);
        }
        return;
      }
      if !luck.RequestLost? {
        ok := redis.SetNx(nodeId, replicaId, leaseTtlMs);
      }
      if !luck.Fine? || !ok {
        return;
      }
      owned := owned + {nodeId};
      told := told[nodeId := (if nodeId in told then told[nodeId] else []) + [Acquired]];
    }

    /** One pass; a check that fails does not stop the others. */
    method RunOnce(connected: set<Node>, lucks: seq<Luck>)
      requires |lucks| == |nodeIds|
      modifies this, redis`store
      ensures Now() == PassChecked(old(Now()), replicaId, nodeIds, leaseTtlMs, connected, lucks)
    {
      ghost var before := Now();
      var k := 0;
      while k < |nodeIds|
        invariant 0 <= k <= |nodeIds|
        invariant Now() == PassChecked(before, replicaId, nodeIds, leaseTtlMs, connected, lucks[..k])
      {
        CheckNode(nodeIds[k], nodeIds[k] in connected, lucks[k]);
        assert lucks[..k + 1][..k] == lucks[..k];
        k := k + 1;
      }
      assert lucks[..k] == lucks;
    }

    /**
     `mine` is the owned set in the order the runtime lists it; `rounds` are the passes that begin
     and end while a release is awaited.
     */
    method Stop(mine: seq<Node>, lucks: seq<Luck>, rounds: seq<Option<Round>>)
      requires |lucks| == |mine| == |rounds| && RoundsFit(rounds, nodeIds) && owned == (set node | node in mine)
      modifies this, redis`store
      ensures Now() == AllGivenUp(old(Now()), replicaId, nodeIds, leaseTtlMs, mine, lucks, rounds)
      ensures NoRound(rounds) ==> owned == {}
    {
      ghost var before := Now();
      var k := 0;
      while k < |mine|
        invariant 0 <= k <= |mine|
        invariant Now() == AllGivenUp(before, replicaId, nodeIds, leaseTtlMs, mine, lucks[..k], rounds)
      {
        GiveUp(mine[k], lucks[k], rounds[k]);
        assert lucks[..k + 1][..k] == lucks[..k];
        k := k + 1;
      }
      assert lucks[..k] == lucks && mine[..k] == mine;
      if |mine| > 0 && NoRound(rounds) {
        ShutdownFrees(before, replicaId, nodeIds, leaseTtlMs, mine, lucks, rounds, 0);
      }
    }

    method GiveUp(nodeId: Node, luck: Luck, round: Option<Round>)
      requires round.Some? ==> |round.value.lucks| == |nodeIds|
      modifies this, redis`store
      ensures Now() == GivenUp(old(Now()), replicaId, nodeIds, leaseTtlMs, nodeId, luck, round)
    {
      if !luck.RequestLost? {
        var _ := redis.Release(nodeId, replicaId);
      }
      if round.Some? {
        RunOnce(round.value.connected, round.value.lucks);
      }
      Lose(nodeId);
    }
  }
}
