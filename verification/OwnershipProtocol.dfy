/**
 Media-node ownership across replicas as a state machine. A Redis call is sent, executed and
 answered in separate steps, so a replica's own `owned` set lags the store. A pass and `stop` may
 each have a call in flight for the same node, and nothing is assumed of the order in which they
 run. A call that failed before Redis ran it is astray: it may still run later, however often, or
 never.
 */
module OwnershipProtocol {
  import opened Wrappers
  import opened RedisStore

  type Replica = string
  type Node = string

  /** One replica's view of one node. */
  type Claim = (Replica, Node)

  datatype Kind = Acquire | Renew | Release

  /** Who waits for a call. */
  datatype Sender = Pass | Stop

  /** Each sender has at most one call in flight per claim: passes are shared, `stop` awaits each release. */
  datatype Slot = Slot(who: Claim, from: Sender)

  datatype Call = Call(kind: Kind, sentAt: int, reply: Option<bool>)

  datatype Stray = Stray(who: Claim, kind: Kind)

  datatype Callback = Acquired | Lost

  datatype State = State(
    clock: int,
    store: map<Node, Entry>,                 // `nodeowner:{id}`, by node
    owned: set<Claim>,
    calls: map<Slot, Call>,                  // in flight
    astray: set<Stray>,                      // given up by the caller, and may still run
    callbacks: map<Claim, seq<Callback>>,    // what the owner of the object was told, in order
    granted: map<Claim, int>,                // when Redis last granted it, if no release can undo that
    confirmed: map<Claim, int>)              // when the last answered grant was asked for, likewise

  function Start(): State {
    State(0, map[], {}, map[], {}, map[], map[], map[])
  }

  datatype Step =
    | Tick(now: int)
    | Send(slot: Slot, kind: Kind)
    | Execute(slot: Slot)
    | Answer(slot: Slot)
    | Break(slot: Slot)        // the caller sees its call fail, whether it was executed or not
    | Late(stray: Stray)       // a call given up runs after all
    | Drop(stray: Stray)       // and now it never will
    | Crash(replica: Replica)

  /** A pass renews or releases what is owned and tries for the rest (`checkNode`); `stop` releases, owned or not. */
  predicate Enabled(s: State, step: Step) {
    match step
    case Tick(now) => s.clock <= now
    case Send(slot, kind) =>
      && slot !in s.calls
      && (if slot.from.Pass? then (kind.Acquire? <==> slot.who !in s.owned) else kind.Release?)
    case Execute(slot) => slot in s.calls && s.calls[slot].reply.None?
    case Answer(slot) => slot in s.calls && s.calls[slot].reply.Some?
    case Break(slot) => slot in s.calls
    case Late(stray) => stray in s.astray
    case Drop(stray) => stray in s.astray
    case Crash(replica) => true
  }

  function CallbacksOf(s: State, who: Claim): seq<Callback> {
    if who in s.callbacks then s.callbacks[who] else []
  }

  /** `lose`: tells nobody when the node is not owned. */
  function Lose(s: State, who: Claim): State {
    if who in s.owned then
      s.(owned := s.owned - {who}, callbacks := s.callbacks[who := CallbacksOf(s, who) + [Lost]])
    else s
  }

  function Gain(s: State, who: Claim): State {
    s.(owned := s.owned + {who}, callbacks := s.callbacks[who := CallbacksOf(s, who) + [Acquired]])
  }

  predicate AwaitsRelease(calls: map<Slot, Call>, slot: Slot) {
    slot in calls && calls[slot].kind.Release? && calls[slot].reply.None?
  }

  /** A release of this claim was sent and may still run. */
  predicate Unsettled(calls: map<Slot, Call>, astray: set<Stray>, who: Claim) {
    || AwaitsRelease(calls, Slot(who, Pass))
    || AwaitsRelease(calls, Slot(who, Stop))
    || Stray(who, Release) in astray
  }

  /** What Redis answers. */
  predicate Works(s: State, who: Claim, kind: Kind) {
    if kind.Acquire? then !Live(s.store, who.1, s.clock) else HeldBy(s.store, who.1, who.0, s.clock)
  }

  function GrantedIf(s: State, who: Claim, ok: bool): map<Claim, int> {
    if ok && !Unsettled(s.calls, s.astray, who) then s.granted[who := s.clock] else s.granted
  }

  /** Redis runs the command, atomically. */
  function Ran(ttl: nat, s: State, who: Claim, kind: Kind): State {
    match kind
    case Acquire =>
      s.(store := SetIfFree(s.store, who.1, who.0, ttl, s.clock), granted := GrantedIf(s, who, Works(s, who, kind)))
    case Renew =>
      s.(store := RenewIfHeld(s.store, who.1, who.0, ttl, s.clock), granted := GrantedIf(s, who, Works(s, who, kind)))
    case Release =>
      s.(store := DeleteIfHeld(s.store, who.1, who.0, s.clock))
  }

  function Replied(s: State, slot: Slot): map<Slot, Call>
    requires slot in s.calls
  {
    s.calls[slot := s.calls[slot].(reply := Some(Works(s, slot.who, s.calls[slot].kind)))]
  }

  function Executed(ttl: nat, s: State, slot: Slot): State
    requires slot in s.calls
  {
    Ran(ttl, s, slot.who, s.calls[slot].kind).(calls := Replied(s, slot))
  }

  /** What a reply does to the replica that awaited it. */
  function Heard(s: State, who: Claim, call: Call): State
    requires call.reply.Some?
  {
    match call.kind
    case Acquire => if call.reply.value then Gain(s, who) else s
    case Renew => if call.reply.value then s else Lose(s, who)
    case Release => Lose(s, who)
  }

  /** The caller knows of a grant; it counts only while no release can undo it. */
  function Confirmed(s: State, who: Claim, call: Call): map<Claim, int> {
    if who in s.granted && !call.kind.Release? && call.reply == Some(true) then s.confirmed[who := call.sentAt] else s.confirmed
  }

  /** The replica sees the reply. */
  function Answered(s: State, slot: Slot): State
    requires slot in s.calls && s.calls[slot].reply.Some?
  {
    var call := s.calls[slot];
    Heard(s, slot.who, call).(calls := s.calls - {slot}, confirmed := Confirmed(s, slot.who, call))
  }

  /** The call failed: `stop` swallows that, a check leaves the node as it was. */
  function Broken(s: State, slot: Slot): State
    requires slot in s.calls
  {
    var call := s.calls[slot];
    var t := s.(calls := s.calls - {slot},
                astray := if call.reply.None? then s.astray + {Stray(slot.who, call.kind)} else s.astray);
    if slot.from.Stop? then Lose(t, slot.who) else t
  }

  function Crashed(s: State, replica: Replica): State {
    s.(owned := (set who | who in s.owned && who.0 != replica),
       calls := (map slot | slot in s.calls && slot.who.0 != replica :: s.calls[slot]),
       astray := s.astray + (set slot | slot in s.calls && slot.who.0 == replica && s.calls[slot].reply.None?
                               :: Stray(slot.who, s.calls[slot].kind)),
       callbacks := (map who | who in s.callbacks && who.0 != replica :: s.callbacks[who]))
  }

  function Sent(s: State, slot: Slot, kind: Kind): State {
    var t := s.(calls := s.calls[slot := Call(kind, s.clock, None)]);
    if kind.Release? then t.(granted := s.granted - {slot.who}, confirmed := s.confirmed - {slot.who}) else t
  }

  function Next(ttl: nat, s: State, step: Step): State
    requires Enabled(s, step)
  {
    match step
    case Tick(now) => s.(clock := now)
    case Send(slot, kind) => Sent(s, slot, kind)
    case Execute(slot) => Executed(ttl, s, slot)
    case Answer(slot) => Answered(s, slot)
    case Break(slot) => Broken(s, slot)
    case Late(stray) => Ran(ttl, s, stray.who, stray.kind)
    case Drop(stray) => s.(astray := s.astray - {stray})
    case Crash(replica) => Crashed(s, replica)
  }

  predicate Runs(ttl: nat, s: State, steps: seq<Step>)
    decreases |steps|
  {
    steps == [] || (Enabled(s, steps[0]) && Runs(ttl, Next(ttl, s, steps[0]), steps[1..]))
  }

  function After(ttl: nat, s: State, steps: seq<Step>): State
    requires Runs(ttl, s, steps)
    decreases |steps|
  {
    if steps == [] then s else After(ttl, Next(ttl, s, steps[0]), steps[1..])
  }

  lemma {:induction false} OneStep(ttl: nat, s: State, a: Step)
    requires Enabled(s, a)
    ensures Runs(ttl, s, [a]) && After(ttl, s, [a]) == Next(ttl, s, a)
  {
    assert [a][1..] == [];
  }

  lemma {:induction false} RunsJoin(ttl: nat, s: State, first: seq<Step>, second: seq<Step>)
    requires Runs(ttl, s, first) && Runs(ttl, After(ttl, s, first), second)
    ensures Runs(ttl, s, first + second)
    ensures After(ttl, s, first + second) == After(ttl, After(ttl, s, first), second)
    decreases |first|
  {
    if first == [] {
      assert first + second == second;
    } else {
      assert (first + second)[1..] == first[1..] + second;
      RunsJoin(ttl, Next(ttl, s, first[0]), first[1..], second);
    }
  }

  // ---------- What every run keeps ----------

  /** Redis still names a replica whose grant is younger than the lease. */
  ghost predicate GrantsHold(ttl: nat, clock: int, store: map<Node, Entry>, granted: map<Claim, int>) {
    forall who :: who in granted ==>
      && granted[who] <= clock
      && (clock < granted[who] + ttl ==> who.1 in store && store[who.1] == Entry(who.0, granted[who] + ttl))
  }

  /** A grant that counts has no release against it. */
  ghost predicate GrantsSettled(calls: map<Slot, Call>, astray: set<Stray>, granted: map<Claim, int>) {
    forall who :: who in granted ==> !Unsettled(calls, astray, who)
  }

  /** A positive reply in flight stands for a grant no older than when it was asked for. */
  ghost predicate RepliesHonest(clock: int, calls: map<Slot, Call>, granted: map<Claim, int>) {
    forall slot :: slot in calls ==>
      && calls[slot].sentAt <= clock
      && (!calls[slot].kind.Release? && calls[slot].reply == Some(true) && slot.who in granted ==>
            calls[slot].sentAt <= granted[slot.who])
  }

  ghost predicate ConfirmedGranted(granted: map<Claim, int>, confirmed: map<Claim, int>) {
    forall who :: who in confirmed ==> who in granted && confirmed[who] <= granted[who]
  }

  /** What is asked for is not owned, and `stop` sends nothing but releases. */
  ghost predicate CallsFit(calls: map<Slot, Call>, owned: set<Claim>) {
    forall slot :: slot in calls ==>
      && (calls[slot].kind.Acquire? ==> slot.who !in owned)
      && (slot.from.Stop? ==> calls[slot].kind.Release?)
  }

  /** Acquired and lost take turns, starting with acquired. */
  predicate TakesTurns(told: seq<Callback>) {
    forall i :: 0 <= i < |told| ==> told[i] == if i % 2 == 0 then Acquired else Lost
  }

  ghost predicate CallbacksMatch(owned: set<Claim>, callbacks: map<Claim, seq<Callback>>) {
    && (forall who :: who in callbacks ==> TakesTurns(callbacks[who]) && (who in owned <==> |callbacks[who]| % 2 == 1))
    && (forall who :: who in owned ==> who in callbacks)
  }

  ghost predicate LeasesBounded(ttl: nat, clock: int, store: map<Node, Entry>) {
    forall node :: node in store ==> store[node].expiresAt <= clock + ttl
  }

  ghost predicate Inv(ttl: nat, s: State) {
    && GrantsHold(ttl, s.clock, s.store, s.granted)
    && GrantsSettled(s.calls, s.astray, s.granted)
    && RepliesHonest(s.clock, s.calls, s.granted)
    && ConfirmedGranted(s.granted, s.confirmed)
    && CallsFit(s.calls, s.owned)
    && CallbacksMatch(s.owned, s.callbacks)
    && LeasesBounded(ttl, s.clock, s.store)
  }

  lemma {:induction false} TellKeepsTurns(told: seq<Callback>, what: Callback)
    requires TakesTurns(told) && (what == Acquired <==> |told| % 2 == 0)
    ensures TakesTurns(told + [what])
  {
  }

  lemma {:induction false} LoseKeepsCallbacks(s: State, who: Claim)
    requires CallbacksMatch(s.owned, s.callbacks)
    ensures CallbacksMatch(Lose(s, who).owned, Lose(s, who).callbacks)
  {
    if who in s.owned {
      TellKeepsTurns(s.callbacks[who], Lost);
    }
  }

  lemma {:induction false} GainKeepsCallbacks(s: State, who: Claim)
    requires CallbacksMatch(s.owned, s.callbacks) && who !in s.owned
    ensures CallbacksMatch(Gain(s, who).owned, Gain(s, who).callbacks)
  {
    TellKeepsTurns(CallbacksOf(s, who), Acquired);
  }

  lemma {:induction false} SendKeepsInv(ttl: nat, s: State, slot: Slot, kind: Kind)
    requires Inv(ttl, s) && Enabled(s, Send(slot, kind))
    ensures Inv(ttl, Sent(s, slot, kind))
  {
  }

  /** A grant that is recorded now is the newest of its claim. */
  lemma {:induction false} GrantKeeps(s: State, who: Claim, ok: bool)
    requires GrantsSettled(s.calls, s.astray, s.granted) && RepliesHonest(s.clock, s.calls, s.granted)
    requires ConfirmedGranted(s.granted, s.confirmed)
    requires who in s.granted ==> s.granted[who] <= s.clock
    ensures GrantsSettled(s.calls, s.astray, GrantedIf(s, who, ok))
    ensures RepliesHonest(s.clock, s.calls, GrantedIf(s, who, ok))
    ensures ConfirmedGranted(GrantedIf(s, who, ok), s.confirmed)
    ensures ok && who in GrantedIf(s, who, ok) ==> GrantedIf(s, who, ok)[who] == s.clock
  {
  }

  lemma {:induction false} SettingKeeps(ttl: nat, s: State, who: Claim, kind: Kind)
    requires GrantsHold(ttl, s.clock, s.store, s.granted) && LeasesBounded(ttl, s.clock, s.store)
    requires GrantsSettled(s.calls, s.astray, s.granted) && !kind.Release?
    ensures GrantsHold(ttl, s.clock, Ran(ttl, s, who, kind).store, GrantedIf(s, who, Works(s, who, kind)))
    ensures LeasesBounded(ttl, s.clock, Ran(ttl, s, who, kind).store)
  {
  }

  lemma {:induction false} DeletingKeeps(ttl: nat, s: State, who: Claim)
    requires GrantsHold(ttl, s.clock, s.store, s.granted) && LeasesBounded(ttl, s.clock, s.store) && who !in s.granted
    ensures GrantsHold(ttl, s.clock, Ran(ttl, s, who, Release).store, s.granted)
    ensures LeasesBounded(ttl, s.clock, Ran(ttl, s, who, Release).store)
  {
  }

  /** A command that runs keeps the invariant, whether its caller still waits for it or not. */
  lemma {:induction false} RunningKeepsInv(ttl: nat, s: State, who: Claim, kind: Kind)
    requires Inv(ttl, s) && (kind.Release? ==> Unsettled(s.calls, s.astray, who))
    ensures Inv(ttl, Ran(ttl, s, who, kind))
    ensures Works(s, who, kind) && !kind.Release? && who in Ran(ttl, s, who, kind).granted ==>
              Ran(ttl, s, who, kind).granted[who] == s.clock
  {
    if kind.Release? {
      DeletingKeeps(ttl, s, who);
    } else {
      GrantKeeps(s, who, Works(s, who, kind));
      SettingKeeps(ttl, s, who, kind);
    }
  }

  lemma {:induction false} ReplyKeepsInv(ttl: nat, s: State, slot: Slot, ran: State)
    requires RepliesHonest(s.clock, s.calls, ran.granted) && GrantsSettled(s.calls, s.astray, ran.granted)
    requires CallsFit(s.calls, s.owned) && slot in s.calls
    requires Works(s, slot.who, s.calls[slot].kind) && !s.calls[slot].kind.Release? && slot.who in ran.granted ==>
               ran.granted[slot.who] == s.clock
    ensures RepliesHonest(s.clock, Replied(s, slot), ran.granted)
    ensures GrantsSettled(Replied(s, slot), s.astray, ran.granted)
    ensures CallsFit(Replied(s, slot), s.owned)
  {
  }

  lemma {:induction false} ExecuteKeepsInv(ttl: nat, s: State, slot: Slot)
    requires Inv(ttl, s) && Enabled(s, Execute(slot))
    ensures Inv(ttl, Executed(ttl, s, slot))
  {
    var ran := Ran(ttl, s, slot.who, s.calls[slot].kind);
    assert slot == Slot(slot.who, slot.from) && (slot.from == Pass || slot.from == Stop);
    RunningKeepsInv(ttl, s, slot.who, s.calls[slot].kind);
    ReplyKeepsInv(ttl, s, slot, ran);
  }

  /** Taking a call off the books touches nothing the other clauses speak of. */
  lemma {:induction false} ForgetKeepsCalls(s: State, calls: map<Slot, Call>, owned: set<Claim>)
    requires GrantsSettled(s.calls, s.astray, s.granted) && RepliesHonest(s.clock, s.calls, s.granted)
    requires CallsFit(s.calls, s.owned) && owned <= s.owned
    requires forall slot :: slot in calls ==> slot in s.calls && calls[slot] == s.calls[slot]
    ensures GrantsSettled(calls, s.astray, s.granted) && RepliesHonest(s.clock, calls, s.granted)
    ensures CallsFit(calls, owned)
  {
  }

  lemma {:induction false} GainFits(s: State, slot: Slot)
    requires CallsFit(s.calls, s.owned) && slot in s.calls && s.calls[slot].kind.Acquire?
    ensures CallsFit(s.calls - {slot}, s.owned + {slot.who})
  {
  }

  lemma {:induction false} ConfirmKeeps(s: State, slot: Slot)
    requires RepliesHonest(s.clock, s.calls, s.granted) && ConfirmedGranted(s.granted, s.confirmed) && slot in s.calls
    ensures ConfirmedGranted(s.granted, Confirmed(s, slot.who, s.calls[slot]))
  {
  }

  lemma {:induction false} HearingKeeps(s: State, slot: Slot)
    requires CallsFit(s.calls, s.owned) && CallbacksMatch(s.owned, s.callbacks) && Enabled(s, Answer(slot))
    ensures var t := Heard(s, slot.who, s.calls[slot]);
            CallsFit(s.calls - {slot}, t.owned) && CallbacksMatch(t.owned, t.callbacks)
  {
    if s.calls[slot].kind.Acquire? {
      GainFits(s, slot);
      GainKeepsCallbacks(s, slot.who);
    } else {
      LoseKeepsCallbacks(s, slot.who);
    }
  }

  lemma {:induction false} HearingTouches(s: State, who: Claim, call: Call)
    requires call.reply.Some?
    ensures var t := Heard(s, who, call);
            t == s.(owned := t.owned, callbacks := t.callbacks)
  {
  }

  lemma {:induction false} AnswerKeepsInv(ttl: nat, s: State, slot: Slot)
    requires Inv(ttl, s) && Enabled(s, Answer(slot))
    ensures Inv(ttl, Answered(s, slot))
  {
    ForgetKeepsCalls(s, s.calls - {slot}, s.owned);
    HearingTouches(s, slot.who, s.calls[slot]);
    HearingKeeps(s, slot);
    ConfirmKeeps(s, slot);
  }

  lemma {:induction false} BreakKeepsInv(ttl: nat, s: State, slot: Slot)
    requires Inv(ttl, s) && Enabled(s, Break(slot))
    ensures Inv(ttl, Broken(s, slot))
  {
    assert slot == Slot(slot.who, slot.from) && (slot.from == Pass || slot.from == Stop);
    ForgetKeepsCalls(s, s.calls - {slot}, s.owned);
    LoseKeepsCallbacks(s, slot.who);
  }

  /** What a crash leaves astray was in flight before. */
  lemma {:induction false} CrashSettlesNothing(s: State, replica: Replica)
    requires GrantsSettled(s.calls, s.astray, s.granted)
    ensures GrantsSettled(Crashed(s, replica).calls, Crashed(s, replica).astray, s.granted)
  {
    forall who | who in s.granted
      ensures !Unsettled(Crashed(s, replica).calls, Crashed(s, replica).astray, who)
    {
      assert !Unsettled(s.calls, s.astray, who);
      forall slot | slot in s.calls && slot.who == who
        ensures !AwaitsRelease(s.calls, slot)
      {
        assert slot == Slot(slot.who, slot.from) && (slot.from == Pass || slot.from == Stop);
      }
    }
  }

  lemma {:induction false} CrashKeepsInv(ttl: nat, s: State, replica: Replica)
    requires Inv(ttl, s)
    ensures Inv(ttl, Crashed(s, replica))
  {
    CrashSettlesNothing(s, replica);
    ForgetKeepsCalls(s, Crashed(s, replica).calls, Crashed(s, replica).owned);
  }

  lemma {:induction false} StepKeepsInv(ttl: nat, s: State, step: Step)
    requires Inv(ttl, s) && Enabled(s, step)
    ensures Inv(ttl, Next(ttl, s, step))
  {
    match step
    case Tick(now) =>
    case Send(slot, kind) => SendKeepsInv(ttl, s, slot, kind);
    case Execute(slot) => ExecuteKeepsInv(ttl, s, slot);
    case Answer(slot) => AnswerKeepsInv(ttl, s, slot);
    case Break(slot) => BreakKeepsInv(ttl, s, slot);
    case Late(stray) => RunningKeepsInv(ttl, s, stray.who, stray.kind);
    case Drop(stray) =>
    case Crash(replica) => CrashKeepsInv(ttl, s, replica);
  }

  lemma {:induction false} RunKeepsInv(ttl: nat, s: State, steps: seq<Step>)
    requires Inv(ttl, s) && Runs(ttl, s, steps)
    ensures Inv(ttl, After(ttl, s, steps))
    decreases |steps|
  {
    if steps != [] {
      StepKeepsInv(ttl, s, steps[0]);
      RunKeepsInv(ttl, Next(ttl, s, steps[0]), steps[1..]);
    }
  }

  // ---------- Main results ----------

  ghost function End(ttl: nat, steps: seq<Step>): State
    requires Runs(ttl, Start(), steps)
  {
    After(ttl, Start(), steps)
  }

  /** A grant of this claim is still within its lease, and no release of it can still run. */
  predicate HoldsLease(ttl: nat, s: State, who: Claim) {
    who in s.granted && s.clock < s.granted[who] + ttl
  }

  /** A replica within its lease is the owner Redis names. */
  lemma {:induction false} LeaseHolderIsTheOwner(ttl: nat, steps: seq<Step>, who: Claim)
    requires Runs(ttl, Start(), steps) && HoldsLease(ttl, End(ttl, steps), who)
    ensures Get(End(ttl, steps).store, who.1, End(ttl, steps).clock) == Some(who.0)
  {
    RunKeepsInv(ttl, Start(), steps);
  }

  /** Two replicas that both own a node are not both within their leases. */
  lemma {:induction false} OwnersDoNotShareALease(ttl: nat, steps: seq<Step>, a: Replica, b: Replica, node: Node)
    requires Runs(ttl, Start(), steps) && a != b
    requires (a, node) in End(ttl, steps).owned && (b, node) in End(ttl, steps).owned
    ensures !HoldsLease(ttl, End(ttl, steps), (a, node)) || !HoldsLease(ttl, End(ttl, steps), (b, node))
  {
    RunKeepsInv(ttl, Start(), steps);
  }

  /**
   What a replica can tell: an answered acquire or renew it sent less than a lease ago, with no
   release of its own that may have run since, means Redis names it.
   */
  lemma {:induction false} RecentAnswerMeansOwner(ttl: nat, steps: seq<Step>, who: Claim)
    requires Runs(ttl, Start(), steps) && who in End(ttl, steps).confirmed
    requires End(ttl, steps).clock < End(ttl, steps).confirmed[who] + ttl
    ensures HoldsLease(ttl, End(ttl, steps), who)
    ensures Get(End(ttl, steps).store, who.1, End(ttl, steps).clock) == Some(who.0)
  {
    RunKeepsInv(ttl, Start(), steps);
  }

  /** `onAcquired` and `onLost` strictly alternate, and the last one says whether the node is owned. */
  lemma {:induction false} CallbacksAlternate(ttl: nat, steps: seq<Step>, who: Claim)
    requires Runs(ttl, Start(), steps)
    ensures TakesTurns(CallbacksOf(End(ttl, steps), who))
    ensures who in End(ttl, steps).owned <==> |CallbacksOf(End(ttl, steps), who)| % 2 == 1
  {
    RunKeepsInv(ttl, Start(), steps);
  }

  /** No command for this node runs. */
  predicate Leaves(step: Step, node: Node) {
    && (step.Execute? ==> step.slot.who.1 != node)
    && (step.Late? ==> step.stray.who.1 != node)
  }

  ghost predicate SameKey(a: map<Node, Entry>, b: map<Node, Entry>, node: Node) {
    (node in a <==> node in b) && (node in a ==> a[node] == b[node])
  }

  lemma {:induction false} RunningLeavesKey(ttl: nat, s: State, who: Claim, kind: Kind, node: Node)
    requires who.1 != node
    ensures SameKey(s.store, Ran(ttl, s, who, kind).store, node)
  {
  }

  lemma {:induction false} StepLeavesKey(ttl: nat, s: State, step: Step, node: Node)
    requires Enabled(s, step) && Leaves(step, node)
    ensures SameKey(s.store, Next(ttl, s, step).store, node)
  {
    if step.Execute? {
      RunningLeavesKey(ttl, s, step.slot.who, s.calls[step.slot].kind, node);
    } else if step.Late? {
      RunningLeavesKey(ttl, s, step.stray.who, step.stray.kind, node);
    }
  }

  lemma {:induction false} UntouchedKeyStays(ttl: nat, s: State, steps: seq<Step>, node: Node)
    requires Runs(ttl, s, steps) && forall i :: 0 <= i < |steps| ==> Leaves(steps[i], node)
    ensures SameKey(s.store, After(ttl, s, steps).store, node)
    decreases |steps|
  {
    if steps != [] {
      assert Leaves(steps[0], node);
      StepLeavesKey(ttl, s, steps[0], node);
      UntouchedKeyStays(ttl, Next(ttl, s, steps[0]), steps[1..], node);
    }
  }

  lemma {:induction false} LapsedKeyIsWon(ttl: nat, s: State, slot: Slot)
    requires Enabled(s, Execute(slot)) && s.calls[slot].kind.Acquire? && !Live(s.store, slot.who.1, s.clock)
    ensures Next(ttl, s, Execute(slot)).calls[slot].reply == Some(true)
    ensures slot.who.1 in Next(ttl, s, Execute(slot)).store
    ensures Next(ttl, s, Execute(slot)).store[slot.who.1] == Entry(slot.who.0, s.clock + ttl)
  {
  }

  /** A node whose owner goes silent for a lease is won by the next replica that asks. */
  lemma {:induction false} SilentOwnerIsReplaced(ttl: nat, before: seq<Step>, silence: seq<Step>, slot: Slot)
    requires Runs(ttl, Start(), before) && Runs(ttl, End(ttl, before), silence)
    requires forall i :: 0 <= i < |silence| ==> Leaves(silence[i], slot.who.1)
    requires var s := After(ttl, End(ttl, before), silence);
             s.clock >= End(ttl, before).clock + ttl && Enabled(s, Execute(slot)) && s.calls[slot].kind.Acquire?
    ensures var s := After(ttl, End(ttl, before), silence);
            var t := Next(ttl, s, Execute(slot));
            t.calls[slot].reply == Some(true) && slot.who.1 in t.store && t.store[slot.who.1] == Entry(slot.who.0, s.clock + ttl)
  {
    RunKeepsInv(ttl, Start(), before);
    UntouchedKeyStays(ttl, End(ttl, before), silence, slot.who.1);
    LapsedKeyIsWon(ttl, After(ttl, End(ttl, before), silence), slot);
  }
}
