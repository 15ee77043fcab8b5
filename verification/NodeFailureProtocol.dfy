/**
 The death of one media node, handled by any number of replicas whose claims may lapse, as a state
 machine over single reads and writes. The node stays dead and gains no calls; call records may expire.
 */
module NodeFailureProtocol {
  import opened Wrappers
  import opened CallRegistry

  type Replica = string

  /** How far a replica is with the call it is at. */
  datatype Phase = Unread | Found(tenant: Option<TenantId>) | Gone | Announced(tenant: Option<TenantId>)

  datatype Work = Claimed | Sweeping(rest: seq<Uuid>, at: Phase)

  datatype Claim = Claim(replica: Replica, until: int)

  datatype State = State(clock: int, world: World, claim: Option<Claim>, work: map<Replica, Work>, expired: set<Uuid>)

  datatype Move =
    | Take                          // claimNodeLoss
    | List(members: seq<Uuid>)      // callsForNode
    | Look                          // getCall
    | Announce                      // enqueueEvent
    | Remove                        // endCall
    | Forget                        // forgetNodeCalls; the sweep is complete
    | Fail                          // a crash, or a call that threw

  datatype Step = Tick(now: int) | Expire(callUuid: Uuid) | By(replica: Replica, move: Move)

  predicate ClaimIsFree(s: State) {
    s.claim.None? || s.claim.value.until <= s.clock
  }

  predicate AtCall(s: State, replica: Replica) {
    replica in s.work && s.work[replica].Sweeping? && |s.work[replica].rest| > 0
  }

  ghost predicate CanMove(node: NodeId, s: State, replica: Replica, move: Move) {
    match move
    case Take => replica !in s.work && ClaimIsFree(s)
    case List(members) => replica in s.work && s.work[replica].Claimed? && Lists(members, CallsOf(s.world.registry, node))
    case Look => AtCall(s, replica) && s.work[replica].at.Unread?
    case Announce => AtCall(s, replica) && s.work[replica].at.Found?
    case Remove => AtCall(s, replica) && (s.work[replica].at.Gone? || s.work[replica].at.Announced?)
    case Forget => replica in s.work && s.work[replica].Sweeping? && |s.work[replica].rest| == 0
    case Fail => replica in s.work
  }

  ghost predicate Enabled(node: NodeId, s: State, step: Step) {
    match step
    case Tick(now) => s.clock <= now
    case Expire(u) => true
    case By(replica, move) => CanMove(node, s, replica, move)
  }

  function Looked(r: Registry, u: Uuid): Phase {
    if u in r.records then Found(r.records[u].tenant) else Gone
  }

  ghost function Moved(node: NodeId, ttl: nat, s: State, replica: Replica, move: Move): State
    requires CanMove(node, s, replica, move)
  {
    match move
    case Take => s.(claim := Some(Claim(replica, s.clock + ttl)), work := s.work[replica := Claimed])
    case List(members) => s.(work := s.work[replica := Sweeping(members, Unread)])
    case Look =>
      var rest := s.work[replica].rest;
      s.(work := s.work[replica := Sweeping(rest, Looked(s.world.registry, rest[0]))])
    case Announce =>
      var w := s.work[replica];
      s.(world := s.world.(outbox := s.world.outbox + [CallLost(w.rest[0], node, w.at.tenant)]),
         work := s.work[replica := Sweeping(w.rest, Announced(w.at.tenant))])
    case Remove =>
      var w := s.work[replica];
      s.(world := s.world.(registry := Ended(s.world.registry, w.rest[0], node, if w.at.Announced? then w.at.tenant else None)),
         work := s.work[replica := Sweeping(w.rest[1..], Unread)])
    case Forget =>
      s.(world := s.world.(registry := s.world.registry.(byNode := s.world.registry.byNode - {node})),
         work := s.work - {replica})
    case Fail => s.(work := s.work - {replica})
  }

  ghost function Next(node: NodeId, ttl: nat, s: State, step: Step): State
    requires Enabled(node, s, step)
  {
    match step
    case Tick(now) => s.(clock := now)
    // The hash's safety TTL passes; its index entries stay.
    case Expire(u) =>
      s.(world := s.world.(registry := s.world.registry.(records := s.world.registry.records - {u})),
         expired := if u in s.world.registry.records then s.expired + {u} else s.expired)
    case By(replica, move) => Moved(node, ttl, s, replica, move)
  }

  ghost predicate Runs(node: NodeId, ttl: nat, s: State, steps: seq<Step>)
    decreases |steps|
  {
    steps == [] || (Enabled(node, s, steps[0]) && Runs(node, ttl, Next(node, ttl, s, steps[0]), steps[1..]))
  }

  ghost function After(node: NodeId, ttl: nat, s: State, steps: seq<Step>): State
    requires Runs(node, ttl, s, steps)
    decreases |steps|
  {
    if steps == [] then s else After(node, ttl, Next(node, ttl, s, steps[0]), steps[1..])
  }

  // ---------- What every run keeps ----------

  function LostIn(outbox: seq<Event>): set<Uuid> {
    set e | e in outbox && e.CallLost? :: e.callUuid
  }

  /** The calls to account for. */
  ghost predicate Accounted(calls: set<Uuid>, r: Registry, lost: set<Uuid>, expired: set<Uuid>) {
    forall u :: u in calls ==> u in r.records || u in lost || u in expired
  }

  ghost predicate Indexed(calls: set<Uuid>, r: Registry, node: NodeId) {
    forall u :: u in calls && u in r.records ==> u in CallsOf(r, node)
  }

  /** A sweep's list still holds every call the index holds. */
  ghost predicate ListsCover(work: map<Replica, Work>, indexed: set<Uuid>) {
    forall replica, u :: replica in work && work[replica].Sweeping? && u in indexed ==> u in work[replica].rest
  }

  ghost predicate PhasesHonest(work: map<Replica, Work>, r: Registry, lost: set<Uuid>) {
    forall replica :: replica in work && work[replica].Sweeping? ==>
      && (!work[replica].at.Unread? ==> |work[replica].rest| > 0)
      && (work[replica].at.Announced? ==> work[replica].rest[0] in lost)
      && (work[replica].at.Gone? ==> work[replica].rest[0] !in r.records)
  }

  ghost predicate Inv(node: NodeId, calls: set<Uuid>, s: State) {
    && Accounted(calls, s.world.registry, LostIn(s.world.outbox), s.expired)
    && Indexed(calls, s.world.registry, node)
    && ListsCover(s.work, CallsOf(s.world.registry, node))
    && PhasesHonest(s.work, s.world.registry, LostIn(s.world.outbox))
  }

  lemma {:induction false} LostGrows(outbox: seq<Event>, e: Event)
    requires e.CallLost?
    ensures LostIn(outbox + [e]) == LostIn(outbox) + {e.callUuid}
  {
    assert forall f :: f in outbox + [e] <==> f in outbox || f == e;
  }

  lemma {:induction false} AnnounceKeepsInv(node: NodeId, ttl: nat, calls: set<Uuid>, s: State, replica: Replica)
    requires Inv(node, calls, s) && CanMove(node, s, replica, Announce)
    ensures Inv(node, calls, Moved(node, ttl, s, replica, Announce))
  {
    var w := s.work[replica];
    LostGrows(s.world.outbox, CallLost(w.rest[0], node, w.at.tenant));
  }

  lemma {:induction false} RemoveKeepsInv(node: NodeId, ttl: nat, calls: set<Uuid>, s: State, replica: Replica)
    requires Inv(node, calls, s) && CanMove(node, s, replica, Remove)
    ensures Inv(node, calls, Moved(node, ttl, s, replica, Remove))
  {
    var rest := s.work[replica].rest;
    assert rest == [rest[0]] + rest[1..];
  }

  lemma {:induction false} ForgetKeepsInv(node: NodeId, ttl: nat, calls: set<Uuid>, s: State, replica: Replica)
    requires Inv(node, calls, s) && CanMove(node, s, replica, Forget)
    ensures Inv(node, calls, Moved(node, ttl, s, replica, Forget))
    ensures CallsOf(s.world.registry, node) == {}
  {
    assert s.work[replica].rest == [];
  }

  lemma {:induction false} OtherMovesKeepInv(node: NodeId, ttl: nat, calls: set<Uuid>, s: State, replica: Replica, move: Move)
    requires Inv(node, calls, s) && CanMove(node, s, replica, move)
    requires move.Take? || move.List? || move.Look? || move.Fail?
    ensures Inv(node, calls, Moved(node, ttl, s, replica, move))
  {
  }

  lemma {:induction false} StepKeepsInv(node: NodeId, ttl: nat, calls: set<Uuid>, s: State, step: Step)
    requires Inv(node, calls, s) && Enabled(node, s, step)
    ensures Inv(node, calls, Next(node, ttl, s, step))
  {
    if step.By? {
      match step.move
      case Announce => AnnounceKeepsInv(node, ttl, calls, s, step.replica);
      case Remove => RemoveKeepsInv(node, ttl, calls, s, step.replica);
      case Forget => ForgetKeepsInv(node, ttl, calls, s, step.replica);
      case _ => OtherMovesKeepInv(node, ttl, calls, s, step.replica, step.move);
    }
  }

  lemma {:induction false} RunKeepsInv(node: NodeId, ttl: nat, calls: set<Uuid>, s: State, steps: seq<Step>)
    requires Inv(node, calls, s) && Runs(node, ttl, s, steps)
    ensures Inv(node, calls, After(node, ttl, s, steps))
    decreases |steps|
  {
    if steps != [] {
      StepKeepsInv(node, ttl, calls, s, steps[0]);
      RunKeepsInv(node, ttl, calls, Next(node, ttl, s, steps[0]), steps[1..]);
    }
  }

  // ---------- Main results ----------

  /** Nobody handles the node's death yet; it holds these calls. */
  function Start(world: World): State {
    State(0, world, None, map[], {})
  }

  function LiveCalls(r: Registry, node: NodeId): set<Uuid> {
    set u | u in CallsOf(r, node) && u in r.records
  }

  lemma {:induction false} StartKeepsInv(node: NodeId, world: World)
    ensures Inv(node, LiveCalls(world.registry, node), Start(world))
  {
  }

  /** Whatever crashes, lapses or overlaps: a call that had a record has it still, or was announced as lost, or its record expired. */
  lemma {:induction false} NoCallVanishesUnannounced(node: NodeId, ttl: nat, world: World, steps: seq<Step>, u: Uuid)
    requires Runs(node, ttl, Start(world), steps) && u in LiveCalls(world.registry, node)
    ensures var s := After(node, ttl, Start(world), steps);
            u in s.world.registry.records || u in LostIn(s.world.outbox) || u in s.expired
  {
    StartKeepsInv(node, world);
    RunKeepsInv(node, ttl, LiveCalls(world.registry, node), Start(world), steps);
  }

  /** Once any sweep completes, the node has no calls left, and each was announced or had expired. */
  lemma {:induction false} CompletedSweepLeavesNothing(node: NodeId, ttl: nat, world: World, steps: seq<Step>, replica: Replica, u: Uuid)
    requires Runs(node, ttl, Start(world), steps) && Enabled(node, After(node, ttl, Start(world), steps), By(replica, Forget))
    ensures var s := Next(node, ttl, After(node, ttl, Start(world), steps), By(replica, Forget));
            && CallsOf(s.world.registry, node) == {}
            && (u in LiveCalls(world.registry, node) ==>
                  u !in s.world.registry.records && (u in LostIn(s.world.outbox) || u in s.expired))
  {
    StartKeepsInv(node, world);
    RunKeepsInv(node, ttl, LiveCalls(world.registry, node), Start(world), steps);
    ForgetKeepsInv(node, ttl, LiveCalls(world.registry, node), After(node, ttl, Start(world), steps), replica);
  }

  // ---------- Announced once ----------

  function TimesLost(outbox: seq<Event>, u: Uuid): nat {
    if |outbox| == 0 then 0
    else
      var e := outbox[|outbox| - 1];
      TimesLost(outbox[..|outbox| - 1], u) + if e.CallLost? && e.callUuid == u then 1 else 0
  }

  /** What may go wrong: a sweep begins beside one at work, or one fails between its two writes. */
  datatype Rules = Rules(overlaps: bool, fails: bool)

  const FREE := Rules(true, true)
  const ORDERLY := Rules(false, false)

  predicate BetweenWrites(s: State, replica: Replica) {
    replica in s.work && s.work[replica].Sweeping? && s.work[replica].at.Announced?
  }

  predicate Follows(rules: Rules, s: State, step: Step) {
    step.By? ==>
      && (step.move.Take? && s.work != map[] ==> rules.overlaps)
      && (step.move.Fail? && BetweenWrites(s, step.replica) ==> rules.fails)
  }

  ghost predicate RunFollows(rules: Rules, node: NodeId, ttl: nat, s: State, steps: seq<Step>)
    requires Runs(node, ttl, s, steps)
    decreases |steps|
  {
    steps == [] || (Follows(rules, s, steps[0]) && RunFollows(rules, node, ttl, Next(node, ttl, s, steps[0]), steps[1..]))
  }

  ghost predicate OneAtWork(work: map<Replica, Work>) {
    forall a, b :: a in work && b in work ==> a == b
  }

  /** The replica is at this call. */
  predicate IsAt(w: Work, u: Uuid) {
    w.Sweeping? && |w.rest| > 0 && w.rest[0] == u
  }

  /** Somebody is between announcing this call and removing it. */
  ghost predicate MidCall(work: map<Replica, Work>, u: Uuid) {
    exists replica :: replica in work && IsAt(work[replica], u) && work[replica].at.Announced?
  }

  /** Somebody has read this call's record and is about to announce it. */
  ghost predicate AboutToAnnounce(work: map<Replica, Work>, u: Uuid) {
    exists replica :: replica in work && IsAt(work[replica], u) && work[replica].at.Found?
  }

  ghost predicate OnceInv(work: map<Replica, Work>, records: set<Uuid>, times: nat, u: Uuid) {
    && OneAtWork(work)
    && times <= 1
    && (times == 1 ==> !AboutToAnnounce(work, u) && (u in records ==> MidCall(work, u)))
  }

  ghost predicate AnnouncedOnce(s: State, u: Uuid) {
    OnceInv(s.work, s.world.registry.records.Keys, TimesLost(s.world.outbox, u), u)
  }

  lemma {:induction false} TakeKeepsOnce(node: NodeId, ttl: nat, s: State, replica: Replica, move: Move, u: Uuid)
    requires AnnouncedOnce(s, u) && CanMove(node, s, replica, move) && Follows(ORDERLY, s, By(replica, move))
    requires move.Take? || move.List? || move.Forget? || move.Fail?
    ensures AnnouncedOnce(Moved(node, ttl, s, replica, move), u)
  {
    var t := Moved(node, ttl, s, replica, move);
    assert forall other :: other in t.work ==> other == replica;
    assert replica in t.work ==> t.work[replica].Claimed? || t.work[replica].at.Unread?;
  }

  /** With one replica at work, only what it does matters. */
  lemma {:induction false} SoleWorker(work: map<Replica, Work>, replica: Replica, u: Uuid)
    requires replica in work && OneAtWork(work)
    ensures MidCall(work, u) <==> IsAt(work[replica], u) && work[replica].at.Announced?
    ensures AboutToAnnounce(work, u) <==> IsAt(work[replica], u) && work[replica].at.Found?
  {
    if IsAt(work[replica], u) && work[replica].at.Announced? {
      assert MidCall(work, u);
    }
    if IsAt(work[replica], u) && work[replica].at.Found? {
      assert AboutToAnnounce(work, u);
    }
  }

  lemma {:induction false} LookKeepsOnce(node: NodeId, ttl: nat, s: State, replica: Replica, u: Uuid)
    requires AnnouncedOnce(s, u) && CanMove(node, s, replica, Look)
    ensures AnnouncedOnce(Moved(node, ttl, s, replica, Look), u)
  {
    SoleWorker(s.work, replica, u);
    SoleWorker(Moved(node, ttl, s, replica, Look).work, replica, u);
  }

  lemma {:induction false} AnnounceKeepsOnce(node: NodeId, ttl: nat, s: State, replica: Replica, u: Uuid)
    requires AnnouncedOnce(s, u) && CanMove(node, s, replica, Announce)
    ensures AnnouncedOnce(Moved(node, ttl, s, replica, Announce), u)
  {
    var t := Moved(node, ttl, s, replica, Announce);
    SoleWorker(s.work, replica, u);
    SoleWorker(t.work, replica, u);
    TimesGrow(s.world.outbox, CallLost(s.work[replica].rest[0], node, s.work[replica].at.tenant), u);
  }

  lemma {:induction false} TimesGrow(outbox: seq<Event>, e: Event, u: Uuid)
    ensures TimesLost(outbox + [e], u) == TimesLost(outbox, u) + if e.CallLost? && e.callUuid == u then 1 else 0
  {
    assert (outbox + [e])[..|outbox|] == outbox;
  }

  lemma {:induction false} RemoveKeepsOnce(node: NodeId, ttl: nat, s: State, replica: Replica, u: Uuid)
    requires AnnouncedOnce(s, u) && CanMove(node, s, replica, Remove)
    ensures AnnouncedOnce(Moved(node, ttl, s, replica, Remove), u)
  {
    SoleWorker(s.work, replica, u);
    SoleWorker(Moved(node, ttl, s, replica, Remove).work, replica, u);
  }

  lemma {:induction false} OrderlyMoveKeepsOnce(node: NodeId, ttl: nat, s: State, replica: Replica, move: Move, u: Uuid)
    requires AnnouncedOnce(s, u) && CanMove(node, s, replica, move) && Follows(ORDERLY, s, By(replica, move))
    ensures AnnouncedOnce(Moved(node, ttl, s, replica, move), u)
  {
    match move
    case Look => LookKeepsOnce(node, ttl, s, replica, u);
    case Announce => AnnounceKeepsOnce(node, ttl, s, replica, u);
    case Remove => RemoveKeepsOnce(node, ttl, s, replica, u);
    case _ => TakeKeepsOnce(node, ttl, s, replica, move, u);
  }

  lemma {:induction false} OrderlyRunKeepsOnce(node: NodeId, ttl: nat, s: State, steps: seq<Step>, u: Uuid)
    requires AnnouncedOnce(s, u) && Runs(node, ttl, s, steps) && RunFollows(ORDERLY, node, ttl, s, steps)
    ensures AnnouncedOnce(After(node, ttl, s, steps), u)
    decreases |steps|
  {
    if steps != [] {
      if steps[0].By? {
        OrderlyMoveKeepsOnce(node, ttl, s, steps[0].replica, steps[0].move, u);
      }
      OrderlyRunKeepsOnce(node, ttl, Next(node, ttl, s, steps[0]), steps[1..], u);
    }
  }

  lemma {:induction false} LostIsTimesLost(outbox: seq<Event>, u: Uuid)
    ensures u in LostIn(outbox) <==> TimesLost(outbox, u) > 0
  {
    if |outbox| > 0 {
      var n := |outbox| - 1;
      LostIsTimesLost(outbox[..n], u);
      assert outbox == outbox[..n] + [outbox[n]];
      if u in LostIn(outbox) {
        var e :| e in outbox && e.CallLost? && e.callUuid == u;
        assert e in outbox[..n] || e == outbox[n];
      }
      if u in LostIn(outbox[..n]) {
        var e :| e in outbox[..n] && e.CallLost? && e.callUuid == u;
        assert e in outbox;
      }
    }
  }

  /** With no overlap and no failure between the two writes, a completed sweep has announced each unexpired call exactly once. */
  lemma {:induction false} OrderlySweepsAnnounceOnce(node: NodeId, ttl: nat, world: World, steps: seq<Step>, replica: Replica, u: Uuid)
    requires Runs(node, ttl, Start(world), steps) && RunFollows(ORDERLY, node, ttl, Start(world), steps)
    requires Enabled(node, After(node, ttl, Start(world), steps), By(replica, Forget))
    requires u in LiveCalls(world.registry, node) && TimesLost(world.outbox, u) == 0
    ensures var s := Next(node, ttl, After(node, ttl, Start(world), steps), By(replica, Forget));
            TimesLost(s.world.outbox, u) == 1 || (u in s.expired && TimesLost(s.world.outbox, u) == 0)
  {
    OrderlyRunKeepsOnce(node, ttl, Start(world), steps, u);
    CompletedSweepLeavesNothing(node, ttl, world, steps, replica, u);
    LostIsTimesLost(After(node, ttl, Start(world), steps).world.outbox, u);
  }

  // ---------- Runs put together ----------

  /** Some run that keeps the rules leads there. */
  ghost predicate Reaches(rules: Rules, node: NodeId, ttl: nat, s: State, t: State) {
    exists steps :: Runs(node, ttl, s, steps) && RunFollows(rules, node, ttl, s, steps) && After(node, ttl, s, steps) == t
  }

  lemma {:induction false} RunsSnoc(rules: Rules, node: NodeId, ttl: nat, s: State, steps: seq<Step>, step: Step)
    requires Runs(node, ttl, s, steps) && RunFollows(rules, node, ttl, s, steps)
    requires Enabled(node, After(node, ttl, s, steps), step) && Follows(rules, After(node, ttl, s, steps), step)
    ensures Runs(node, ttl, s, steps + [step]) && RunFollows(rules, node, ttl, s, steps + [step])
    ensures After(node, ttl, s, steps + [step]) == Next(node, ttl, After(node, ttl, s, steps), step)
    decreases |steps|
  {
    if steps == [] {
      assert [step][1..] == [] && steps + [step] == [step];
      assert Runs(node, ttl, Next(node, ttl, s, step), []);
    } else {
      assert (steps + [step])[1..] == steps[1..] + [step];
      RunsSnoc(rules, node, ttl, Next(node, ttl, s, steps[0]), steps[1..], step);
    }
  }

  lemma {:induction false} ReachesItself(rules: Rules, node: NodeId, ttl: nat, s: State)
    ensures Reaches(rules, node, ttl, s, s)
  {
    assert Runs(node, ttl, s, []) && After(node, ttl, s, []) == s;
    assert RunFollows(rules, node, ttl, s, []);
  }

  lemma {:induction false} ReachesFurther(rules: Rules, node: NodeId, ttl: nat, s: State, t: State, step: Step)
    requires Reaches(rules, node, ttl, s, t) && Enabled(node, t, step) && Follows(rules, t, step)
    ensures Reaches(rules, node, ttl, s, Next(node, ttl, t, step))
  {
    var steps :| Runs(node, ttl, s, steps) && RunFollows(rules, node, ttl, s, steps) && After(node, ttl, s, steps) == t;
    RunsSnoc(rules, node, ttl, s, steps, step);
  }

  lemma {:induction false} MovesFurther(rules: Rules, node: NodeId, ttl: nat, s: State, t: State, replica: Replica, move: Move)
      returns (r: State)
    requires Reaches(rules, node, ttl, s, t) && CanMove(node, t, replica, move) && Follows(rules, t, By(replica, move))
    ensures r == Moved(node, ttl, t, replica, move) && Reaches(rules, node, ttl, s, r)
  {
    ReachesFurther(rules, node, ttl, s, t, By(replica, move));
    r := Moved(node, ttl, t, replica, move);
  }

  lemma {:induction false} StartsSweep(rules: Rules, node: NodeId, ttl: nat, s: State, t: State, replica: Replica, u: Uuid)
      returns (r: State)
    requires Reaches(rules, node, ttl, s, t) && replica !in t.work && ClaimIsFree(t) && (t.work == map[] || rules.overlaps)
    requires CallsOf(t.world.registry, node) == {u} && u in t.world.registry.records
    ensures Reaches(rules, node, ttl, s, r) && r.world == t.world && r.clock == t.clock && r.expired == t.expired
    ensures r.claim == Some(Claim(replica, t.clock + ttl))
    ensures r.work == t.work[replica := Sweeping([u], Found(t.world.registry.records[u].tenant))]
  {
    r := MovesFurther(rules, node, ttl, s, t, replica, Take);
    r := MovesFurther(rules, node, ttl, s, r, replica, List([u]));
    r := MovesFurther(rules, node, ttl, s, r, replica, Look);
    assert r.work == t.work[replica := Sweeping([u], Found(t.world.registry.records[u].tenant))];
  }

  // ---------- Exactly when a call is announced once ----------

  /** A world with one call on the node. */
  function OneCall(node: NodeId, u: Uuid): World {
    World(Registry(map[u := Record(node, None, None, map[])], map[node := {u}], map[]), [])
  }

  /** Two sweeps at work, the first claim having lapsed, can both announce a call, though none fails between its writes. */
  lemma {:induction false} OverlapCanAnnounceTwice(node: NodeId, ttl: nat, u: Uuid, a: Replica, b: Replica)
    requires a != b
    ensures exists t :: Reaches(Rules(true, false), node, ttl, Start(OneCall(node, u)), t) && TimesLost(t.world.outbox, u) == 2
  {
    var s, rules := Start(OneCall(node, u)), Rules(true, false);
    ReachesItself(rules, node, ttl, s);
    var t := StartsSweep(rules, node, ttl, s, s, a, u);
    ReachesFurther(rules, node, ttl, s, t, Tick(ttl));
    t := Next(node, ttl, t, Tick(ttl));
    t := StartsSweep(rules, node, ttl, s, t, b, u);
    TimesGrow(t.world.outbox, CallLost(u, node, None), u);
    t := MovesFurther(rules, node, ttl, s, t, a, Announce);
    TimesGrow(t.world.outbox, CallLost(u, node, None), u);
    t := MovesFurther(rules, node, ttl, s, t, b, Announce);
    assert TimesLost(t.world.outbox, u) == 2;
  }

  /** So can one sweep after another that failed between its two writes, though no two are ever at work together. */
  lemma {:induction false} CrashCanAnnounceTwice(node: NodeId, ttl: nat, u: Uuid, a: Replica, b: Replica)
    ensures exists t :: Reaches(Rules(false, true), node, ttl, Start(OneCall(node, u)), t) && TimesLost(t.world.outbox, u) == 2
  {
    var s, rules := Start(OneCall(node, u)), Rules(false, true);
    ReachesItself(rules, node, ttl, s);
    var t := StartsSweep(rules, node, ttl, s, s, a, u);
    TimesGrow(t.world.outbox, CallLost(u, node, None), u);
    t := MovesFurther(rules, node, ttl, s, t, a, Announce);
    t := MovesFurther(rules, node, ttl, s, t, a, Fail);
    assert t.work == map[];
    ReachesFurther(rules, node, ttl, s, t, Tick(ttl));
    t := Next(node, ttl, t, Tick(ttl));
    t := StartsSweep(rules, node, ttl, s, t, b, u);
    TimesGrow(t.world.outbox, CallLost(u, node, None), u);
    t := MovesFurther(rules, node, ttl, s, t, b, Announce);
    assert TimesLost(t.world.outbox, u) == 2;
  }

  /** What is allowed under some rules is allowed under wider ones. */
  lemma {:induction false} WiderRules(rules: Rules, wider: Rules, node: NodeId, ttl: nat, s: State, steps: seq<Step>)
    requires (rules.overlaps ==> wider.overlaps) && (rules.fails ==> wider.fails)
    requires Runs(node, ttl, s, steps) && RunFollows(rules, node, ttl, s, steps)
    ensures RunFollows(wider, node, ttl, s, steps)
    decreases |steps|
  {
    if steps != [] {
      WiderRules(rules, wider, node, ttl, Next(node, ttl, s, steps[0]), steps[1..]);
    }
  }

  ghost predicate AlwaysAtMostOnce(rules: Rules, node: NodeId, ttl: nat, u: Uuid) {
    forall world: World, t: State :: TimesLost(world.outbox, u) == 0 && Reaches(rules, node, ttl, Start(world), t) ==>
      TimesLost(t.world.outbox, u) <= 1
  }

  lemma {:induction false} OrderlyIsAtMostOnce(node: NodeId, ttl: nat, u: Uuid)
    ensures AlwaysAtMostOnce(ORDERLY, node, ttl, u)
  {
    forall world: World, t: State | TimesLost(world.outbox, u) == 0 && Reaches(ORDERLY, node, ttl, Start(world), t)
      ensures TimesLost(t.world.outbox, u) <= 1
    {
      var steps :| Runs(node, ttl, Start(world), steps) && RunFollows(ORDERLY, node, ttl, Start(world), steps)
                   && After(node, ttl, Start(world), steps) == t;
      OrderlyRunKeepsOnce(node, ttl, Start(world), steps, u);
    }
  }

  lemma {:induction false} ReachesWider(rules: Rules, wider: Rules, node: NodeId, ttl: nat, s: State, t: State)
    requires (rules.overlaps ==> wider.overlaps) && (rules.fails ==> wider.fails) && Reaches(rules, node, ttl, s, t)
    ensures Reaches(wider, node, ttl, s, t)
  {
    var steps :| Runs(node, ttl, s, steps) && RunFollows(rules, node, ttl, s, steps) && After(node, ttl, s, steps) == t;
    WiderRules(rules, wider, node, ttl, s, steps);
  }

  /**
   No call is announced more than once, in any world and any run, exactly when no sweep begins beside
   one at work and none fails between announcing a call and removing it. Either alone is enough to
   announce one twice.
   */
  lemma {:induction false} AnnouncedOnceIffOrderly(node: NodeId, ttl: nat, u: Uuid, rules: Rules)
    ensures AlwaysAtMostOnce(rules, node, ttl, u) <==> !rules.overlaps && !rules.fails
  {
    if rules == ORDERLY {
      OrderlyIsAtMostOnce(node, ttl, u);
    } else {
      var world := OneCall(node, u);
      assert TimesLost(world.outbox, u) == 0;
      if rules.overlaps {
        OverlapCanAnnounceTwice(node, ttl, u, "a", "b");
        var t :| Reaches(Rules(true, false), node, ttl, Start(world), t) && TimesLost(t.world.outbox, u) == 2;
        ReachesWider(Rules(true, false), rules, node, ttl, Start(world), t);
      } else {
        CrashCanAnnounceTwice(node, ttl, u, "a", "b");
        var t :| Reaches(Rules(false, true), node, ttl, Start(world), t) && TimesLost(t.world.outbox, u) == 2;
      }
    }
  }

  // ---------- What rules overlap out ----------

  /** When each replica at work took the death over. */
  function Began(s: State, since: map<Replica, int>, step: Step): map<Replica, int> {
    if step.By? && step.move.Take? then since[step.replica := s.clock] else since
  }

  /** Every sweep ends, or fails, before the time its claim is made for has passed. */
  ghost predicate InTime(node: NodeId, ttl: nat, s: State, since: map<Replica, int>, steps: seq<Step>)
    requires Runs(node, ttl, s, steps)
    decreases |steps|
  {
    steps == [] ||
      var t, began := Next(node, ttl, s, steps[0]), Began(s, since, steps[0]);
      && (forall replica :: replica in t.work ==> replica in began && t.clock < began[replica] + ttl)
      && InTime(node, ttl, t, began, steps[1..])
  }

  /** Whoever is at work is within the claim that stands. */
  ghost predicate Covered(ttl: nat, s: State, since: map<Replica, int>) {
    forall replica :: replica in s.work ==>
      && replica in since && s.clock < since[replica] + ttl
      && s.claim.Some? && since[replica] + ttl <= s.claim.value.until
  }

  lemma {:induction false} StepStaysCovered(node: NodeId, ttl: nat, s: State, since: map<Replica, int>, step: Step)
    requires Covered(ttl, s, since) && Enabled(node, s, step)
    requires forall replica :: replica in Next(node, ttl, s, step).work ==>
               replica in Began(s, since, step) && Next(node, ttl, s, step).clock < Began(s, since, step)[replica] + ttl
    ensures Covered(ttl, Next(node, ttl, s, step), Began(s, since, step)) && Follows(Rules(false, true), s, step)
  {
    if step.By? && step.move.Take? {
      assert forall replica :: replica !in s.work;
    }
  }

  /** If every sweep ends within the claim's time, no two are at work together. */
  lemma {:induction false} InTimeNeverOverlaps(node: NodeId, ttl: nat, s: State, since: map<Replica, int>, steps: seq<Step>)
    requires Covered(ttl, s, since) && Runs(node, ttl, s, steps) && InTime(node, ttl, s, since, steps)
    ensures RunFollows(Rules(false, true), node, ttl, s, steps)
    decreases |steps|
  {
    if steps != [] {
      StepStaysCovered(node, ttl, s, since, steps[0]);
      InTimeNeverOverlaps(node, ttl, Next(node, ttl, s, steps[0]), Began(s, since, steps[0]), steps[1..]);
    }
  }

  lemma {:induction false} BothRules(node: NodeId, ttl: nat, s: State, steps: seq<Step>)
    requires Runs(node, ttl, s, steps)
    requires RunFollows(Rules(false, true), node, ttl, s, steps) && RunFollows(Rules(true, false), node, ttl, s, steps)
    ensures RunFollows(ORDERLY, node, ttl, s, steps)
    decreases |steps|
  {
    if steps != [] {
      BothRules(node, ttl, Next(node, ttl, s, steps[0]), steps[1..]);
    }
  }

  /** In particular: sweeps that end in time, none failing between its writes, announce no call twice. */
  lemma {:induction false} TimelySweepsAnnounceOnce(node: NodeId, ttl: nat, world: World, steps: seq<Step>, u: Uuid)
    requires Runs(node, ttl, Start(world), steps) && TimesLost(world.outbox, u) == 0
    requires InTime(node, ttl, Start(world), map[], steps) && RunFollows(Rules(true, false), node, ttl, Start(world), steps)
    ensures TimesLost(After(node, ttl, Start(world), steps).world.outbox, u) <= 1
  {
    InTimeNeverOverlaps(node, ttl, Start(world), map[], steps);
    BothRules(node, ttl, Start(world), steps);
    OrderlyRunKeepsOnce(node, ttl, Start(world), steps, u);
  }
}
