/**
 The per-key serial queue over promise tails: each task runs once the tail before it settles, and an
 idle key is forgotten. Tasks are numbered in the order they were given.
 */
module Serial {
  import opened Wrappers

  type Key = string
  type Id = nat

  /** `ran` says whether the task was called at all. A tail is rejected only when `onError` itself threw. */
  datatype Status = Waiting | Running | Fulfilled(ran: bool) | Rejected(ran: bool)

  /** A task and the tail it was chained on; with none, on a promise already resolved. */
  datatype Task = Task(key: Key, prev: Option<Id>, status: Status)

  datatype State = State(tasks: seq<Task>, tails: map<Key, Id>)

  datatype Step =
    | Submit(key: Key)
    | Start(id: Id)                       // the tail before is fulfilled
    | Finish(id: Id, onErrorThrew: bool)  // the task completed or failed, and `onError` returned or threw
    | Skip(id: Id, onErrorThrew: bool)    // the tail before was rejected: the task is passed over, `onError` called
    | Forget(id: Id)                      // what follows a fulfilled tail

  predicate Settled(t: Task) {
    t.status.Fulfilled? || t.status.Rejected?
  }

  predicate PrevIs(s: State, id: Id, rejected: bool)
    requires id < |s.tasks|
  {
    match s.tasks[id].prev
    case None => !rejected
    case Some(p) => p < |s.tasks| && (if rejected then s.tasks[p].status.Rejected? else s.tasks[p].status.Fulfilled?)
  }

  predicate Enabled(s: State, step: Step) {
    match step
    case Submit(key) => true
    case Start(id) => id < |s.tasks| && s.tasks[id].status.Waiting? && PrevIs(s, id, false)
    case Finish(id, _) => id < |s.tasks| && s.tasks[id].status.Running?
    case Skip(id, _) => id < |s.tasks| && s.tasks[id].status.Waiting? && PrevIs(s, id, true)
    case Forget(id) => id < |s.tasks| && s.tasks[id].status.Fulfilled?
  }

  function TailOf(s: State, key: Key): Option<Id> {
    if key in s.tails then Some(s.tails[key]) else None
  }

  function WithStatus(s: State, id: Id, status: Status): State
    requires id < |s.tasks|
  {
    s.(tasks := s.tasks[id := s.tasks[id].(status := status)])
  }

  function Next(s: State, step: Step): State
    requires Enabled(s, step)
  {
    match step
    case Submit(key) =>
      State(s.tasks + [Task(key, TailOf(s, key), Waiting)], s.tails[key := |s.tasks|])
    case Start(id) => WithStatus(s, id, Running)
    case Finish(id, threw) => WithStatus(s, id, if threw then Rejected(true) else Fulfilled(true))
    case Skip(id, threw) => WithStatus(s, id, if threw then Rejected(false) else Fulfilled(false))
    case Forget(id) =>
      var key := s.tasks[id].key;
      if TailOf(s, key) == Some(id) then s.(tails := s.tails - {key}) else s
  }

  predicate Runs(s: State, steps: seq<Step>)
    decreases |steps|
  {
    steps == [] || (Enabled(s, steps[0]) && Runs(Next(s, steps[0]), steps[1..]))
  }

  function After(s: State, steps: seq<Step>): State
    requires Runs(s, steps)
    decreases |steps|
  {
    if steps == [] then s else After(Next(s, steps[0]), steps[1..])
  }

  function Empty(): State {
    State([], map[])
  }

  // ---------- What every run keeps ----------

  /** A task is chained on the task of its key before it, or on nothing when all of those had settled. */
  predicate ChainedAt(tasks: seq<Task>, i: Id)
    requires i < |tasks|
  {
    match tasks[i].prev
    case Some(p) => p < i && tasks[p].key == tasks[i].key && forall j :: p < j < i ==> tasks[j].key != tasks[i].key
    case None => forall j :: 0 <= j < i && tasks[j].key == tasks[i].key ==> Settled(tasks[j])
  }

  predicate Chained(tasks: seq<Task>) {
    forall i :: 0 <= i < |tasks| ==> ChainedAt(tasks, i)
  }

  /** Once a task has begun, every task of its key before it has settled. */
  predicate InOrder(tasks: seq<Task>) {
    forall i, j :: 0 <= i < j < |tasks| && tasks[i].key == tasks[j].key && !tasks[j].status.Waiting? ==> Settled(tasks[i])
  }

  predicate IsLastOf(tasks: seq<Task>, i: Id, key: Key) {
    i < |tasks| && tasks[i].key == key && forall j :: i < j < |tasks| ==> tasks[j].key != key
  }

  predicate TailsAreLast(tasks: seq<Task>, tails: map<Key, Id>) {
    && (forall key :: key in tails ==> IsLastOf(tasks, tails[key], key))
    && (forall i :: 0 <= i < |tasks| && tasks[i].key !in tails ==> Settled(tasks[i]))
  }

  predicate SkippedAt(tasks: seq<Task>, i: Id)
    requires i < |tasks|
  {
    tasks[i].status == Fulfilled(false) || tasks[i].status == Rejected(false)
  }

  /** A task is passed over only behind a tail that was rejected. */
  predicate SkipsHaveCause(tasks: seq<Task>) {
    forall i :: 0 <= i < |tasks| && Settled(tasks[i]) ==>
      match tasks[i].prev
      case None => !SkippedAt(tasks, i)
      case Some(p) => p < |tasks| && (SkippedAt(tasks, i) <==> tasks[p].status.Rejected?)
  }

  predicate RunnersHaveCause(tasks: seq<Task>) {
    forall i :: 0 <= i < |tasks| && tasks[i].status.Running? && tasks[i].prev.Some? ==>
      tasks[i].prev.value < |tasks| && tasks[tasks[i].prev.value].status.Fulfilled?
  }

  predicate Inv(s: State) {
    && Chained(s.tasks) && InOrder(s.tasks) && TailsAreLast(s.tasks, s.tails)
    && SkipsHaveCause(s.tasks) && RunnersHaveCause(s.tasks)
  }

  lemma {:induction false} SubmitKeepsInv(s: State, key: Key)
    requires Inv(s)
    ensures Inv(Next(s, Submit(key)))
  {
    var t := Next(s, Submit(key));
    forall i | 0 <= i < |t.tasks|
      ensures ChainedAt(t.tasks, i)
    {
      if i < |s.tasks| {
        assert ChainedAt(s.tasks, i);
        assert forall j :: 0 <= j <= i ==> t.tasks[j] == s.tasks[j];
      }
    }
  }

  /** When a task may begin or is passed over, everything of its key before it has settled. */
  lemma {:induction false} ItsTurn(s: State, i: Id, rejected: bool)
    requires Inv(s) && i < |s.tasks| && PrevIs(s, i, rejected)
    ensures forall j :: 0 <= j < i && s.tasks[j].key == s.tasks[i].key ==> Settled(s.tasks[j])
  {
    assert ChainedAt(s.tasks, i);
    if s.tasks[i].prev.Some? {
      var p := s.tasks[i].prev.value;
      forall j | 0 <= j < i && s.tasks[j].key == s.tasks[i].key
        ensures Settled(s.tasks[j])
      {
        assert j <= p;
        assert s.tasks[j].key == s.tasks[p].key;
      }
    }
  }

  /** Only statuses differ, and what has settled stays as it is. */
  predicate Evolves(tasks: seq<Task>, t: seq<Task>) {
    && |t| == |tasks|
    && forall i :: 0 <= i < |t| ==>
         t[i].key == tasks[i].key && t[i].prev == tasks[i].prev && (Settled(tasks[i]) ==> t[i].status == tasks[i].status)
  }

  lemma {:induction false} EvolvingKeepsChain(tasks: seq<Task>, t: seq<Task>)
    requires Chained(tasks) && Evolves(tasks, t)
    ensures Chained(t)
  {
    forall i | 0 <= i < |t|
      ensures ChainedAt(t, i)
    {
      assert ChainedAt(tasks, i);
    }
  }

  lemma {:induction false} EvolvingKeepsTails(tasks: seq<Task>, t: seq<Task>, tails: map<Key, Id>)
    requires TailsAreLast(tasks, tails) && Evolves(tasks, t)
    ensures TailsAreLast(t, tails)
  {
    forall key | key in tails
      ensures IsLastOf(t, tails[key], key)
    {
      assert IsLastOf(tasks, tails[key], key);
    }
  }

  lemma {:induction false} StartKeepsInv(s: State, id: Id)
    requires Inv(s) && Enabled(s, Start(id))
    ensures Inv(Next(s, Start(id)))
  {
    var t := Next(s, Start(id)).tasks;
    ItsTurn(s, id, false);
    EvolvingKeepsChain(s.tasks, t);
    EvolvingKeepsTails(s.tasks, t, s.tails);
  }

  lemma {:induction false} SettlingKeepsCauses(s: State, id: Id, status: Status)
    requires Inv(s) && id < |s.tasks| && !Settled(s.tasks[id]) && (status.Fulfilled? || status.Rejected?)
    requires match s.tasks[id].prev
             case None => status.ran
             case Some(p) => p < |s.tasks| && (!status.ran <==> s.tasks[p].status.Rejected?)
    ensures SkipsHaveCause(WithStatus(s, id, status).tasks) && RunnersHaveCause(WithStatus(s, id, status).tasks)
  {
    NobodyWaitedOnIt(s, id);
    assert ChainedAt(s.tasks, id);
  }

  lemma {:induction false} FinishKeepsInv(s: State, id: Id, threw: bool)
    requires Inv(s) && Enabled(s, Finish(id, threw))
    ensures Inv(Next(s, Finish(id, threw)))
  {
    var t := Next(s, Finish(id, threw)).tasks;
    EvolvingKeepsChain(s.tasks, t);
    EvolvingKeepsTails(s.tasks, t, s.tails);
    assert ChainedAt(s.tasks, id);
    SettlingKeepsCauses(s, id, t[id].status);
  }

  lemma {:induction false} SkipKeepsInv(s: State, id: Id, threw: bool)
    requires Inv(s) && Enabled(s, Skip(id, threw))
    ensures Inv(Next(s, Skip(id, threw)))
  {
    var t := Next(s, Skip(id, threw)).tasks;
    ItsTurn(s, id, true);
    EvolvingKeepsChain(s.tasks, t);
    EvolvingKeepsTails(s.tasks, t, s.tails);
    SettlingKeepsCauses(s, id, t[id].status);
  }

  /** Behind a task that has not settled, nothing of its key has begun. */
  lemma {:induction false} NobodyWaitedOnIt(s: State, id: Id)
    requires Inv(s) && id < |s.tasks| && !Settled(s.tasks[id])
    ensures forall i :: 0 <= i < |s.tasks| && s.tasks[i].prev == Some(id) ==> s.tasks[i].status.Waiting?
  {
    forall i | 0 <= i < |s.tasks| && s.tasks[i].prev == Some(id)
      ensures s.tasks[i].status.Waiting?
    {
      assert ChainedAt(s.tasks, i);
      assert s.tasks[id].key == s.tasks[i].key;
    }
  }

  lemma {:induction false} ForgetKeepsInv(s: State, id: Id)
    requires Inv(s) && Enabled(s, Forget(id))
    ensures Inv(Next(s, Forget(id)))
  {
    var key := s.tasks[id].key;
    if TailOf(s, key) == Some(id) {
      forall i | 0 <= i < |s.tasks| && s.tasks[i].key == key
        ensures Settled(s.tasks[i])
      {
        assert i <= id;
        if i < id {
          assert s.tasks[i].key == s.tasks[id].key;
        }
      }
    }
  }

  lemma {:induction false} StepKeepsInv(s: State, step: Step)
    requires Inv(s) && Enabled(s, step)
    ensures Inv(Next(s, step))
  {
    match step
    case Submit(key) => SubmitKeepsInv(s, key);
    case Start(id) => StartKeepsInv(s, id);
    case Finish(id, threw) => FinishKeepsInv(s, id, threw);
    case Skip(id, threw) => SkipKeepsInv(s, id, threw);
    case Forget(id) => ForgetKeepsInv(s, id);
  }

  lemma {:induction false} RunKeepsInv(s: State, steps: seq<Step>)
    requires Inv(s) && Runs(s, steps)
    ensures Inv(After(s, steps))
    decreases |steps|
  {
    if steps != [] {
      StepKeepsInv(s, steps[0]);
      RunKeepsInv(Next(s, steps[0]), steps[1..]);
    }
  }

  // ---------- Main results ----------

  /** Tasks of one key never overlap, and begin in the order they were given. */
  lemma {:induction false} OneAtATimeInOrder(steps: seq<Step>, i: Id, j: Id)
    requires Runs(Empty(), steps)
    requires i < j < |After(Empty(), steps).tasks| && After(Empty(), steps).tasks[i].key == After(Empty(), steps).tasks[j].key
    ensures var tasks := After(Empty(), steps).tasks;
            && !(tasks[i].status.Running? && tasks[j].status.Running?)
            && (!tasks[j].status.Waiting? ==> Settled(tasks[i]))
  {
    RunKeepsInv(Empty(), steps);
  }

  /** Forgetting is safe: a task given to a key that is not remembered finds every earlier task of it settled. */
  lemma {:induction false} ForgottenKeysAreIdle(steps: seq<Step>, i: Id)
    requires Runs(Empty(), steps) && i < |After(Empty(), steps).tasks|
    requires After(Empty(), steps).tasks[i].key !in After(Empty(), steps).tails
    ensures Settled(After(Empty(), steps).tasks[i])
  {
    RunKeepsInv(Empty(), steps);
  }

  /** A settled task was passed over exactly when the tail it waited on was rejected: when `onError` threw. */
  lemma {:induction false} SkippedOnlyBehindAThrow(steps: seq<Step>, i: Id)
    requires Runs(Empty(), steps) && i < |After(Empty(), steps).tasks| && Settled(After(Empty(), steps).tasks[i])
    ensures var tasks := After(Empty(), steps).tasks;
            SkippedAt(tasks, i) <==> tasks[i].prev.Some? && tasks[i].prev.value < |tasks| && tasks[tasks[i].prev.value].status.Rejected?
  {
    RunKeepsInv(Empty(), steps);
  }

  predicate NeverThrows(steps: seq<Step>) {
    forall k :: 0 <= k < |steps| ==>
      match steps[k]
      case Finish(_, threw) => !threw
      case Skip(_, threw) => !threw
      case _ => true
  }

  lemma {:induction false} NoneRejected(s: State, steps: seq<Step>)
    requires Runs(s, steps) && NeverThrows(steps) && forall i :: 0 <= i < |s.tasks| ==> !s.tasks[i].status.Rejected?
    ensures forall i :: 0 <= i < |After(s, steps).tasks| ==> !After(s, steps).tasks[i].status.Rejected?
    decreases |steps|
  {
    if steps != [] {
      var t := Next(s, steps[0]);
      assert forall i :: 0 <= i < |t.tasks| ==> !t.tasks[i].status.Rejected?;
      NoneRejected(t, steps[1..]);
    }
  }

  /** As long as `onError` does not throw, no failure stops a later task: each that settles has run. */
  lemma {:induction false} FailuresStopNobody(steps: seq<Step>, i: Id)
    requires Runs(Empty(), steps) && NeverThrows(steps) && i < |After(Empty(), steps).tasks|
    ensures !SkippedAt(After(Empty(), steps).tasks, i)
  {
    RunKeepsInv(Empty(), steps);
    NoneRejected(Empty(), steps);
    assert Settled(After(Empty(), steps).tasks[i]) || !SkippedAt(After(Empty(), steps).tasks, i);
  }

  /** The first unsettled task of a key can always go on, whatever other keys do. */
  lemma {:induction false} FirstCanGoOn(steps: seq<Step>, i: Id)
    requires Runs(Empty(), steps) && i < |After(Empty(), steps).tasks| && !Settled(After(Empty(), steps).tasks[i])
    requires forall j :: 0 <= j < i && After(Empty(), steps).tasks[j].key == After(Empty(), steps).tasks[i].key ==> Settled(After(Empty(), steps).tasks[j])
    ensures var s := After(Empty(), steps);
            Enabled(s, Start(i)) || Enabled(s, Skip(i, false)) || Enabled(s, Finish(i, false))
  {
    RunKeepsInv(Empty(), steps);
    assert ChainedAt(After(Empty(), steps).tasks, i);
  }

  // ---------- When a key is forgotten ----------

  /** A key that is not remembered was forgotten behind a fulfilled tail. */
  predicate ForgottenFulfilled(tasks: seq<Task>, tails: map<Key, Id>) {
    forall i :: 0 <= i < |tasks| && IsLastOf(tasks, i, tasks[i].key) && tasks[i].key !in tails ==> tasks[i].status.Fulfilled?
  }

  lemma {:induction false} StepKeepsForgotten(s: State, step: Step)
    requires Inv(s) && Enabled(s, step) && ForgottenFulfilled(s.tasks, s.tails)
    ensures ForgottenFulfilled(Next(s, step).tasks, Next(s, step).tails)
  {
    var t := Next(s, step);
    forall i | 0 <= i < |t.tasks| && IsLastOf(t.tasks, i, t.tasks[i].key) && t.tasks[i].key !in t.tails
      ensures t.tasks[i].status.Fulfilled?
    {
      if !step.Submit? {
        assert IsLastOf(s.tasks, i, s.tasks[i].key) by {
          assert forall j :: i < j < |s.tasks| ==> t.tasks[j].key == s.tasks[j].key;
        }
      } else {
        assert i < |s.tasks| && t.tasks[i] == s.tasks[i];
        assert forall j :: i < j < |s.tasks| ==> t.tasks[j] == s.tasks[j];
      }
    }
  }

  lemma {:induction false} RunKeepsForgotten(s: State, steps: seq<Step>)
    requires Inv(s) && Runs(s, steps) && ForgottenFulfilled(s.tasks, s.tails)
    ensures ForgottenFulfilled(After(s, steps).tasks, After(s, steps).tails)
    decreases |steps|
  {
    if steps != [] {
      StepKeepsForgotten(s, steps[0]);
      StepKeepsInv(s, steps[0]);
      RunKeepsForgotten(Next(s, steps[0]), steps[1..]);
    }
  }

  /** Nothing is left to do but to give new work: every task has settled, and what follows a fulfilled tail has run. */
  predicate AtRest(s: State) {
    && (forall i :: 0 <= i < |s.tasks| ==> Settled(s.tasks[i]))
    && (forall i :: 0 <= i < |s.tasks| && s.tasks[i].status.Fulfilled? ==> Next(s, Forget(i)) == s)
  }

  /** At rest, a key is still remembered exactly when its last tail was rejected, because `onError` threw. */
  lemma {:induction false} RememberedIffRejected(steps: seq<Step>, i: Id)
    requires Runs(Empty(), steps) && AtRest(After(Empty(), steps))
    requires i < |After(Empty(), steps).tasks|
    requires IsLastOf(After(Empty(), steps).tasks, i, After(Empty(), steps).tasks[i].key)
    ensures After(Empty(), steps).tasks[i].key in After(Empty(), steps).tails <==> After(Empty(), steps).tasks[i].status.Rejected?
  {
    var s := After(Empty(), steps);
    RunKeepsInv(Empty(), steps);
    RunKeepsForgotten(Empty(), steps);
    var key := s.tasks[i].key;
    if key in s.tails {
      assert IsLastOf(s.tasks, s.tails[key], key);
      assert s.tails[key] == i;
      assert s.tasks[i].status.Fulfilled? ==> Next(s, Forget(i)) == s;
    }
  }

  predicate NoNewWork(steps: seq<Step>, key: Key) {
    forall k :: 0 <= k < |steps| ==> steps[k] != Submit(key)
  }

  /** The key can still be forgotten without new work for it. */
  ghost predicate CanBeForgotten(s: State, key: Key) {
    exists steps :: Runs(s, steps) && NoNewWork(steps, key) && key !in After(s, steps).tails
  }

  predicate StuckOn(s: State, key: Key, id: Id) {
    TailOf(s, key) == Some(id) && id < |s.tasks| && s.tasks[id].key == key && s.tasks[id].status.Rejected?
  }

  /** A rejected tail keeps its key until new work is given to it. */
  lemma {:induction false} RejectedTailStays(s: State, steps: seq<Step>, key: Key, id: Id)
    requires StuckOn(s, key, id) && Runs(s, steps) && NoNewWork(steps, key)
    ensures StuckOn(After(s, steps), key, id)
    decreases |steps|
  {
    if steps != [] {
      assert steps[0] != Submit(key);
      assert StuckOn(Next(s, steps[0]), key, id);
      RejectedTailStays(Next(s, steps[0]), steps[1..], key, id);
    }
  }

  /** An idle key that is remembered can be forgotten, without new work for it, exactly when its tail is fulfilled. */
  lemma {:induction false} IdleKeyGoesIffFulfilled(steps: seq<Step>, key: Key)
    requires Runs(Empty(), steps) && key in After(Empty(), steps).tails
    requires var s := After(Empty(), steps);
             s.tails[key] < |s.tasks| ==> Settled(s.tasks[s.tails[key]])
    ensures var s := After(Empty(), steps);
            && s.tails[key] < |s.tasks| && s.tasks[s.tails[key]].key == key
            && (CanBeForgotten(s, key) <==> s.tasks[s.tails[key]].status.Fulfilled?)
  {
    RunKeepsInv(Empty(), steps);
    var s := After(Empty(), steps);
    var id := s.tails[key];
    assert IsLastOf(s.tasks, id, key);
    if s.tasks[id].status.Fulfilled? {
      assert [Forget(id)][1..] == [];
      assert Runs(Next(s, Forget(id)), []) && Runs(s, [Forget(id)]);
      assert After(s, [Forget(id)]) == Next(s, Forget(id)) && NoNewWork([Forget(id)], key);
    } else {
      forall more | Runs(s, more) && NoNewWork(more, key)
        ensures key in After(s, more).tails
      {
        RejectedTailStays(s, more, key, id);
      }
    }
  }

  // ---------- The queue ----------

  class SerialQueue {
    var tasks: seq<Task>
    var tails: map<Key, Id>

    constructor ()
      ensures Now() == Empty()
    {
      tasks, tails := [], map[];
    }

    function Now(): State
      reads this
    {
      State(tasks, tails)
    }

    /** The queue itself: chains the task on the key's tail, or on a resolved promise. */
    method Submit(key: Key) returns (id: Id)
      requires Inv(Now())
      modifies this
      ensures Inv(Now()) && Now() == Next(old(Now()), Step.Submit(key)) && id == |old(tasks)|
    {
      SubmitKeepsInv(Now(), key);
      var prev: Option<Id> := None;
      if key in tails {
        prev := Some(tails[key]);
      }
      id := |tasks|;
      tasks := tasks + [Task(key, prev, Waiting)];
      tails := tails[key := id];
    }

    /** What runs after a tail is fulfilled. */
    method ForgetIdle(id: Id)
      requires Inv(Now()) && Enabled(Now(), Forget(id))
      modifies this`tails
      ensures Inv(Now()) && Now() == Next(old(Now()), Forget(id))
    {
      ForgetKeepsInv(Now(), id);
      var key := tasks[id].key;
      if key in tails && tails[key] == id {
        tails := tails - {key};
      }
    }
  }
}
