/** Starting, fencing and stopping the run goroutines of accounts.
  *
  * The sections that hold the manager's lock are the atomic steps; waiting for a goroutine happens
  * between them. An instance is the number of a registration, so a replaced instance keeps its name.
  */
module AccountManager {
  import opened Options

  type Id = string

  /** `live` until `Run` returns, `done` once the channel is closed after that. */
  datatype Instance = Instance(id: Id, live: bool, done: bool, stopping: bool)

  datatype State = State(accounts: map<Id, nat>, fenced: set<Id>, stoppingAll: bool, instances: seq<Instance>)

  const EMPTY := State(map[], {}, false, [])

  datatype StartResult = Started(instance: nat) | AlreadyRunning | ManagerStopping | AccountStopping

  ghost predicate Wired(s: State) {
    && (forall id :: id in s.accounts ==> s.accounts[id] < |s.instances| && s.instances[s.accounts[id]].id == id)
    && (forall k :: 0 <= k < |s.instances| ==> (s.instances[k].live ==> !s.instances[k].done))
    // an instance that is not done is registered
    && (forall k :: 0 <= k < |s.instances| && !s.instances[k].done ==>
          s.instances[k].id in s.accounts && s.accounts[s.instances[k].id] == k)
  }

  // ---- the locked sections ----

  function StartOutcome(s: State, id: Id): StartResult
    requires id in s.accounts ==> s.accounts[id] < |s.instances|
  {
    if s.stoppingAll then ManagerStopping
    else if id in s.fenced then AccountStopping
    else if id in s.accounts && s.instances[s.accounts[id]].stopping then AccountStopping
    else if id in s.accounts && !s.instances[s.accounts[id]].done then AlreadyRunning
    else Started(|s.instances|)
  }

  function AfterStart(s: State, id: Id): State
    requires id in s.accounts ==> s.accounts[id] < |s.instances|
  {
    if StartOutcome(s, id).Started? then
      s.(accounts := s.accounts[id := |s.instances|], instances := s.instances + [Instance(id, true, false, false)])
    else s
  }

  /** The first section of `StopContext`. */
  function AfterMark(s: State, id: Id): State
    requires id in s.accounts ==> s.accounts[id] < |s.instances|
  {
    if id in s.accounts then
      var k := s.accounts[id];
      s.(instances := s.instances[k := s.instances[k].(stopping := true)])
    else s
  }

  /** The last section of `StopContext`, after the instance was seen done. */
  function AfterRemove(s: State, k: nat): State
    requires k < |s.instances|
  {
    var id := s.instances[k].id;
    if id in s.accounts && s.accounts[id] == k then s.(accounts := s.accounts - {id}) else s
  }

  class Manager {
    var accounts: map<Id, nat>
    var fenced: set<Id>
    var stoppingAll: bool
    var instances: seq<Instance>

    function Contents(): State
      reads this
    {
      State(accounts, fenced, stoppingAll, instances)
    }

    constructor ()
      ensures Contents() == EMPTY
    {
      accounts, fenced, stoppingAll, instances := map[], {}, false, [];
    }

    method Start(id: Id) returns (r: StartResult)
      requires Wired(Contents())
      modifies this
      ensures r == StartOutcome(old(Contents()), id) && Contents() == AfterStart(old(Contents()), id)
      ensures Wired(Contents())
      ensures r.Started? ==>
                && !old(stoppingAll) && id !in old(fenced)
                && (id in old(accounts) ==> old(instances)[old(accounts)[id]].done && !old(instances)[old(accounts)[id]].stopping)
      // it starts exactly if nothing is being stopped and no unfinished instance is registered
      ensures r.Started? <==>
                && !old(stoppingAll) && id !in old(fenced)
                && (id in old(accounts) ==> old(instances)[old(accounts)[id]].done && !old(instances)[old(accounts)[id]].stopping)
      ensures r.AlreadyRunning? ==>
                id in old(accounts) && !old(instances)[old(accounts)[id]].done && !old(instances)[old(accounts)[id]].stopping
      ensures r.ManagerStopping? <==> old(stoppingAll)
      ensures r.Started? ==>
                && r.instance == |old(instances)| && accounts == old(accounts)[id := r.instance]
                && instances == old(instances) + [Instance(id, true, false, false)]
      ensures !r.Started? ==> accounts == old(accounts) && instances == old(instances)
      ensures fenced == old(fenced) && stoppingAll == old(stoppingAll)
    {
      ghost var before := Contents();
      if stoppingAll { return ManagerStopping; }
      if id in fenced { return AccountStopping; }
      if id in accounts {
        var k := accounts[id];
        if instances[k].stopping { return AccountStopping; }
        if !instances[k].done { return AlreadyRunning; }
        accounts := accounts - {id};
      }
      r := Started(|instances|);
      accounts := accounts[id := |instances|];
      instances := instances + [Instance(id, true, false, false)];
      assert accounts == before.accounts[id := |before.instances|];
    }

    method BeginStopping(id: Id) returns (ok: bool)
      modifies this
      ensures ok <==> id !in old(fenced)
      ensures Contents() == old(Contents()).(fenced := old(fenced) + {id})
    {
      if id in fenced {
        assert fenced + {id} == fenced;
        return false;
      }
      fenced := fenced + {id};
      ok := true;
    }

    method EndStopping(id: Id)
      modifies this
      ensures Contents() == old(Contents()).(fenced := old(fenced) - {id})
    {
      fenced := fenced - {id};
    }

    method MarkStopping(id: Id) returns (instance: Option<nat>)
      requires Wired(Contents())
      modifies this
      ensures Contents() == AfterMark(old(Contents()), id) && Wired(Contents())
      ensures instance == if id in old(accounts) then Some(old(accounts)[id]) else None
      // the registered instance is being stopped from now on, and nothing else changes
      ensures accounts == old(accounts) && fenced == old(fenced) && stoppingAll == old(stoppingAll)
      ensures |instances| == |old(instances)|
      ensures forall k :: 0 <= k < |instances| ==>
                && (Some(k) == instance ==> instances[k].stopping && instances[k] == old(instances)[k].(stopping := true))
                && (Some(k) != instance ==> instances[k] == old(instances)[k])
    {
      if id !in accounts { return None; }
      var k := accounts[id];
      instances := instances[k := instances[k].(stopping := true)];
      instance := Some(k);
    }

    method Remove(k: nat)
      requires Wired(Contents()) && k < |instances| && instances[k].done
      modifies this
      ensures Contents() == AfterRemove(old(Contents()), k) && Wired(Contents())
      // the account is not registered any more, unless another instance took its place
      ensures forall id :: id in accounts <==> id in old(accounts) && old(accounts)[id] != k
      ensures forall id :: id in accounts ==> accounts[id] == old(accounts)[id]
      ensures instances == old(instances) && fenced == old(fenced) && stoppingAll == old(stoppingAll)
    {
      var id := instances[k].id;
      if id in accounts && accounts[id] == k { accounts := accounts - {id}; }
    }

    /** The first section of `StopAllContext`: the accounts in the order the map iteration gives. */
    method BeginStopAll() returns (ids: seq<Id>)
      modifies this
      ensures Contents() == old(Contents()).(stoppingAll := true)
      ensures (forall id :: id in ids <==> id in accounts) && forall i, j :: 0 <= i < j < |ids| ==> ids[i] != ids[j]
    {
      stoppingAll := true;
      ids := [];
      var rest := accounts.Keys;
      while rest != {}
        invariant stoppingAll && accounts == old(accounts) && fenced == old(fenced) && instances == old(instances)
        invariant forall id :: id in accounts <==> id in ids || id in rest
        invariant forall id :: id in ids ==> id !in rest
        invariant forall i, j :: 0 <= i < j < |ids| ==> ids[i] != ids[j]
        decreases |rest|
      {
        var id :| id in rest;
        ids, rest := ids + [id], rest - {id};
      }
    }

    method EndStopAll()
      modifies this
      ensures Contents() == old(Contents()).(stoppingAll := old(stoppingAll) && old(accounts) != map[])
    {
      if accounts == map[] { stoppingAll := false; }
    }
  }

  // ---- threads ----

  /** A thread stopping one account, or all of them: `snapshot` pairs the accounts with the instances
    * registered at its start, and `epoch` counts the full stops that had been lifted by then.
    */
  datatype Thread =
    | Idle
    | Waiting(instance: nat)
    | All(ids: seq<Id>, snapshot: seq<nat>, next: nat, waiting: Option<nat>, epoch: nat)
    | AllStopped(snapshot: seq<nat>, epoch: nat, registered: bool, lifted: nat)
    | Gone

  datatype System = System(state: State, threads: seq<Thread>, lifted: nat)

  datatype Action =
    | Start(id: Id)
    | Fence(id: Id)
    | Unfence(id: Id)
    | RunReturns(k: nat)
    | CloseDone(k: nat)
    | StopMark(t: nat, id: Id)
    | StopRemove(t: nat)
    | AllBegin(t: nat, ids: seq<Id>)
    | AllMark(t: nat)
    | AllRemove(t: nat)
    | GiveUp(t: nat)
    | AllEnd(t: nat)

  ghost predicate Step(a: System, action: Action, b: System)
    requires Wired(a.state)
  {
    var s := a.state;
    match action
    case Start(id) => b == a.(state := AfterStart(s, id))
    case Fence(id) => b == a.(state := s.(fenced := s.fenced + {id}))
    case Unfence(id) => b == a.(state := s.(fenced := s.fenced - {id}))
    case RunReturns(k) =>
      k < |s.instances| && s.instances[k].live
      && b == a.(state := s.(instances := s.instances[k := s.instances[k].(live := false)]))
    case CloseDone(k) =>
      k < |s.instances| && !s.instances[k].live
      && b == a.(state := s.(instances := s.instances[k := s.instances[k].(done := true)]))
    case StopMark(t, id) =>
      t < |a.threads| && a.threads[t].Idle?
      && b == a.(state := AfterMark(s, id),
                 threads := a.threads[t := if id in s.accounts then Waiting(s.accounts[id]) else Gone])
    case StopRemove(t) =>
      t < |a.threads| && a.threads[t].Waiting?
      && var k := a.threads[t].instance;
         k < |s.instances| && s.instances[k].done
         && b == a.(state := AfterRemove(s, k), threads := a.threads[t := Gone])
    case AllBegin(t, ids) =>
      t < |a.threads| && a.threads[t].Idle?
      && (forall id :: id in ids <==> id in s.accounts) && (forall i, j :: 0 <= i < j < |ids| ==> ids[i] != ids[j])
      && b == a.(state := s.(stoppingAll := true),
                 threads := a.threads[t := All(ids, Registered(s, ids), 0, None, a.lifted)])
    case AllMark(t) =>
      t < |a.threads| && a.threads[t].All? && a.threads[t].waiting.None? && a.threads[t].next < |a.threads[t].ids|
      && var th := a.threads[t];
         var id := th.ids[th.next];
         b == a.(state := AfterMark(s, id),
                 threads := a.threads[t := if id in s.accounts then th.(waiting := Some(s.accounts[id])) else th.(next := th.next + 1)])
    case AllRemove(t) =>
      t < |a.threads| && a.threads[t].All? && a.threads[t].waiting.Some?
      && var th := a.threads[t];
         var k := th.waiting.value;
         k < |s.instances| && s.instances[k].done
         && b == a.(state := AfterRemove(s, k), threads := a.threads[t := th.(waiting := None, next := th.next + 1)])
    case GiveUp(t) =>
      t < |a.threads| && (a.threads[t].Waiting? || a.threads[t].All?) && b == a.(threads := a.threads[t := Gone])
    case AllEnd(t) =>
      t < |a.threads| && a.threads[t].All? && a.threads[t].waiting.None? && a.threads[t].next == |a.threads[t].ids|
      && var th := a.threads[t];
         b == a.(state := s.(stoppingAll := s.stoppingAll && s.accounts != map[]),
                 threads := a.threads[t := AllStopped(th.snapshot, th.epoch, s.accounts != map[], a.lifted)],
                 lifted := a.lifted + if s.stoppingAll && s.accounts == map[] then 1 else 0)
  }

  function Registered(s: State, ids: seq<Id>): (r: seq<nat>)
    requires forall id :: id in ids ==> id in s.accounts
    ensures |r| == |ids| && forall i :: 0 <= i < |ids| ==> r[i] == s.accounts[ids[i]]
  {
    seq(|ids|, i requires 0 <= i < |ids| => s.accounts[ids[i]])
  }

  // ---- the invariant ----

  /** The account is still to be stopped by this full stop. */
  ghost predicate StillToStop(th: Thread, id: Id)
    requires th.All?
  {
    exists i :: th.next <= i < |th.ids| && th.ids[i] == id
  }

  ghost predicate ThreadOk(s: State, lifted: nat, th: Thread) {
    match th
    case Idle => true
    case Gone => true
    case Waiting(k) => k < |s.instances|
    case AllStopped(snapshot, epoch, registered, atEnd) =>
      && epoch <= atEnd <= lifted && (atEnd == epoch ==> !registered)
      && forall i :: 0 <= i < |snapshot| ==> snapshot[i] < |s.instances| && s.instances[snapshot[i]].done
    case All(ids, snapshot, next, waiting, epoch) =>
      && |snapshot| == |ids| && next <= |ids| && epoch <= lifted
      && (forall i :: 0 <= i < |ids| ==> snapshot[i] < |s.instances| && s.instances[snapshot[i]].id == ids[i])
      && (forall i :: 0 <= i < next ==> s.instances[snapshot[i]].done)
      && (waiting.Some? ==> next < |ids| && waiting.value < |s.instances| && s.instances[waiting.value].id == ids[next])
      && (waiting.Some? ==> waiting.value == snapshot[next] || s.instances[snapshot[next]].done)
      // as long as no full stop was lifted, nothing can be registered any more
      && (lifted == epoch ==> s.stoppingAll && forall id :: id in s.accounts ==> StillToStop(th, id))
      && (lifted == epoch && waiting.Some? && ids[next] in s.accounts ==> s.accounts[ids[next]] == waiting.value)
      && (forall i, j :: 0 <= i < j < |ids| ==> ids[i] != ids[j])
  }

  ghost predicate Invariant(y: System) {
    Wired(y.state) && forall t :: 0 <= t < |y.threads| ==> ThreadOk(y.state, y.lifted, y.threads[t])
  }

  /** Instances keep their account, and done stays done; under a full stop nothing is registered. */
  ghost predicate Evolves(s: State, lifted: nat, s': State, lifted': nat) {
    && |s.instances| <= |s'.instances| && lifted <= lifted'
    && (forall k :: 0 <= k < |s.instances| ==>
          s'.instances[k].id == s.instances[k].id && (s.instances[k].done ==> s'.instances[k].done))
    && (lifted' == lifted && s.stoppingAll ==>
          s'.stoppingAll && forall id :: id in s'.accounts ==> id in s.accounts && s'.accounts[id] == s.accounts[id])
  }

  lemma ThreadStays(s: State, lifted: nat, s': State, lifted': nat, th: Thread)
    requires ThreadOk(s, lifted, th) && Evolves(s, lifted, s', lifted')
    ensures ThreadOk(s', lifted', th)
  {}

  lemma OthersStay(a: System, t: nat, b: System)
    requires Invariant(a) && Wired(b.state) && Evolves(a.state, a.lifted, b.state, b.lifted)
    requires |a.threads| == |b.threads| && forall i :: 0 <= i < |a.threads| && i != t ==> b.threads[i] == a.threads[i]
    requires t < |b.threads| ==> ThreadOk(b.state, b.lifted, b.threads[t])
    ensures Invariant(b)
  {
    hide ThreadOk, Evolves, Wired;
    forall i | 0 <= i < |b.threads| ensures ThreadOk(b.state, b.lifted, b.threads[i]) {
      if i != t { ThreadStays(a.state, a.lifted, b.state, b.lifted, a.threads[i]); }
    }
  }

  lemma StartEvolves(s: State, id: Id, lifted: nat)
    requires Wired(s)
    ensures Wired(AfterStart(s, id)) && Evolves(s, lifted, AfterStart(s, id), lifted)
  {}

  lemma MarkEvolves(s: State, id: Id, lifted: nat)
    requires Wired(s)
    ensures Wired(AfterMark(s, id)) && Evolves(s, lifted, AfterMark(s, id), lifted)
  {}

  lemma RemoveEvolves(s: State, k: nat, lifted: nat)
    requires Wired(s) && k < |s.instances| && s.instances[k].done
    ensures Wired(AfterRemove(s, k)) && Evolves(s, lifted, AfterRemove(s, k), lifted)
  {}

  lemma InstanceEvolves(s: State, k: nat, i: Instance, lifted: nat)
    requires Wired(s) && k < |s.instances| && i.id == s.instances[k].id
    requires !i.live && (s.instances[k].done ==> i.done)
    ensures var s' := s.(instances := s.instances[k := i]); Wired(s') && Evolves(s, lifted, s', lifted)
  {}

  lemma FlagsEvolve(s: State, fenced: set<Id>, stoppingAll: bool, lifted: nat, lifted': nat)
    requires Wired(s) && lifted <= lifted' && (lifted' == lifted && s.stoppingAll ==> stoppingAll)
    ensures var s' := s.(fenced := fenced, stoppingAll := stoppingAll); Wired(s') && Evolves(s, lifted, s', lifted')
  {}

  /** The state part of every step. */
  lemma StateEvolves(a: System, action: Action, b: System)
    requires Wired(a.state) && Step(a, action, b)
    ensures Wired(b.state) && Evolves(a.state, a.lifted, b.state, b.lifted)
  {
    hide Wired, Evolves, AfterStart, AfterMark, AfterRemove;
    var s := a.state;
    match action
    case Start(id) => StartEvolves(s, id, a.lifted);
    case RunReturns(k) => InstanceEvolves(s, k, b.state.instances[k], a.lifted);
    case CloseDone(k) => InstanceEvolves(s, k, b.state.instances[k], a.lifted);
    case StopMark(t, id) => MarkEvolves(s, id, a.lifted);
    case AllMark(t) => MarkEvolves(s, a.threads[t].ids[a.threads[t].next], a.lifted);
    case StopRemove(t) => RemoveEvolves(s, a.threads[t].instance, a.lifted);
    case AllRemove(t) => RemoveEvolves(s, a.threads[t].waiting.value, a.lifted);
    case _ => FlagsEvolve(s, b.state.fenced, b.state.stoppingAll, a.lifted, b.lifted);
  }

  lemma AllBeginOk(a: System, t: nat, ids: seq<Id>, b: System)
    requires Invariant(a) && Step(a, AllBegin(t, ids), b)
    ensures ThreadOk(b.state, b.lifted, b.threads[t])
  {
    forall id | id in b.state.accounts ensures StillToStop(b.threads[t], id) {
      assert id in ids;
    }
  }

  lemma AllMarkOk(a: System, t: nat, b: System)
    requires Invariant(a) && Step(a, AllMark(t), b)
    ensures ThreadOk(b.state, b.lifted, b.threads[t])
  {
    var th := a.threads[t];
    assert ThreadOk(a.state, a.lifted, th);
    var id, k := th.ids[th.next], th.snapshot[th.next];
    assert !a.state.instances[k].done ==> id in a.state.accounts && a.state.accounts[id] == k;
    if b.lifted == th.epoch && id !in a.state.accounts {
      forall other | other in b.state.accounts ensures StillToStop(b.threads[t], other) {
        var i :| th.next <= i < |th.ids| && th.ids[i] == other;
        assert i != th.next;
      }
    }
    if b.lifted == th.epoch && id in a.state.accounts {
      forall other | other in b.state.accounts ensures StillToStop(b.threads[t], other) {
        var i :| th.next <= i < |th.ids| && th.ids[i] == other;
        assert b.threads[t].ids[i] == other;
      }
    }
  }

  lemma AllRemoveOk(a: System, t: nat, b: System)
    requires Invariant(a) && Step(a, AllRemove(t), b)
    ensures ThreadOk(b.state, b.lifted, b.threads[t])
  {
    var th := a.threads[t];
    assert ThreadOk(a.state, a.lifted, th);
    var id := th.ids[th.next];
    if b.lifted == th.epoch {
      assert id !in b.state.accounts;
      forall other | other in b.state.accounts ensures StillToStop(b.threads[t], other) {
        var i :| th.next <= i < |th.ids| && th.ids[i] == other;
        assert i != th.next;
      }
    }
  }

  lemma AllEndOk(a: System, t: nat, b: System)
    requires Invariant(a) && Step(a, AllEnd(t), b)
    ensures ThreadOk(b.state, b.lifted, b.threads[t])
  {
    var th := a.threads[t];
    assert ThreadOk(a.state, a.lifted, th);
    assert a.lifted == th.epoch ==> forall id :: id in a.state.accounts ==> !StillToStop(th, id);
  }

  lemma StopMarkOk(a: System, t: nat, id: Id, b: System)
    requires Invariant(a) && Step(a, StopMark(t, id), b)
    ensures ThreadOk(b.state, b.lifted, b.threads[t])
  {}

  lemma GoneOk(y: System, t: nat)
    requires t < |y.threads| && y.threads[t].Gone?
    ensures ThreadOk(y.state, y.lifted, y.threads[t])
  {}

  /** The thread that a step moves; steps without one count as moving a thread that does not exist. */
  function Mover(a: System, action: Action): nat {
    match action
    case StopMark(t, _) => t
    case StopRemove(t) => t
    case AllBegin(t, _) => t
    case AllMark(t) => t
    case AllRemove(t) => t
    case GiveUp(t) => t
    case AllEnd(t) => t
    case _ => |a.threads|
  }

  lemma StepMovesOne(a: System, action: Action, b: System)
    requires Wired(a.state) && Step(a, action, b)
    ensures |b.threads| == |a.threads|
    ensures forall i :: 0 <= i < |a.threads| && i != Mover(a, action) ==> b.threads[i] == a.threads[i]
  {
    hide Wired, AfterStart, AfterMark, AfterRemove;
  }

  lemma MoverOk(a: System, action: Action, b: System)
    requires Invariant(a) && Step(a, action, b) && Mover(a, action) < |b.threads|
    ensures ThreadOk(b.state, b.lifted, b.threads[Mover(a, action)])
  {
    hide Wired, ThreadOk, AfterStart, AfterMark, AfterRemove;
    match action
    case StopMark(t, id) => StopMarkOk(a, t, id, b);
    case StopRemove(t) => GoneOk(b, t);
    case AllBegin(t, ids) => AllBeginOk(a, t, ids, b);
    case AllMark(t) => AllMarkOk(a, t, b);
    case AllRemove(t) => AllRemoveOk(a, t, b);
    case GiveUp(t) => GoneOk(b, t);
    case AllEnd(t) => AllEndOk(a, t, b);
    case _ =>
  }

  lemma StepKeeps(a: System, action: Action, b: System)
    requires Invariant(a) && Step(a, action, b)
    ensures Invariant(b)
  {
    hide Step, Evolves, Wired, ThreadOk;
    StateEvolves(a, action, b);
    StepMovesOne(a, action, b);
    if Mover(a, action) < |b.threads| { MoverOk(a, action, b); }
    OthersStay(a, Mover(a, action), b);
  }

  // ---- runs ----

  ghost predicate Initial(y: System) {
    y.state == EMPTY && y.lifted == 0 && forall t :: 0 <= t < |y.threads| ==> y.threads[t].Idle?
  }

  ghost predicate Run(systems: seq<System>, actions: seq<Action>) {
    && |systems| == |actions| + 1 && Initial(systems[0])
    && forall i :: 0 <= i < |actions| ==> Wired(systems[i].state) && Step(systems[i], actions[i], systems[i + 1])
  }

  lemma {:induction false} RunKeeps(systems: seq<System>, actions: seq<Action>, i: nat)
    requires Run(systems, actions) && i < |systems|
    ensures Invariant(systems[i])
  {
    hide Step, Wired, ThreadOk;
    if i > 0 {
      RunKeeps(systems, actions, i - 1);
      StepKeeps(systems[i - 1], actions[i - 1], systems[i]);
    } else {
      InitialOk(systems[0]);
    }
  }

  lemma InitialOk(y: System)
    requires Initial(y)
    ensures Invariant(y)
  {}

  /** In every run, an account has at most one live goroutine, and a live one is registered. */
  lemma OneGoroutinePerAccount(systems: seq<System>, actions: seq<Action>, i: nat, k: nat, m: nat)
    requires Run(systems, actions) && i < |systems|
    requires k < |systems[i].state.instances| && m < |systems[i].state.instances|
    requires systems[i].state.instances[k].live && systems[i].state.instances[m].live
    requires systems[i].state.instances[k].id == systems[i].state.instances[m].id
    ensures k == m
    ensures systems[i].state.instances[k].id in systems[i].state.accounts
    ensures systems[i].state.accounts[systems[i].state.instances[k].id] == k
  {
    hide Step, ThreadOk;
    RunKeeps(systems, actions, i);
  }

  /** In every run, a registration happens only when the account is not fenced, no full stop is active and
    * the instance it replaces, if any, is done and was not being stopped.
    */
  lemma RegistrationIsAllowed(systems: seq<System>, actions: seq<Action>, i: nat)
    requires Run(systems, actions) && i < |actions|
    requires |systems[i].state.instances| < |systems[i + 1].state.instances|
    ensures var s := systems[i].state;
            && actions[i].Start? && !s.stoppingAll && actions[i].id !in s.fenced
            && (actions[i].id in s.accounts ==>
                  s.instances[s.accounts[actions[i].id]].done && !s.instances[s.accounts[actions[i].id]].stopping)
            && systems[i + 1].state.accounts == s.accounts[actions[i].id := |s.instances|]
  {
    RunKeeps(systems, actions, i);
    assert Step(systems[i], actions[i], systems[i + 1]);
  }

  /** In every run, a start registers a new live instance exactly if the account is not fenced, no full stop is
    * active and the registered instance, if any, is done and is not being stopped; otherwise nothing
    * changes.
    */
  lemma StartsExactly(systems: seq<System>, actions: seq<Action>, i: nat, id: Id)
    requires Run(systems, actions) && i < |actions| && actions[i] == Start(id)
    ensures var s, s' := systems[i].state, systems[i + 1].state;
            if !s.stoppingAll && id !in s.fenced
               && (id in s.accounts ==> s.accounts[id] < |s.instances| && s.instances[s.accounts[id]].done && !s.instances[s.accounts[id]].stopping)
            then s'.accounts == s.accounts[id := |s.instances|] && s'.instances == s.instances + [Instance(id, true, false, false)]
            else s' == s
  {
    assert Step(systems[i], actions[i], systems[i + 1]);
  }

  predicate BeingStopped(s: State, id: Id, k: nat) {
    id in s.accounts && s.accounts[id] == k && k < |s.instances| && s.instances[k].stopping && s.instances[k].id == id
  }

  lemma StopStep(a: System, action: Action, b: System, id: Id, k: nat)
    requires Wired(a.state) && Step(a, action, b) && BeingStopped(a.state, id, k)
    requires !action.StopRemove? && !action.AllRemove?
    ensures BeingStopped(b.state, id, k)
  {
    hide StartOutcome;
    if action.Start? { StartKeepsStopping(a.state, action.id, id, k); }
  }

  lemma StartKeepsStopping(s: State, started: Id, id: Id, k: nat)
    requires Wired(s) && BeingStopped(s, id, k)
    ensures BeingStopped(AfterStart(s, started), id, k)
  {}

  /** In every run, an account that is marked to be stopped stays registered as it is, and cannot be started,
    * until some stop removes an instance.
    */
  lemma {:induction false} StopHolds(systems: seq<System>, actions: seq<Action>, i: nat, j: nat, t: nat, id: Id)
    requires Run(systems, actions) && i < j < |systems| && actions[i] == StopMark(t, id) && id in systems[i].state.accounts
    requires forall n :: i < n < j ==> !actions[n].StopRemove? && !actions[n].AllRemove?
    ensures BeingStopped(systems[j].state, id, systems[i].state.accounts[id])
    decreases j
  {
    hide BeingStopped, StartOutcome;
    RunKeeps(systems, actions, j - 1);
    assert Step(systems[j - 1], actions[j - 1], systems[j]);
    if i + 1 < j {
      StopHolds(systems, actions, i, j - 1, t, id);
      StopStep(systems[j - 1], actions[j - 1], systems[j], id, systems[i].state.accounts[id]);
    } else {
      MarkMeans(systems[i].state, id);
    }
  }

  lemma MarkMeans(s: State, id: Id)
    requires Wired(s) && id in s.accounts
    ensures BeingStopped(AfterMark(s, id), id, s.accounts[id])
  {}

  /** The account is fenced and not registered. */
  predicate FencedOff(s: State, id: Id) {
    id in s.fenced && id !in s.accounts
  }

  lemma FenceStep(a: System, action: Action, b: System, id: Id)
    requires Wired(a.state) && Step(a, action, b) && FencedOff(a.state, id) && action != Unfence(id)
    ensures FencedOff(b.state, id)
  {}

  /** In every run, a fenced account that is not registered stays unregistered, without a live or unfinished
    * goroutine, until the fence is lifted.
    */
  lemma {:induction false} FenceHolds(systems: seq<System>, actions: seq<Action>, i: nat, j: nat, id: Id)
    requires Run(systems, actions) && i <= j < |systems| && FencedOff(systems[i].state, id)
    requires forall k :: i <= k < j ==> actions[k] != Unfence(id)
    ensures FencedOff(systems[j].state, id)
    ensures forall k :: 0 <= k < |systems[j].state.instances| && systems[j].state.instances[k].id == id ==>
              systems[j].state.instances[k].done && !systems[j].state.instances[k].live
    decreases j
  {
    hide Step, ThreadOk, FencedOff;
    RunKeeps(systems, actions, j);
    if i < j {
      FenceHolds(systems, actions, i, j - 1, id);
      FenceStep(systems[j - 1], actions[j - 1], systems[j], id);
    }
    FencedIsDone(systems[j].state, id);
  }

  lemma FencedIsDone(s: State, id: Id)
    requires Wired(s) && FencedOff(s, id)
    ensures forall k :: 0 <= k < |s.instances| && s.instances[k].id == id ==> s.instances[k].done && !s.instances[k].live
  {}

  /** When a full stop returns without error, every instance that was registered when it began is done;
    * and if no other full stop was lifted meanwhile, nothing is registered.
    */
  lemma FullStopStopsAll(systems: seq<System>, actions: seq<Action>, i: nat, t: nat)
    requires Run(systems, actions) && i < |actions| && actions[i] == AllEnd(t)
    ensures t < |systems[i].threads| && systems[i].threads[t].All?
    ensures var th, s := systems[i].threads[t], systems[i].state;
            && (forall j :: 0 <= j < |th.snapshot| ==> th.snapshot[j] < |s.instances| && s.instances[th.snapshot[j]].done)
            && (systems[i].lifted == th.epoch ==> s.accounts == map[] && !systems[i + 1].state.stoppingAll)
  {
    hide Wired;
    RunKeeps(systems, actions, i);
    assert Step(systems[i], actions[i], systems[i + 1]);
    assert ThreadOk(systems[i].state, systems[i].lifted, systems[i].threads[t]);
    AllEndOk(systems[i], t, systems[i + 1]);
  }

  // ---- two full stops at once ----

  /** Two full stops begin while nothing is registered; the second one ends and lifts the flag, an account
    * is started, and then the first one ends.
    */
  ghost function TwoStops(): seq<System> {
    var begun := All([], [], 0, None, 0);
    var stopping := EMPTY.(stoppingAll := true);
    var started := State(map["a" := 0], {}, false, [Instance("a", true, false, false)]);
    [System(EMPTY, [Idle, Idle], 0),
     System(stopping, [begun, Idle], 0),
     System(stopping, [begun, begun], 0),
     System(EMPTY, [begun, AllStopped([], 0, false, 0)], 1),
     System(started, [begun, AllStopped([], 0, false, 0)], 1),
     System(started, [AllStopped([], 0, true, 1), AllStopped([], 0, false, 0)], 1)]
  }

  ghost function TwoStopsActions(): seq<Action> {
    [AllBegin(0, []), AllBegin(1, []), AllEnd(1), Start("a"), AllEnd(0)]
  }

  lemma TwoStopsStep(i: nat)
    requires i < 5
    ensures Wired(TwoStops()[i].state) && Step(TwoStops()[i], TwoStopsActions()[i], TwoStops()[i + 1])
  {
    var s := TwoStops()[i].state;
    assert i < 2 ==> Registered(s, []) == [];
    assert i == 0 ==> TwoStops()[i].threads[0 := All([], [], 0, None, 0)] == TwoStops()[1].threads;
    assert i == 1 ==> TwoStops()[i].threads[1 := All([], [], 0, None, 0)] == TwoStops()[2].threads;
    assert i == 2 ==> TwoStops()[i].threads[1 := AllStopped([], 0, false, 0)] == TwoStops()[3].threads;
    assert i == 4 ==> TwoStops()[i].threads[0 := AllStopped([], 0, true, 1)] == TwoStops()[5].threads;
    assert i == 4 ==> "a" in s.accounts && s.accounts != map[];
    assert i == 3 ==> AfterStart(s, "a") == TwoStops()[4].state;
  }

  /** With a second full stop the promise fails: the first one returns although an account is registered. */
  lemma ConcurrentFullStopsMissAccounts()
    ensures Run(TwoStops(), TwoStopsActions()) && TwoStopsActions()[4] == AllEnd(0)
    ensures "a" in TwoStops()[5].state.accounts && TwoStops()[5].state.instances[0].live
  {
    hide Step, Wired;
    forall i | 0 <= i < |TwoStopsActions()|
      ensures Wired(TwoStops()[i].state) && Step(TwoStops()[i], TwoStopsActions()[i], TwoStops()[i + 1])
    {
      TwoStopsStep(i);
    }
  }
}
