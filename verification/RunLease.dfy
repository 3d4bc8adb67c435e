/** The lease that an executor holds on its run while it performs one action. */
module RunLease {
  import opened Options
  import opened Storage
  import opened RunTable

  const DURATION: int := 300

  datatype Reply = Renewed | LeaseLost | IoError

  datatype Cause = Stopped | Lost | StoreFailed

  /** The last statement was a renewal that affected nothing. */
  ghost predicate Refused(before: seq<Event>, events: seq<Event>, attempt: int, expiry: int) {
    && before < events && events[|events| - 1].op == RenewExecuting(attempt, expiry)
    && !Effective(events[|events| - 1])
  }

  predicate MayExtend(row: Row, now: int, attempt: int, expiry: int) {
    row.status == Running && row.started && row.attempt == attempt && now <= row.lease && now < expiry
  }

  /** The event found generation `attempt` executing an action under an unexpired lease, and changed nothing
    * but the lease, which is now the later one of the old and the new expiry.
    */
  predicate Extended(e: Event, attempt: int, expiry: int) {
    && MayExtend(e.before, e.now, attempt, expiry)
    && e.after == e.before.(lease := if e.before.lease < expiry then expiry else e.before.lease)
  }

  /** The database: its row, its clock, and what other connections do before the n-th call of ours. */
  class Table {
    var row: Row
    var now: int
    var events: seq<Event>
    var turn: nat
    const others: nat -> seq<(Op, nat)>
    const io: nat -> Write

    ghost predicate Valid()
      reads this
    {
      && 0 < now && History(events)
      && (events != [] ==> events[|events| - 1].after == row && events[|events| - 1].now <= now)
    }

    constructor (row: Row, now: int, others: nat -> seq<(Op, nat)>, io: nat -> Write)
      requires 0 < now
      ensures Valid() && this.row == row && events == []
    {
      this.row, this.now, events, turn := row, now, [], 0;
      this.others, this.io := others, io;
    }

    method Execute(op: Op)
      requires Valid() && Sane(op, now)
      modifies this
      ensures Valid() && now == old(now) && turn == old(turn) && row == Apply(old(row), op, now)
      ensures events == old(events) + [Event(op, now, old(row), row)]
    {
      hide Apply, Sane;
      var before := row;
      row := Apply(row, op, now);
      events := events + [Event(op, now, before, row)];
    }

    /** Time passes and other connections issue their statements. */
    method Interfere()
      requires Valid()
      modifies this
      ensures Valid() && old(now) <= now && old(events) <= events && old(turn) < turn
      ensures others(old(turn)) == [] ==> now == old(now) && events == old(events) && row == old(row) && turn == old(turn) + 1
    {
      hide Apply, Sane;
      var steps := others(turn);
      for i := 0 to |steps|
        invariant Valid() && old(now) <= now && old(events) <= events && turn == old(turn)
        invariant i == 0 ==> now == old(now) && events == old(events) && row == old(row)
      {
        now := now + steps[i].1;
        if Sane(steps[i].0, now) { Execute(steps[i].0); }
      }
      turn := turn + 1;
    }

    /** `RenewExecutingRunLease`. */
    method Renew(attempt: int, expiry: int) returns (reply: Reply)
      requires Valid()
      modifies this
      ensures Valid() && old(now) <= now && old(events) <= events
      ensures reply.Renewed? ==>
                && old(events) < events && CheckPassed(events[|events| - 1], attempt)
                && events[|events| - 1].op.expiry == expiry
      ensures reply.LeaseLost? ==> expiry <= now || Refused(old(events), events, attempt, expiry)
      // a renewed run was executing its action under a lease that had not run out, and only the lease changes
      ensures reply.Renewed? ==> Extended(events[|events| - 1], attempt, expiry)
      // an executing run is renewed if nobody interferes
      ensures others(old(turn)) == [] && io(old(turn) + 1).Stored? && MayExtend(old(row), old(now), attempt, expiry) ==> reply.Renewed?
      ensures reply.IoError? ==> exists n :: old(turn) <= n <= turn && !io(n).Stored?
    {
      Interfere();
      var outcome := io(turn);
      if outcome.NotStored? { return IoError; }
      if expiry <= now { return LeaseLost; }
      var op := RenewExecuting(attempt, expiry);
      var affected := Affects(row, op, now);
      Execute(op);
      if outcome.Unreported? { return IoError; }
      reply := if affected then Renewed else LeaseLost;
    }
  }

  /** `runExecutionLease`: once it has a cause, it never grants another step. */
  class RunExecutionLease {
    const table: Table
    const attempt: int
    var cause: Option<Cause>

    constructor (table: Table, attempt: int)
      ensures this.table == table && this.attempt == attempt && cause.None?
    {
      this.table, this.attempt, cause := table, attempt, None;
    }

    /** `check`, from the heartbeat or before a side effect; the lock makes it one step. */
    method Check() returns (ok: bool)
      requires table.Valid()
      modifies this, table
      ensures table.Valid() && old(table.events) <= table.events
      ensures ok <==> cause.None?
      ensures old(cause).Some? ==> cause == old(cause) && table.events == old(table.events)
      ensures ok ==>
                && old(table.events) < table.events
                && CheckPassed(table.events[|table.events| - 1], attempt)
                && old(table.now) + DURATION <= table.events[|table.events| - 1].after.lease
                && Extended(table.events[|table.events| - 1], attempt, old(table.now) + 300)
      ensures old(cause).None? && table.others(old(table.turn)) == [] && table.io(old(table.turn) + 1).Stored?
              && MayExtend(old(table.row), old(table.now), attempt, old(table.now) + 300) ==>
                ok
      // a new refusal means that the row refused the renewal, that it came too late, or that storage failed
      ensures !ok && old(cause).None? ==>
                || (cause == Some(Lost) && (old(table.now) + DURATION <= table.now
                      || Refused(old(table.events), table.events, attempt, old(table.now) + DURATION)))
                || (cause == Some(StoreFailed) && exists n :: old(table.turn) <= n <= table.turn && !table.io(n).Stored?)
    {
      if cause.Some? { return false; }
      var reply := table.Renew(attempt, table.now + DURATION);
      ok := reply.Renewed?;
      if !ok { cause := Some(if reply.LeaseLost? then Lost else StoreFailed); }
    }

    /** `stop`, and a cancellation from outside. */
    method Stop()
      modifies this
      ensures cause == if old(cause).Some? then old(cause) else Some(Stopped)
    {
      if cause.None? { cause := Some(Stopped); }
    }

    /** The checks of one action: before each side effect the executor checks, and before each check
      * the heartbeat may have run any number of times and the action may have been cancelled.
      */
    method CheckRepeatedly(steps: nat, heartbeats: nat -> nat, cancelled: nat -> bool) returns (granted: seq<bool>, passed: seq<int>)
      requires table.Valid()
      modifies this, table
      ensures table.Valid() && old(table.events) <= table.events && |granted| == steps == |passed|
      // after one refusal, only refusals
      ensures forall i, j :: 0 <= i < j < steps && !granted[i] ==> !granted[j]
      // every grant is a renewal in the history, in order
      ensures forall i :: 0 <= i < steps && granted[i] ==>
                |old(table.events)| <= passed[i] < |table.events| && CheckPassed(table.events[passed[i]], attempt)
      ensures forall i, j :: 0 <= i < j < steps && granted[i] && granted[j] ==> passed[i] < passed[j]
    {
      hide History, Apply, Affects, CheckPassed;
      granted, passed := [], [];
      for i := 0 to steps
        invariant table.Valid() && old(table.events) <= table.events && |granted| == i == |passed|
        invariant forall n :: 0 <= n < i && !granted[n] ==> cause.Some?
        invariant forall n, m :: 0 <= n < m < i && !granted[n] ==> !granted[m]
        invariant forall n :: 0 <= n < i && granted[n] ==> Granted(table.events, |old(table.events)|, passed[n], attempt)
        invariant forall n, m :: 0 <= n < m < i && granted[n] && granted[m] ==> passed[n] < passed[m]
      {
        Heartbeats(heartbeats(i));
        if cancelled(i) { Stop(); }
        var ok := Check();
        granted, passed := granted + [ok], passed + [|table.events| - 1];
      }
    }

    /** `run`: the heartbeat's checks between two steps. */
    method Heartbeats(n: nat)
      requires table.Valid()
      modifies this, table
      ensures table.Valid() && old(table.events) <= table.events && (old(cause).Some? ==> cause.Some?)
    {
      for beat := 0 to n
        invariant table.Valid() && old(table.events) <= table.events && (old(cause).Some? ==> cause.Some?)
      {
        var ok := Check();
        if !ok { return; }
      }
    }
  }

  ghost predicate Granted(events: seq<Event>, from: nat, p: int, k: int) {
    from <= p < |events| && CheckPassed(events[p], k)
  }

  /** Executors of two generations on one run never hold a check at the same time: a grant of the newer
    * one follows the end of the older one's action or the expiry of its last lease.
    */
  lemma GrantsDoNotOverlap(events: seq<Event>, older: seq<int>, newer: seq<int>, k: int, m: int)
    requires History(events) && k < m
    requires forall i :: 0 <= i < |older| ==> 0 <= older[i] < |events| && CheckPassed(events[older[i]], k)
    requires forall i :: 0 <= i < |newer| ==> 0 <= newer[i] < |events| && CheckPassed(events[newer[i]], m)
    ensures forall i, j :: 0 <= i < |older| && 0 <= j < |newer| ==>
              && older[i] < newer[j]
              && ((exists n :: older[i] < n < newer[j] && EndsAction(events[n].op, k))
                  || events[older[i]].after.lease < events[newer[j]].now)
  {
    hide Apply, Affects;
    forall i, j | 0 <= i < |older| && 0 <= j < |newer|
      ensures older[i] < newer[j]
      ensures (exists n :: older[i] < n < newer[j] && EndsAction(events[n].op, k))
              || events[older[i]].after.lease < events[newer[j]].now
    {
      if newer[j] <= older[i] {
        ChecksAreOrdered(events, newer[j], older[i], m, k);
      }
      NewerGenerationWaits(events, older[i], newer[j], k, m);
    }
  }
}
