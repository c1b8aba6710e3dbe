/**
 * Inserts and removals that nobody disturbs run to their end from any state in
 * which the key's guard is free: the insert is acknowledged with its record in
 * the shared store, the removal leaves neither entry nor record.
 */
module ChallengePlay {
  import opened Wrappers
  import opened ChallengeKey

  /** The events are possible one after the other and lead from `s` to `s'`. */
  ghost predicate Plays(s: State, events: seq<Event>, s': State)
    decreases |events|
  {
    if events == [] then s' == s
    else Enabled(s, events[0]) && Plays(Apply(s, events[0]), events[1..], s')
  }

  lemma {:induction false} Continue(s: State, events: seq<Event>, s': State, more: seq<Event>, s'': State)
    requires Plays(s, events, s') && Plays(s', more, s'')
    ensures Plays(s, events + more, s'')
    decreases |events|
  {
    if events == [] {
      assert events + more == more;
    } else {
      Continue(Apply(s, events[0]), events[1..], s', more, s'');
      assert (events + more)[1..] == events[1..] + more;
    }
  }

  lemma PlayOne(s: State, e: Event)
    requires Enabled(s, e)
    ensures Plays(s, [e], Apply(s, e))
  {
    assert Plays(Apply(s, e), [], Apply(s, e));
  }

  lemma PlayTwo(s: State, e: Event, e': Event)
    requires Enabled(s, e) && Enabled(Apply(s, e), e')
    ensures Plays(s, [e, e'], Apply(Apply(s, e), e'))
  {
    PlayOne(s, e);
    PlayOne(Apply(s, e), e');
    Continue(s, [e], Apply(s, e), [e'], Apply(Apply(s, e), e'));
  }

  // ------------------------------------------------------------------
  // Stages
  // ------------------------------------------------------------------

  /** The state with task `t` at `pc`, the registered lock object and its holder. */
  function Stage(s: State, t: TaskId, task: Task, lock: LockId, holder: Holder): State {
    s.(tasks := s.tasks[t := task], registry := Some(lock), locked := map[lock := holder])
  }

  /** With the guard free, a task that looks its lock up gets its turn. */
  lemma GetsTurn(s: State, t: TaskId) returns (lock: LockId, s': State)
    requires s.locked == map[] && IsAt(s, t, Unlocked)
    ensures Plays(s, [FindLock(t), Acquire(t)], s')
    ensures s' == Stage(s, t, s.tasks[t].(pc := Turn, lock := Some(lock)), lock, ByTask(t)).(nextLock := s'.nextLock)
  {
    var s1 := Apply(s, FindLock(t));
    lock := s1.tasks[t].lock.value;
    PlayTwo(s, FindLock(t), Acquire(t));
    s' := Apply(s1, Acquire(t));
  }

  predicate Unused(s: State, o: OpId) {
    o !in s.ops && forall u :: u in s.tasks && Awaiting(s.tasks[u].pc) ==> s.tasks[u].pc.op != o
  }

  lemma MayLaunch(s: State, t: TaskId, task: Task, lock: LockId, o: OpId)
    requires Unused(s, o) && t !in s.tasks && task.lock == Some(lock) && (task.pc.Publishing? || task.pc.Withdrawing?)
    ensures Enabled(Stage(s, t, task, lock, ByTask(t)), Launch(t, o))
  {
  }

  /** A launch makes the guard the operation's, and the task awaits it. */
  lemma Launches(s: State, t: TaskId, task: Task, lock: LockId, o: OpId, pc: Pc, mutation: Mutation)
    requires Unused(s, o) && t !in s.tasks && task.lock == Some(lock)
    requires
      || (task.pc.Publishing? && pc == AwaitPublish(task.pc.attempt, o) && mutation == Publish(task.owner))
      || (task.pc.Withdrawing? && pc == AwaitWithdraw(o) && mutation == Withdraw(task.pc.before))
    ensures var s0 := Stage(s, t, task, lock, ByTask(t));
      && Enabled(s0, Launch(t, o))
      && Apply(s0, Launch(t, o)) ==
           Stage(s, t, task.(pc := pc), lock, ByOp(o)).(ops := s.ops[o := Op(mutation, lock, false, Running, Some(t))])
  {
    MayLaunch(s, t, task, lock, o);
  }

  /** A mutation that is acknowledged has landed before. */
  lemma Completes(s: State, o: OpId)
    requires o in s.ops && s.ops[o].status == Running && s.ops[o].waiter.Some?
    ensures Plays(s, [Land(o), Finish(o, Acknowledged)],
                  s.(ops := s.ops[o := s.ops[o].(landed := true, status := Acknowledged)],
                     board := Landed(s.board, s.ops[o].mutation)))
  {
    PlayTwo(s, Land(o), Finish(o, Acknowledged));
  }

  // ------------------------------------------------------------------
  // An insert
  // ------------------------------------------------------------------

  /** The board once `owner` is installed. */
  function WithEntry(b: Board, owner: Owner): Board {
    b.(entry := Some(owner), nextOwner := owner + 1, installed := b.installed + {owner},
       cancelled := if b.entry.Some? then b.cancelled + {b.entry.value} else b.cancelled)
  }

  lemma Installs(s: State, t: TaskId, owner: Owner)
    requires t !in s.tasks && owner >= s.board.nextOwner
    ensures Plays(s, [Begin(t, owner), Install(t)],
                  s.(tasks := s.tasks[t := Task(Insert, owner, Unlocked, None)], board := WithEntry(s.board, owner)))
  {
    PlayTwo(s, Begin(t, owner), Install(t));
  }

  lemma LaunchesPublication(s: State, t: TaskId, kind: Kind, owner: Owner, lock: LockId, o: OpId)
    requires kind != Remove && s.board.entry == Some(owner) && Unused(s, o) && t !in s.tasks
    ensures Plays(Stage(s, t, Task(kind, owner, Turn, Some(lock)), lock, ByTask(t)), [Check(t), Launch(t, o)],
                  Stage(s, t, Task(kind, owner, AwaitPublish(1, o), Some(lock)), lock, ByOp(o)).(
                    ops := s.ops[o := Op(Publish(owner), lock, false, Running, Some(t))]))
  {
    var s0 := Stage(s, t, Task(kind, owner, Turn, Some(lock)), lock, ByTask(t));
    var s1 := Stage(s, t, Task(kind, owner, Publishing(1), Some(lock)), lock, ByTask(t));
    assert Apply(s0, Check(t)) == s1;
    Launches(s, t, s1.tasks[t], lock, o, AwaitPublish(1, o), Publish(owner));
    PlayTwo(s0, Check(t), Launch(t, o));
  }

  lemma Reports(s: State, t: TaskId, owner: Owner, lock: LockId, o: OpId, keepalive: TaskId)
    requires s.board.entry == Some(owner) && o !in s.ops && t !in s.tasks && keepalive !in s.tasks && keepalive != t
    ensures Plays(Stage(s, t, Task(Insert, owner, AwaitPublish(1, o), Some(lock)), lock, ByOp(o)).(
                    ops := s.ops[o := Op(Publish(owner), lock, true, Acknowledged, Some(t))]),
                  [Return(t, false), Confirm(t, keepalive)],
                  s.(tasks := s.tasks[keepalive := Task(Keepalive, owner, Idle, Some(lock))], registry := Some(lock),
                     locked := map[], board := s.board.(acked := s.board.acked + {owner})))
  {
    var s0 := Stage(s, t, Task(Insert, owner, AwaitPublish(1, o), Some(lock)), lock, ByOp(o)).(
      ops := s.ops[o := Op(Publish(owner), lock, true, Acknowledged, Some(t))]);
    var s1 := Apply(s0, Return(t, false));
    assert s0.ops - {o} == s.ops;
    assert s1.tasks[t] == Task(Insert, owner, Published, Some(lock));
    assert s1.tasks - {t} == s.tasks;
    PlayTwo(s0, Return(t, false), Confirm(t, keepalive));
  }

  function InsertAlone(t: TaskId, owner: Owner, o: OpId, keepalive: TaskId): seq<Event> {
    [Begin(t, owner), Install(t)] + [FindLock(t), Acquire(t)] + [Check(t), Launch(t, o)]
    + [Land(o), Finish(o, Acknowledged)] + [Return(t, false), Confirm(t, keepalive)]
  }

  lemma InsertGetsTurn(s: State, t: TaskId, owner: Owner) returns (lock: LockId, s': State)
    requires s.locked == map[] && t !in s.tasks && owner >= s.board.nextOwner
    ensures Plays(s, [Begin(t, owner), Install(t)] + [FindLock(t), Acquire(t)],
                  Stage(s', t, Task(Insert, owner, Turn, Some(lock)), lock, ByTask(t)))
    ensures s' == s.(board := WithEntry(s.board, owner), nextLock := s'.nextLock)
  {
    var s1 := s.(tasks := s.tasks[t := Task(Insert, owner, Unlocked, None)], board := WithEntry(s.board, owner));
    Installs(s, t, owner);
    var s2: State;
    lock, s2 := GetsTurn(s1, t);
    s' := s.(board := WithEntry(s.board, owner), nextLock := s2.nextLock);
    var s3 := Stage(s', t, Task(Insert, owner, Turn, Some(lock)), lock, ByTask(t));
    assert s2.tasks == s3.tasks;
    Continue(s, [Begin(t, owner), Install(t)], s1, [FindLock(t), Acquire(t)], s3);
  }

  lemma PublishesAlone(s: State, t: TaskId, kind: Kind, owner: Owner, lock: LockId, o: OpId)
    requires kind != Remove && s.board.entry == Some(owner) && Unused(s, o) && t !in s.tasks
    ensures Plays(Stage(s, t, Task(kind, owner, Turn, Some(lock)), lock, ByTask(t)),
                  [Check(t), Launch(t, o)] + [Land(o), Finish(o, Acknowledged)],
                  Stage(s, t, Task(kind, owner, AwaitPublish(1, o), Some(lock)), lock, ByOp(o)).(
                    ops := s.ops[o := Op(Publish(owner), lock, true, Acknowledged, Some(t))],
                    board := s.board.(record := Some(owner))))
  {
    var s0 := Stage(s, t, Task(kind, owner, Turn, Some(lock)), lock, ByTask(t));
    var s1 := Stage(s, t, Task(kind, owner, AwaitPublish(1, o), Some(lock)), lock, ByOp(o)).(
      ops := s.ops[o := Op(Publish(owner), lock, false, Running, Some(t))]);
    var s2 := Stage(s, t, Task(kind, owner, AwaitPublish(1, o), Some(lock)), lock, ByOp(o)).(
      ops := s.ops[o := Op(Publish(owner), lock, true, Acknowledged, Some(t))], board := s.board.(record := Some(owner)));
    LaunchesPublication(s, t, kind, owner, lock, o);
    Completes(s1, o);
    assert s1.ops[o := s1.ops[o].(landed := true, status := Acknowledged)] == s2.ops;
    Continue(s0, [Check(t), Launch(t, o)], s1, [Land(o), Finish(o, Acknowledged)], s2);
  }

  /**
   * With the guard free, an insert on its own succeeds: its entry and its record are the current
   * ones, it is acknowledged, the replaced installation is cancelled, and a keepalive takes over.
   */
  lemma UndisturbedInsertSucceeds(s: State, t: TaskId, owner: Owner, o: OpId, keepalive: TaskId)
    returns (lock: LockId, s': State)
    requires s.locked == map[] && owner >= s.board.nextOwner && Unused(s, o)
    requires t !in s.tasks && keepalive !in s.tasks && t != keepalive
    ensures Plays(s, InsertAlone(t, owner, o, keepalive), s')
    ensures s'.board.entry == Some(owner) && s'.board.record == Some(owner)
    ensures s'.board == WithEntry(s.board, owner).(record := Some(owner), acked := s.board.acked + {owner})
    ensures s'.tasks == s.tasks[keepalive := Task(Keepalive, owner, Idle, Some(lock))]
    ensures s'.ops == s.ops && s'.locked == map[] && s'.registry == Some(lock)
  {
    var first := [Begin(t, owner), Install(t)] + [FindLock(t), Acquire(t)];
    var second := [Check(t), Launch(t, o)] + [Land(o), Finish(o, Acknowledged)];
    var last := [Return(t, false), Confirm(t, keepalive)];
    var s1: State;
    lock, s1 := InsertGetsTurn(s, t, owner);
    PublishesAlone(s1, t, Insert, owner, lock, o);
    var s2 := s1.(board := s1.board.(record := Some(owner)));
    Reports(s2, t, owner, lock, o, keepalive);
    s' := s2.(tasks := s2.tasks[keepalive := Task(Keepalive, owner, Idle, Some(lock))], registry := Some(lock),
              locked := map[], board := s2.board.(acked := s2.board.acked + {owner}));
    var turn := Stage(s1, t, Task(Insert, owner, Turn, Some(lock)), lock, ByTask(t));
    var done := Stage(s2, t, Task(Insert, owner, AwaitPublish(1, o), Some(lock)), lock, ByOp(o)).(
      ops := s2.ops[o := Op(Publish(owner), lock, true, Acknowledged, Some(t))]);
    Continue(s, first, turn, second, done);
    Continue(s, first + second, done, last, s');
    assert InsertAlone(t, owner, o, keepalive) == first + second + last;
  }

  // ------------------------------------------------------------------
  // A refresh
  // ------------------------------------------------------------------

  lemma RefreshGetsTurn(s: State, t: TaskId, owner: Owner, lock: LockId)
    requires s.locked == map[] && s.registry == Some(lock) && t in s.tasks
    requires s.tasks[t] == Task(Keepalive, owner, Idle, Some(lock))
    ensures Plays(s, [Wake(t), Acquire(t)], Stage(s, t, s.tasks[t].(pc := Turn), lock, ByTask(t)))
  {
    PlayTwo(s, Wake(t), Acquire(t));
  }

  lemma RefreshReturns(s: State, t: TaskId, owner: Owner, lock: LockId, o: OpId)
    requires o !in s.ops
    ensures Plays(Stage(s, t, Task(Keepalive, owner, AwaitPublish(1, o), Some(lock)), lock, ByOp(o)).(
                    ops := s.ops[o := Op(Publish(owner), lock, true, Acknowledged, Some(t))]),
                  [Return(t, false)],
                  Stage(s, t, Task(Keepalive, owner, Refreshed, Some(lock)), lock, ByTask(t)))
  {
    var s0 := Stage(s, t, Task(Keepalive, owner, AwaitPublish(1, o), Some(lock)), lock, ByOp(o)).(
      ops := s.ops[o := Op(Publish(owner), lock, true, Acknowledged, Some(t))]);
    assert s0.ops - {o} == s.ops;
    PlayOne(s0, Return(t, false));
  }

  lemma RefreshSleeps(s: State, t: TaskId, owner: Owner, lock: LockId)
    requires owner !in s.board.cancelled
    ensures Plays(Stage(s, t, Task(Keepalive, owner, Refreshed, Some(lock)), lock, ByTask(t)), [Recheck(t)],
                  s.(tasks := s.tasks[t := Task(Keepalive, owner, Idle, Some(lock))], registry := Some(lock), locked := map[]))
  {
    PlayOne(Stage(s, t, Task(Keepalive, owner, Refreshed, Some(lock)), lock, ByTask(t)), Recheck(t));
  }

  function RefreshAlone(t: TaskId, o: OpId): seq<Event> {
    [Wake(t), Acquire(t)] + ([Check(t), Launch(t, o)] + [Land(o), Finish(o, Acknowledged)]) + [Return(t, false)] + [Recheck(t)]
  }

  /** With the guard free, a keepalive of the current entry renews its record and goes back to sleep. */
  lemma UndisturbedRefreshRenews(s: State, t: TaskId, owner: Owner, lock: LockId, o: OpId)
    requires s.locked == map[] && s.registry == Some(lock) && Unused(s, o)
    requires t in s.tasks && s.tasks[t] == Task(Keepalive, owner, Idle, Some(lock))
    requires s.board.entry == Some(owner) && owner !in s.board.cancelled
    ensures Plays(s, RefreshAlone(t, o), s.(board := s.board.(record := Some(owner))))
  {
    var first, second := [Wake(t), Acquire(t)], [Check(t), Launch(t, o)] + [Land(o), Finish(o, Acknowledged)];
    var r := s.(tasks := s.tasks - {t});
    var r' := r.(board := s.board.(record := Some(owner)));
    var turn := Stage(r, t, Task(Keepalive, owner, Turn, Some(lock)), lock, ByTask(t));
    var done := Stage(r', t, Task(Keepalive, owner, AwaitPublish(1, o), Some(lock)), lock, ByOp(o)).(
      ops := r.ops[o := Op(Publish(owner), lock, true, Acknowledged, Some(t))]);
    var back := Stage(r', t, Task(Keepalive, owner, Refreshed, Some(lock)), lock, ByTask(t));
    var s' := s.(board := r'.board);
    RefreshGetsTurn(s, t, owner, lock);
    assert turn.tasks == s.tasks[t := s.tasks[t].(pc := Turn)];
    PublishesAlone(r, t, Keepalive, owner, lock, o);
    RefreshReturns(r', t, owner, lock, o);
    RefreshSleeps(r', t, owner, lock);
    assert r'.tasks[t := s.tasks[t]] == s.tasks;
    Continue(s, first, turn, second, done);
    Continue(s, first + second, done, [Return(t, false)], back);
    Continue(s, first + second + [Return(t, false)], back, [Recheck(t)], s');
  }

  // ------------------------------------------------------------------
  // A removal
  // ------------------------------------------------------------------

  /** The board once the entry is out and its refresh cancelled. */
  function WithoutEntry(b: Board): Board {
    b.(entry := None, cancelled := if b.entry.Some? then b.cancelled + {b.entry.value} else b.cancelled)
  }

  lemma Uninstalls(s: State, t: TaskId)
    requires t !in s.tasks
    ensures Plays(s, [BeginRemove(t), CancelPrevious(t)],
                  s.(tasks := s.tasks[t := Task(Remove, 0, Unlocked, None)], board := WithoutEntry(s.board)))
  {
    PlayTwo(s, BeginRemove(t), CancelPrevious(t));
  }

  lemma RemovalGetsTurn(s: State, t: TaskId) returns (lock: LockId, s': State)
    requires s.locked == map[] && t !in s.tasks
    ensures Plays(s, [BeginRemove(t), CancelPrevious(t)] + [FindLock(t), Acquire(t)],
                  Stage(s', t, Task(Remove, 0, Turn, Some(lock)), lock, ByTask(t)))
    ensures s' == s.(board := WithoutEntry(s.board), nextLock := s'.nextLock)
  {
    var s1 := s.(tasks := s.tasks[t := Task(Remove, 0, Unlocked, None)], board := WithoutEntry(s.board));
    Uninstalls(s, t);
    var s2: State;
    lock, s2 := GetsTurn(s1, t);
    s' := s.(board := WithoutEntry(s.board), nextLock := s2.nextLock);
    var s3 := Stage(s', t, Task(Remove, 0, Turn, Some(lock)), lock, ByTask(t));
    assert s2.tasks == s3.tasks;
    Continue(s, [BeginRemove(t), CancelPrevious(t)], s1, [FindLock(t), Acquire(t)], s3);
  }

  lemma LaunchesWithdrawal(s: State, t: TaskId, lock: LockId, o: OpId)
    requires s.board.entry.None? && Unused(s, o) && t !in s.tasks
    ensures Plays(Stage(s, t, Task(Remove, 0, Turn, Some(lock)), lock, ByTask(t)), [Check(t), Launch(t, o)],
                  Stage(s, t, Task(Remove, 0, AwaitWithdraw(o), Some(lock)), lock, ByOp(o)).(
                    ops := s.ops[o := Op(Withdraw(s.board.installed), lock, false, Running, Some(t))]))
  {
    var s0 := Stage(s, t, Task(Remove, 0, Turn, Some(lock)), lock, ByTask(t));
    var s1 := Stage(s, t, Task(Remove, 0, Withdrawing(s.board.installed), Some(lock)), lock, ByTask(t));
    assert Apply(s0, Check(t)) == s1;
    Launches(s, t, s1.tasks[t], lock, o, AwaitWithdraw(o), Withdraw(s.board.installed));
    PlayTwo(s0, Check(t), Launch(t, o));
  }

  lemma WithdrawsAlone(s: State, t: TaskId, lock: LockId, o: OpId)
    requires s.board.entry.None? && Unused(s, o) && t !in s.tasks
    ensures var installed := s.board.installed;
      Plays(Stage(s, t, Task(Remove, 0, Turn, Some(lock)), lock, ByTask(t)),
            [Check(t), Launch(t, o)] + [Land(o), Finish(o, Acknowledged)],
            Stage(s, t, Task(Remove, 0, AwaitWithdraw(o), Some(lock)), lock, ByOp(o)).(
              ops := s.ops[o := Op(Withdraw(installed), lock, true, Acknowledged, Some(t))],
              board := s.board.(record := None, sealed := s.board.sealed + installed)))
  {
    var installed := s.board.installed;
    var s0 := Stage(s, t, Task(Remove, 0, Turn, Some(lock)), lock, ByTask(t));
    var s1 := Stage(s, t, Task(Remove, 0, AwaitWithdraw(o), Some(lock)), lock, ByOp(o)).(
      ops := s.ops[o := Op(Withdraw(installed), lock, false, Running, Some(t))]);
    var s2 := Stage(s, t, Task(Remove, 0, AwaitWithdraw(o), Some(lock)), lock, ByOp(o)).(
      ops := s.ops[o := Op(Withdraw(installed), lock, true, Acknowledged, Some(t))],
      board := s.board.(record := None, sealed := s.board.sealed + installed));
    LaunchesWithdrawal(s, t, lock, o);
    Completes(s1, o);
    assert s1.ops[o := s1.ops[o].(landed := true, status := Acknowledged)] == s2.ops;
    Continue(s0, [Check(t), Launch(t, o)], s1, [Land(o), Finish(o, Acknowledged)], s2);
  }

  lemma RemovalEnds(s: State, t: TaskId, lock: LockId, o: OpId, before: set<Owner>)
    requires o !in s.ops && t !in s.tasks
    ensures Plays(Stage(s, t, Task(Remove, 0, AwaitWithdraw(o), Some(lock)), lock, ByOp(o)).(
                    ops := s.ops[o := Op(Withdraw(before), lock, true, Acknowledged, Some(t))]),
                  [Return(t, false)],
                  s.(registry := Some(lock), locked := map[]))
  {
    var s0 := Stage(s, t, Task(Remove, 0, AwaitWithdraw(o), Some(lock)), lock, ByOp(o)).(
      ops := s.ops[o := Op(Withdraw(before), lock, true, Acknowledged, Some(t))]);
    assert s0.ops - {o} == s.ops;
    assert s0.tasks - {t} == s.tasks;
    PlayOne(s0, Return(t, false));
  }

  function RemoveAlone(t: TaskId, o: OpId): seq<Event> {
    [BeginRemove(t), CancelPrevious(t)] + [FindLock(t), Acquire(t)] + [Check(t), Launch(t, o)]
    + [Land(o), Finish(o, Acknowledged)] + [Return(t, false)]
  }

  /** With the guard free, a removal on its own leaves neither entry nor record, and the refresh is cancelled. */
  lemma UndisturbedRemovalWithdraws(s: State, t: TaskId, o: OpId) returns (s': State)
    requires s.locked == map[] && Unused(s, o) && t !in s.tasks
    ensures Plays(s, RemoveAlone(t, o), s')
    ensures s'.board == WithoutEntry(s.board).(record := None, sealed := s.board.sealed + s.board.installed)
    ensures s'.tasks == s.tasks && s'.ops == s.ops && s'.locked == map[]
  {
    var first := [BeginRemove(t), CancelPrevious(t)] + [FindLock(t), Acquire(t)];
    var second := [Check(t), Launch(t, o)] + [Land(o), Finish(o, Acknowledged)];
    var lock, s1 := RemovalGetsTurn(s, t);
    WithdrawsAlone(s1, t, lock, o);
    var s2 := s1.(board := s1.board.(record := None, sealed := s1.board.sealed + s1.board.installed));
    RemovalEnds(s2, t, lock, o, s1.board.installed);
    s' := s2.(registry := Some(lock), locked := map[]);
    var turn := Stage(s1, t, Task(Remove, 0, Turn, Some(lock)), lock, ByTask(t));
    var done := Stage(s2, t, Task(Remove, 0, AwaitWithdraw(o), Some(lock)), lock, ByOp(o)).(
      ops := s2.ops[o := Op(Withdraw(s1.board.installed), lock, true, Acknowledged, Some(t))]);
    Continue(s, first, turn, second, done);
    Continue(s, first + second, done, [Return(t, false)], s');
    assert RemoveAlone(t, o) == first + second + [Return(t, false)];
  }
}
