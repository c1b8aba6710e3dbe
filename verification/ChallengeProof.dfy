/** The inductive invariant of the challenge protocol and its preservation by every step. */
module ChallengeProof {
  import opened Wrappers
  import opened ChallengeKey

  predicate Has(o: Option<Owner>, owners: set<Owner>) {
    o.Some? && o.value in owners
  }

  /** The record, if any, is `owner`'s. */
  predicate OnlyBy(record: Option<Owner>, owner: Owner) {
    record.None? || record == Some(owner)
  }

  // ------------------------------------------------------------------
  // Locks
  // ------------------------------------------------------------------

  predicate MustHold(p: Pc) {
    p == Turn || p.Publishing? || p == Published || p.Withdrawing?
  }

  /** The task's lock object is the registered one, and it has the guard wherever it relies on it. */
  predicate TaskLockOk(registry: Option<LockId>, locked: map<LockId, Holder>, t: TaskId, task: Task) {
    && (task.lock.Some? ==> registry == task.lock)
    && (MustHold(task.pc) ==>
          task.lock.Some? && task.lock.value in locked && locked[task.lock.value] == ByTask(t))
    && (Awaiting(task.pc) ==> task.lock.Some?)
  }

  predicate OpLockOk(registry: Option<LockId>, locked: map<LockId, Holder>, o: OpId, op: Op) {
    registry == Some(op.lock) && op.lock in locked && locked[op.lock] == ByOp(o)
  }

  /** A guard is held only by a task or an operation that still exists. */
  predicate GuardOk(tasks: map<TaskId, Task>, ops: map<OpId, Op>, l: LockId, h: Holder) {
    match h
    case ByTask(t) => t in tasks && tasks[t].lock == Some(l)
    case ByOp(o) => o in ops && ops[o].lock == l
  }

  ghost predicate LockInv(s: State) {
    && (forall t :: t in s.tasks ==> TaskLockOk(s.registry, s.locked, t, s.tasks[t]))
    && (forall o :: o in s.ops ==> OpLockOk(s.registry, s.locked, o, s.ops[o]))
    && (forall l :: l in s.locked ==> GuardOk(s.tasks, s.ops, l, s.locked[l]))
  }

  // ------------------------------------------------------------------
  // Callers and their operations
  // ------------------------------------------------------------------

  predicate TaskWaitOk(ops: map<OpId, Op>, t: TaskId, task: Task) {
    Awaiting(task.pc) && task.pc.op in ops ==>
      && (ops[task.pc.op].waiter.Some? ==> ops[task.pc.op].waiter == Some(t))
      && (task.pc.AwaitPublish? ==> ops[task.pc.op].mutation == Publish(task.owner))
  }

  predicate OpWaitOk(tasks: map<TaskId, Task>, o: OpId, op: Op) {
    && (op.waiter.Some? ==>
          op.waiter.value in tasks && Awaiting(tasks[op.waiter.value].pc) && tasks[op.waiter.value].pc.op == o)
    && (op.status == Acknowledged ==> op.landed)
  }

  ghost predicate WaitInv(s: State) {
    && (forall t :: t in s.tasks ==> TaskWaitOk(s.ops, t, s.tasks[t]))
    && (forall o :: o in s.ops ==> OpWaitOk(s.tasks, o, s.ops[o]))
  }

  // ------------------------------------------------------------------
  // Owners, entry and record
  // ------------------------------------------------------------------

  /** Where a removal may be; the other two kinds always act for an installed owner. */
  predicate RemovalPc(p: Pc) {
    p.Uninstalled? || p == Unlocked || p == Waiting || p == Turn || p.Withdrawing? || p.AwaitWithdraw?
  }

  ghost predicate BoardOk(b: Board) {
    && (forall o :: o in b.installed ==> o < b.nextOwner)
    && b.acked <= b.installed && b.failed <= b.installed && b.cancelled <= b.installed && b.sealed <= b.installed
    && (b.entry.Some? ==> b.entry.value in b.installed)
    && (b.record.Some? ==> b.record.value in b.installed)
    && !Has(b.entry, b.failed) && !Has(b.entry, b.cancelled) && !Has(b.entry, b.sealed) && !Has(b.record, b.sealed)
    && (Has(b.entry, b.acked) ==> OnlyBy(b.record, b.entry.value))
  }

  /**
   * An owner id is installed at most once, what is over stays over, and a task about to
   * mutate the store cannot disturb the acknowledged current entry or revive a sealed one.
   */
  predicate TaskBoardOk(b: Board, task: Task) {
    && (task.pc == Fresh ==> task.kind == Insert && task.owner < b.nextOwner && task.owner !in b.installed)
    && (task.kind == Remove ==> RemovalPc(task.pc))
    && (task.kind != Remove && task.pc != Fresh ==> task.owner in b.installed)
    && (task.pc.Uninstalled? && task.pc.previous.Some? ==>
          task.pc.previous.value in b.installed && b.entry != task.pc.previous)
    && (task.pc == Cancelling ==> b.entry != Some(task.owner))
    && (task.pc == Retracting ==> task.owner in b.cancelled)
    && (task.pc == Published ==> OnlyBy(b.record, task.owner))
    && (task.pc.Publishing? ==> task.owner !in b.sealed && (Has(b.entry, b.acked) ==> b.entry == Some(task.owner)))
    && (task.pc.Withdrawing? ==>
          !Has(b.entry, b.acked) && task.pc.before <= b.installed && !Has(b.entry, task.pc.before))
  }

  predicate OpBoardOk(b: Board, op: Op) {
    match op.mutation
    case Publish(owner) =>
      && (op.landed ==> OnlyBy(b.record, owner))
      && owner in b.installed && owner !in b.sealed
      && (Has(b.entry, b.acked) ==> b.entry == Some(owner))
    case Withdraw(before) =>
      && (op.landed ==> b.record.None?)
      && before <= b.installed
      && !Has(b.entry, before)
      && !Has(b.entry, b.acked)
  }

  ghost predicate FreshInv(tasks: map<TaskId, Task>) {
    forall t, u :: t in tasks && u in tasks && t != u && tasks[t].pc == Fresh && tasks[u].pc == Fresh ==>
      tasks[t].owner != tasks[u].owner
  }

  ghost predicate BoardInv(s: State) {
    && BoardOk(s.board)
    && (forall t :: t in s.tasks ==> TaskBoardOk(s.board, s.tasks[t]))
    && (forall o :: o in s.ops ==> OpBoardOk(s.board, s.ops[o]))
    && FreshInv(s.tasks)
  }

  ghost predicate Inv(s: State) {
    LockInv(s) && WaitInv(s) && BoardInv(s)
  }

  // ------------------------------------------------------------------
  // One task moves
  // ------------------------------------------------------------------

  predicate MayMove(s: State, t: TaskId, task: Task) {
    && (t in s.tasks ==> s.tasks[t].lock.None? || task.lock == s.tasks[t].lock)
    && (AwaitsOp(s, t) ==> s.ops[s.tasks[t].pc.op].waiter.None?)
    && TaskLockOk(s.registry, s.locked, t, task)
    && TaskWaitOk(s.ops, t, task)
  }

  lemma MoveLock(s: State, t: TaskId, task: Task)
    requires LockInv(s) && MayMove(s, t, task)
    ensures LockInv(s.(tasks := s.tasks[t := task]))
  {
  }

  lemma MoveWait(s: State, t: TaskId, task: Task)
    requires WaitInv(s) && MayMove(s, t, task)
    ensures WaitInv(s.(tasks := s.tasks[t := task]))
  {
  }

  lemma MoveKeeps(s: State, t: TaskId, task: Task)
    requires Inv(s) && MayMove(s, t, task) && task.pc != Fresh && TaskBoardOk(s.board, task)
    ensures Inv(s.(tasks := s.tasks[t := task]))
  {
    MoveLock(s, t, task);
    MoveWait(s, t, task);
  }

  /** Moving a task leaves locks and callers in order whatever happens to the board. */
  lemma MoveOrder(s: State, s': State, t: TaskId, task: Task)
    requires LockInv(s) && WaitInv(s) && MayMove(s, t, task)
    requires s' == s.(tasks := s.tasks[t := task], board := s'.board)
    ensures LockInv(s') && WaitInv(s')
  {
    MoveLock(s, t, task);
    MoveWait(s, t, task);
  }

  // ------------------------------------------------------------------
  // One task or operation ends
  // ------------------------------------------------------------------

  predicate MayEnd(s: State, t: TaskId) {
    t in s.tasks && (AwaitsOp(s, t) ==> s.ops[s.tasks[t].pc.op].waiter.None?)
  }

  lemma EndLock(s: State, t: TaskId)
    requires LockInv(s) && MayEnd(s, t)
    ensures LockInv(End(s, t))
  {
  }

  lemma EndKeeps(s: State, t: TaskId)
    requires Inv(s) && MayEnd(s, t)
    ensures Inv(End(s, t))
  {
    EndLock(s, t);
  }

  lemma DiscardKeeps(s: State, o: OpId)
    requires Inv(s) && o in s.ops
    ensures Inv(Discard(s, o))
  {
  }

  lemma DetachKeeps(s: State, o: OpId)
    requires Inv(s) && o in s.ops
    ensures Inv(Detach(s, o))
  {
  }

  lemma HandBackKeeps(s: State, t: TaskId)
    requires Inv(s) && AwaitsOp(s, t)
    ensures Inv(HandBack(s, t, s.tasks[t].pc.op))
  {
  }

  // ------------------------------------------------------------------
  // Steps
  // ------------------------------------------------------------------

  lemma BeginKeeps(s: State, t: TaskId, owner: Owner)
    requires Inv(s) && t !in s.tasks && owner >= s.board.nextOwner
    ensures Inv(Beginning(s, t, owner))
  {
    MoveOrder(s, Beginning(s, t, owner), t, Task(Insert, owner, Fresh, None));
  }

  lemma ReplacedTask(b: Board, owner: Owner, task: Task)
    requires BoardOk(b) && owner !in b.installed && TaskBoardOk(b, task)
    requires task.pc == Fresh ==> task.owner != owner
    ensures TaskBoardOk(Replaced(b, owner), task)
  {
  }

  lemma ReplacedOp(b: Board, owner: Owner, op: Op)
    requires BoardOk(b) && owner !in b.installed && OpBoardOk(b, op)
    ensures OpBoardOk(Replaced(b, owner), op)
  {
  }

  lemma ReplacedBoard(b: Board, owner: Owner)
    requires BoardOk(b) && owner !in b.installed && owner < b.nextOwner
    ensures BoardOk(Replaced(b, owner))
  {
  }

  lemma InstallBoard(s: State, t: TaskId)
    requires BoardInv(s) && IsAt(s, t, Fresh)
    ensures BoardInv(Installing(s, t))
  {
    var s', owner := Installing(s, t), s.tasks[t].owner;
    assert TaskBoardOk(s.board, s.tasks[t]);
    ReplacedBoard(s.board, owner);
    forall u | u in s'.tasks
      ensures TaskBoardOk(s'.board, s'.tasks[u])
    {
      if u != t {
        ReplacedTask(s.board, owner, s.tasks[u]);
      }
    }
    forall o | o in s'.ops
      ensures OpBoardOk(s'.board, s'.ops[o])
    {
      ReplacedOp(s.board, owner, s.ops[o]);
    }
  }

  lemma InstallKeeps(s: State, t: TaskId)
    requires Inv(s) && IsAt(s, t, Fresh)
    ensures Inv(Installing(s, t))
  {
    MoveOrder(s, Installing(s, t), t, s.tasks[t].(pc := Unlocked));
    InstallBoard(s, t);
  }

  lemma BeginRemoveKeeps(s: State, t: TaskId)
    requires Inv(s) && t !in s.tasks
    ensures Inv(Uninstalling(s, t))
  {
    MoveOrder(s, Uninstalling(s, t), t, Task(Remove, 0, Uninstalled(s.board.entry), None));
  }

  lemma CancelPreviousKeeps(s: State, t: TaskId)
    requires Inv(s) && t in s.tasks && s.tasks[t].pc.Uninstalled?
    ensures Inv(CancellingPrevious(s, t))
  {
    MoveOrder(s, CancellingPrevious(s, t), t, s.tasks[t].(pc := Unlocked));
  }

  lemma NewLockKeeps(s: State, t: TaskId)
    requires Inv(s) && IsAt(s, t, Unlocked) && !(s.registry.Some? && Live(s, s.registry.value))
    ensures Inv(FindingLock(s, t))
  {
  }

  lemma FindLockKeeps(s: State, t: TaskId)
    requires Inv(s) && IsAt(s, t, Unlocked)
    ensures Inv(FindingLock(s, t))
  {
    if s.registry.Some? && Live(s, s.registry.value) {
      MoveKeeps(s, t, s.tasks[t].(pc := Waiting, lock := s.registry));
    } else {
      NewLockKeeps(s, t);
    }
  }

  lemma WakeKeeps(s: State, t: TaskId)
    requires Inv(s) && IsAt(s, t, Idle)
    ensures Inv(At(s, t, Waiting))
  {
    MoveKeeps(s, t, s.tasks[t].(pc := Waiting));
  }

  lemma AcquireKeeps(s: State, t: TaskId)
    requires Inv(s) && Enabled(s, Acquire(t))
    ensures Inv(Acquiring(s, t))
  {
  }

  lemma GiveUpKeeps(s: State, t: TaskId)
    requires Inv(s) && IsAt(s, t, Waiting)
    ensures Inv(GivingUp(s, t))
  {
    match s.tasks[t].kind
    case Insert => MoveKeeps(s, t, s.tasks[t].(pc := RollingBack));
    case Keepalive => MoveKeeps(s, t, s.tasks[t].(pc := Idle));
    case Remove => EndKeeps(s, t);
  }

  lemma FailKeeps(s: State, t: TaskId)
    requires Inv(s) && MayEnd(s, t) && s.tasks[t].kind != Remove && s.tasks[t].pc != Fresh
    requires s.board.entry != Some(s.tasks[t].owner)
    ensures Inv(End(s, t).(board := s.board.(failed := s.board.failed + {s.tasks[t].owner})))
  {
    EndKeeps(s, t);
  }

  lemma CheckKeeps(s: State, t: TaskId)
    requires Inv(s) && IsAt(s, t, Turn)
    ensures Inv(Checking(s, t))
  {
    var task := s.tasks[t];
    var b := s.board;
    if task.kind != Remove && b.entry == Some(task.owner) {
      MoveKeeps(s, t, task.(pc := Publishing(1)));
    } else if task.kind == Insert {
      FailKeeps(s, t);
    } else if task.kind == Remove && b.entry.None? {
      MoveKeeps(s, t, task.(pc := Withdrawing(b.installed)));
    } else {
      EndKeeps(s, t);
    }
  }

  lemma LaunchLock(s: State, t: TaskId, o: OpId)
    requires LockInv(s) && Enabled(s, Launch(t, o))
    ensures LockInv(Launching(s, t, o))
  {
  }

  lemma LaunchWait(s: State, t: TaskId, o: OpId)
    requires WaitInv(s) && Enabled(s, Launch(t, o))
    ensures WaitInv(Launching(s, t, o))
  {
  }

  lemma LaunchBoard(s: State, t: TaskId, o: OpId)
    requires BoardInv(s) && Enabled(s, Launch(t, o))
    ensures BoardInv(Launching(s, t, o))
  {
  }

  lemma LaunchKeeps(s: State, t: TaskId, o: OpId)
    requires Inv(s) && Enabled(s, Launch(t, o))
    ensures Inv(Launching(s, t, o))
  {
    LaunchLock(s, t, o);
    LaunchWait(s, t, o);
    LaunchBoard(s, t, o);
  }

  lemma LandKeeps(s: State, o: OpId)
    requires Inv(s) && o in s.ops
    ensures Inv(Landing(s, o))
  {
  }

  lemma FinishKeeps(s: State, o: OpId, status: Status)
    requires Inv(s) && o in s.ops && (status == Acknowledged ==> s.ops[o].landed)
    ensures Inv(Finishing(s, o, status))
  {
    DiscardKeeps(s, o);
  }

  lemma PublishReturns(s: State, t: TaskId, overdue: bool)
    requires Inv(s) && Enabled(s, Return(t, overdue)) && s.tasks[t].pc.AwaitPublish?
    ensures Inv(Returning(s, t, overdue))
  {
    var task := s.tasks[t];
    assert TaskWaitOk(s.ops, t, task) && OpBoardOk(s.board, s.ops[task.pc.op]) && TaskBoardOk(s.board, task);
    HandBackKeeps(s, t);
    MoveKeeps(HandBack(s, t, task.pc.op), t, task.(pc := AfterPublish(task, s.ops[task.pc.op].status, overdue)));
  }

  lemma ReturnKeeps(s: State, t: TaskId, overdue: bool)
    requires Inv(s) && Enabled(s, Return(t, overdue))
    ensures Inv(Returning(s, t, overdue))
  {
    if s.tasks[t].pc.AwaitPublish? {
      PublishReturns(s, t, overdue);
    } else {
      HandBackKeeps(s, t);
      EndKeeps(HandBack(s, t, s.tasks[t].pc.op), t);
    }
  }

  lemma LoseKeeps(s: State, t: TaskId)
    requires Inv(s) && MayEnd(s, t) && Awaiting(s.tasks[t].pc)
    ensures Inv(Losing(s, t))
  {
    if s.tasks[t].pc.AwaitPublish? {
      MoveKeeps(s, t, s.tasks[t].(pc := AfterFailure(s.tasks[t].kind)));
    } else {
      EndKeeps(s, t);
    }
  }

  lemma AbandonKeeps(s: State, t: TaskId)
    requires Inv(s) && AwaitsOp(s, t)
    ensures Inv(Losing(Detach(s, s.tasks[t].pc.op), t))
  {
    DetachKeeps(s, s.tasks[t].pc.op);
    LoseKeeps(Detach(s, s.tasks[t].pc.op), t);
  }

  lemma ConfirmKeeps(s: State, t: TaskId, k: TaskId)
    requires Inv(s) && IsAt(s, t, Published) && k !in s.tasks
    ensures Inv(Confirming(s, t, k))
  {
    var task := s.tasks[t];
    if s.board.entry == Some(task.owner) {
      EndKeeps(s, t);
      MoveKeeps(End(s, t), k, Task(Keepalive, task.owner, Idle, task.lock));
    } else {
      FailKeeps(s, t);
    }
  }

  lemma SleepKeeps(s: State, t: TaskId)
    requires Inv(s) && IsAt(s, t, Refreshed)
    ensures Inv(At(s, t, Idle).(locked := Unlock(s.locked, ByTask(t))))
  {
    var idle := s.tasks[t].(pc := Idle);
    EndKeeps(s, t);
    MoveKeeps(End(s, t), t, idle);
    assert (s.tasks - {t})[t := idle] == s.tasks[t := idle];
  }

  lemma RecheckKeeps(s: State, t: TaskId)
    requires Inv(s) && (IsAt(s, t, Refreshed) || IsAt(s, t, Retracting))
    ensures Inv(Rechecking(s, t))
  {
    var task := s.tasks[t];
    if task.pc == Refreshed {
      if task.owner in s.board.cancelled {
        MoveKeeps(s, t, task.(pc := Retracting));
      } else {
        SleepKeeps(s, t);
      }
    } else if Holds(s, t) && (s.board.entry.None? || s.board.entry == Some(task.owner)) {
      MoveKeeps(s, t, task.(pc := Withdrawing(s.board.installed)));
    } else {
      EndKeeps(s, t);
    }
  }

  lemma RollBackKeeps(s: State, t: TaskId)
    requires Inv(s) && IsAt(s, t, RollingBack)
    ensures Inv(RollingBackStep(s, t))
  {
    MoveOrder(s, RollingBackStep(s, t), t, s.tasks[t].(pc := Cancelling));
  }

  /** Giving up an installation that is not the entry leaves everything about the board in order. */
  lemma GivenUpKeeps(s: State, owner: Owner)
    requires BoardInv(s) && owner in s.board.installed && s.board.entry != Some(owner)
    ensures BoardInv(s.(board := GivenUp(s.board, owner)))
  {
    forall t | t in s.tasks
      ensures TaskBoardOk(GivenUp(s.board, owner), s.tasks[t])
    {
      assert TaskBoardOk(s.board, s.tasks[t]);
    }
    forall o | o in s.ops
      ensures OpBoardOk(GivenUp(s.board, owner), s.ops[o])
    {
      assert OpBoardOk(s.board, s.ops[o]);
    }
  }

  lemma CancelOwnKeeps(s: State, t: TaskId)
    requires Inv(s) && IsAt(s, t, Cancelling)
    ensures Inv(CancellingOwn(s, t))
  {
    assert TaskBoardOk(s.board, s.tasks[t]);
    EndKeeps(s, t);
    GivenUpKeeps(End(s, t), s.tasks[t].owner);
  }

  lemma DropKeeps(s: State, t: TaskId)
    requires Inv(s) && t in s.tasks
    ensures Inv(Dropping(s, t))
  {
    if AwaitsOp(s, t) {
      var o := s.tasks[t].pc.op;
      if s.ops[o].status == Running {
        DetachKeeps(s, o);
        EndKeeps(Detach(s, o), t);
      } else {
        DiscardKeeps(s, o);
        EndKeeps(Discard(s, o), t);
      }
    } else {
      EndKeeps(s, t);
    }
  }

  lemma ExpireKeeps(s: State)
    requires Inv(s)
    ensures Inv(s.(board := s.board.(record := None)))
  {
  }

  lemma SweepKeeps(s: State)
    requires Inv(s) && Enabled(s, Sweep)
    ensures Inv(s.(registry := None))
  {
  }

  /** The events of store operations and of the callers that wait for them. */
  predicate IsMutation(e: Event) {
    e.Launch? || e.Land? || e.Finish? || e.Panic? || e.Return? || e.Abandon? || e.Lost? || e.Drop?
  }

  lemma MutationKeeps(s: State, e: Event)
    requires Inv(s) && Enabled(s, e) && IsMutation(e)
    ensures Inv(Apply(s, e))
  {
    match e
    case Launch(t, o) => LaunchKeeps(s, t, o);
    case Land(o) => LandKeeps(s, o);
    case Finish(o, status) => FinishKeeps(s, o, status);
    case Panic(o) => DiscardKeeps(s, o);
    case Return(t, overdue) => ReturnKeeps(s, t, overdue);
    case Abandon(t) => AbandonKeeps(s, t);
    case Lost(t) => LoseKeeps(s, t);
    case Drop(t) => DropKeeps(s, t);
  }

  /** The events around the lock of the hostname. */
  predicate IsLocking(e: Event) {
    e.FindLock? || e.Wake? || e.Acquire? || e.GiveUp?
  }

  lemma LockingKeeps(s: State, e: Event)
    requires Inv(s) && Enabled(s, e) && IsLocking(e)
    ensures Inv(Apply(s, e))
  {
    match e
    case FindLock(t) => FindLockKeeps(s, t);
    case Wake(t) => WakeKeeps(s, t);
    case Acquire(t) => AcquireKeeps(s, t);
    case GiveUp(t) => GiveUpKeeps(s, t);
  }

  lemma TaskStepKeeps(s: State, e: Event)
    requires Inv(s) && Enabled(s, e) && !IsMutation(e) && !IsLocking(e)
    ensures Inv(Apply(s, e))
  {
    match e
    case Begin(t, owner) => BeginKeeps(s, t, owner);
    case Install(t) => InstallKeeps(s, t);
    case BeginRemove(t) => BeginRemoveKeeps(s, t);
    case CancelPrevious(t) => CancelPreviousKeeps(s, t);
    case Check(t) => CheckKeeps(s, t);
    case Confirm(t, k) => ConfirmKeeps(s, t, k);
    case Recheck(t) => RecheckKeeps(s, t);
    case RollBack(t) => RollBackKeeps(s, t);
    case CancelOwn(t) => CancelOwnKeeps(s, t);
    case Expire => ExpireKeeps(s);
    case Sweep => SweepKeeps(s);
  }

  /** Every step of the protocol keeps the invariant. */
  lemma StepKeeps(s: State, e: Event)
    requires Inv(s) && Enabled(s, e)
    ensures Inv(Apply(s, e))
  {
    if IsMutation(e) {
      MutationKeeps(s, e);
    } else if IsLocking(e) {
      LockingKeeps(s, e);
    } else {
      TaskStepKeeps(s, e);
    }
  }
}
