/**
 * The shared HTTP-01 challenge protocol of one key (host and token), as
 * interleaved atomic steps.
 *
 * Inserts, keepalives and removals are tasks. A store mutation runs as its own
 * operation and carries the key's mutex guard with it, so an operation whose
 * caller gave up or was dropped still keeps the key locked. The registry maps
 * the key to its lock object through a weak reference: it yields the object only
 * while some task or operation still owns it.
 *
 * The sets `installed`, `acked`, `failed` and `sealed` record the past; no step
 * reads them to decide what to do.
 */
module ChallengeKey {
  import opened Wrappers

  type Owner = nat
  type LockId = nat
  type TaskId = nat
  type OpId = nat

  const PUBLISH_ATTEMPTS := 3

  datatype Kind = Insert | Keepalive | Remove

  datatype Pc =
    | Fresh                                       // insert: owner id drawn, entry not written yet
    | Unlocked                                    // about to look the key's lock up
    | Uninstalled(previous: Option<Owner>)        // remove: entry taken out, refresh not cancelled yet
    | Idle                                        // keepalive: sleeping
    | Waiting                                     // has the lock object, waits for its turn
    | Turn                                        // holds the guard, ownership not checked yet
    | Publishing(attempt: nat)                    // about to launch a publication
    | AwaitPublish(attempt: nat, op: OpId)
    | Published                                   // insert: acknowledged, second ownership check due
    | Refreshed                                   // keepalive: publication attempt over
    | Retracting                                  // keepalive: saw its cancellation after a refresh
    | Withdrawing(before: set<Owner>)             // about to launch a withdrawal
    | AwaitWithdraw(op: OpId)
    | RollingBack                                 // insert: failed, entry not taken out yet
    | Cancelling                                  // insert: failed, own refresh not cancelled yet

  datatype Task = Task(kind: Kind, owner: Owner, pc: Pc, lock: Option<LockId>)

  /** `before` is the set of installations made up to the check that admitted the withdrawal. */
  datatype Mutation = Publish(owner: Owner) | Withdraw(before: set<Owner>)
  datatype Status = Running | Acknowledged | Failed(transport: bool)
  datatype Op = Op(mutation: Mutation, lock: LockId, landed: bool, status: Status, waiter: Option<TaskId>)
  datatype Holder = ByTask(task: TaskId) | ByOp(op: OpId)

  /** The local entry, the shared record and what has happened to each installation. */
  datatype Board = Board(
    entry: Option<Owner>,
    record: Option<Owner>,
    cancelled: set<Owner>,
    nextOwner: Owner,
    installed: set<Owner>,
    acked: set<Owner>,
    failed: set<Owner>,
    sealed: set<Owner>)

  datatype State = State(
    board: Board,
    registry: Option<LockId>,
    locked: map<LockId, Holder>,
    tasks: map<TaskId, Task>,
    ops: map<OpId, Op>,
    nextLock: LockId)

  datatype Event =
    | Begin(t: TaskId, owner: Owner)
    | Install(t: TaskId)
    | BeginRemove(t: TaskId)
    | CancelPrevious(t: TaskId)
    | FindLock(t: TaskId)
    | Wake(t: TaskId)
    | Acquire(t: TaskId)
    | GiveUp(t: TaskId)
    | Check(t: TaskId)
    | Launch(t: TaskId, op: OpId)
    | Land(op: OpId)
    | Finish(op: OpId, status: Status)
    | Panic(op: OpId)
    | Return(t: TaskId, overdue: bool)
    | Abandon(t: TaskId)
    | Lost(t: TaskId)
    | Confirm(t: TaskId, keepalive: TaskId)
    | Recheck(t: TaskId)
    | RollBack(t: TaskId)
    | CancelOwn(t: TaskId)
    | Drop(t: TaskId)
    | Expire
    | Sweep

  const INITIAL := State(Board(None, None, {}, 0, {}, {}, {}, {}), None, map[], map[], map[], 0)

  // ------------------------------------------------------------------
  // Pieces of steps
  // ------------------------------------------------------------------

  /** Some task or unfinished operation owns lock object `l`, so a weak reference to it still upgrades. */
  predicate Live(s: State, l: LockId) {
    || (exists t :: t in s.tasks && s.tasks[t].lock == Some(l))
    || (exists o :: o in s.ops && s.ops[o].lock == l)
  }

  predicate Holds(s: State, t: TaskId) {
    && t in s.tasks
    && s.tasks[t].lock.Some?
    && s.tasks[t].lock.value in s.locked
    && s.locked[s.tasks[t].lock.value] == ByTask(t)
  }

  predicate IsAt(s: State, t: TaskId, pc: Pc) {
    t in s.tasks && s.tasks[t].pc == pc
  }

  predicate Awaiting(p: Pc) {
    p.AwaitPublish? || p.AwaitWithdraw?
  }

  /** Between taking the entry out and cancelling its refresh a caller does not wait, so it cannot be dropped there. */
  predicate MidStep(p: Pc) {
    p.Uninstalled? || p == Cancelling
  }

  /** The task awaits an operation that has not disappeared. */
  predicate AwaitsOp(s: State, t: TaskId) {
    t in s.tasks && Awaiting(s.tasks[t].pc) && s.tasks[t].pc.op in s.ops
  }

  function At(s: State, t: TaskId, pc: Pc): State
    requires t in s.tasks
  {
    s.(tasks := s.tasks[t := s.tasks[t].(pc := pc)])
  }

  /** Every mutex guard owned by `h` is dropped. */
  function Unlock(locked: map<LockId, Holder>, h: Holder): map<LockId, Holder> {
    map l | l in locked && locked[l] != h :: locked[l]
  }

  /** The task returns: its guard and its reference to the lock object go with it. */
  function End(s: State, t: TaskId): State {
    s.(locked := Unlock(s.locked, ByTask(t)), tasks := s.tasks - {t})
  }

  /** The operation is over and its output, guard included, is dropped. */
  function Discard(s: State, o: OpId): State {
    s.(locked := Unlock(s.locked, ByOp(o)), ops := s.ops - {o})
  }

  /** A finished operation gives its guard back to its caller. */
  function HandBack(s: State, t: TaskId, o: OpId): State
    requires o in s.ops
  {
    s.(ops := s.ops - {o}, locked := s.locked[s.ops[o].lock := ByTask(t)])
  }

  /** Nobody waits for the operation any more; it keeps the guard until it is over. */
  function Detach(s: State, o: OpId): State
    requires o in s.ops
  {
    s.(ops := s.ops[o := s.ops[o].(waiter := None)])
  }

  /** Where a task continues when its publication is over without an acknowledgement. */
  function AfterFailure(kind: Kind): Pc {
    if kind == Insert then RollingBack else Refreshed
  }

  // ------------------------------------------------------------------
  // Steps
  // ------------------------------------------------------------------

  /** An insert draws its owner id. */
  function Beginning(s: State, t: TaskId, owner: Owner): State {
    s.(tasks := s.tasks[t := Task(Insert, owner, Fresh, None)], board := s.board.(nextOwner := owner + 1))
  }

  /** A new entry replaces the key's previous one, whose refresh is cancelled with it. */
  function Replaced(b: Board, owner: Owner): Board {
    b.(entry := Some(owner),
       cancelled := if b.entry.Some? then b.cancelled + {b.entry.value} else b.cancelled,
       installed := b.installed + {owner})
  }

  function Installing(s: State, t: TaskId): State
    requires t in s.tasks
  {
    At(s, t, Unlocked).(board := Replaced(s.board, s.tasks[t].owner))
  }

  /** A removal takes the entry out first and cancels its refresh afterwards. */
  function Uninstalling(s: State, t: TaskId): State {
    s.(tasks := s.tasks[t := Task(Remove, 0, Uninstalled(s.board.entry), None)],
       board := s.board.(entry := None))
  }

  function CancellingPrevious(s: State, t: TaskId): State
    requires t in s.tasks && s.tasks[t].pc.Uninstalled?
  {
    var p := s.tasks[t].pc.previous;
    At(s, t, Unlocked).(board :=
      if p.Some? then s.board.(cancelled := s.board.cancelled + {p.value}) else s.board)
  }

  /** The registry hands out the live lock object, or a new one when the weak reference is dead. */
  function FindingLock(s: State, t: TaskId): State
    requires t in s.tasks
  {
    if s.registry.Some? && Live(s, s.registry.value) then
      s.(tasks := s.tasks[t := s.tasks[t].(pc := Waiting, lock := s.registry)])
    else
      s.(tasks := s.tasks[t := s.tasks[t].(pc := Waiting, lock := Some(s.nextLock))],
         registry := Some(s.nextLock),
         nextLock := s.nextLock + 1)
  }

  function Acquiring(s: State, t: TaskId): State
    requires t in s.tasks && s.tasks[t].lock.Some?
  {
    At(s, t, Turn).(locked := s.locked[s.tasks[t].lock.value := ByTask(t)])
  }

  /** The key's turn did not come within the limit. */
  function GivingUp(s: State, t: TaskId): State
    requires t in s.tasks
  {
    match s.tasks[t].kind
    case Insert => At(s, t, RollingBack)
    case Keepalive => At(s, t, Idle)
    case Remove => End(s, t)
  }

  /** The ownership check made with the guard in hand, before the store is touched. */
  function Checking(s: State, t: TaskId): State
    requires t in s.tasks
  {
    var owner := s.tasks[t].owner;
    var b := s.board;
    match s.tasks[t].kind
    case Insert =>
      if b.entry == Some(owner) then At(s, t, Publishing(1))
      else End(s, t).(board := b.(failed := b.failed + {owner}))
    case Keepalive =>
      if b.entry == Some(owner) then At(s, t, Publishing(1)) else End(s, t)
    case Remove =>
      if b.entry.None? then At(s, t, Withdrawing(b.installed)) else End(s, t)
  }

  /** The guard moves into the operation, which the task then awaits. */
  function Launching(s: State, t: TaskId, o: OpId): State
    requires Holds(s, t) && (s.tasks[t].pc.Publishing? || s.tasks[t].pc.Withdrawing?)
  {
    var task := s.tasks[t];
    var lock := task.lock.value;
    var s1 := s.(locked := s.locked[lock := ByOp(o)]);
    match task.pc
    case Publishing(attempt) =>
      At(s1, t, AwaitPublish(attempt, o)).(ops := s.ops[o := Op(Publish(task.owner), lock, false, Running, Some(t))])
    case Withdrawing(before) =>
      At(s1, t, AwaitWithdraw(o)).(ops := s.ops[o := Op(Withdraw(before), lock, false, Running, Some(t))])
  }

  /** What a landing mutation does to the shared record. */
  function Landed(b: Board, m: Mutation): Board {
    match m
    case Publish(owner) => b.(record := Some(owner))
    case Withdraw(before) => b.(record := None, sealed := b.sealed + before)
  }

  /** The mutation takes effect in the store; it may do so more than once before it is over. */
  function Landing(s: State, o: OpId): State
    requires o in s.ops
  {
    s.(ops := s.ops[o := s.ops[o].(landed := true)], board := Landed(s.board, s.ops[o].mutation))
  }

  function Finishing(s: State, o: OpId, status: Status): State
    requires o in s.ops
  {
    if s.ops[o].waiter.None? then Discard(s, o)
    else s.(ops := s.ops[o := s.ops[o].(status := status)])
  }

  /** What a publication's outcome makes its caller do next. */
  function AfterPublish(task: Task, status: Status, overdue: bool): Pc
    requires task.pc.AwaitPublish?
  {
    if status == Acknowledged then (if task.kind == Insert then Published else Refreshed)
    else if status == Failed(true) && !overdue && task.pc.attempt < PUBLISH_ATTEMPTS then Publishing(task.pc.attempt + 1)
    else AfterFailure(task.kind)
  }

  /** The outcome of the operation reaches its caller together with the guard. */
  function Returning(s: State, t: TaskId, overdue: bool): State
    requires AwaitsOp(s, t)
  {
    var task := s.tasks[t];
    var s1 := HandBack(s, t, task.pc.op);
    if task.pc.AwaitWithdraw? then End(s1, t)
    else At(s1, t, AfterPublish(task, s.ops[task.pc.op].status, overdue))
  }

  /** The operation outlived the caller's patience, or took the guard down with it. */
  function Losing(s: State, t: TaskId): State
    requires t in s.tasks
  {
    if s.tasks[t].pc.AwaitPublish? then At(s, t, AfterFailure(s.tasks[t].kind)) else End(s, t)
  }

  /** The insert's second ownership check: only the current entry reports success and is refreshed. */
  function Confirming(s: State, t: TaskId, k: TaskId): State
    requires t in s.tasks && k !in s.tasks
  {
    var task := s.tasks[t];
    var b := s.board;
    var s1 := End(s, t);
    if b.entry == Some(task.owner) then
      s1.(tasks := s1.tasks[k := Task(Keepalive, task.owner, Idle, task.lock)],
          board := b.(acked := b.acked + {task.owner}))
    else
      s1.(board := b.(failed := b.failed + {task.owner}))
  }

  /** After a refresh: back to sleep, or retract it when the entry is gone meanwhile. */
  function Rechecking(s: State, t: TaskId): State
    requires t in s.tasks
  {
    var task := s.tasks[t];
    if task.pc == Refreshed then
      if task.owner in s.board.cancelled then At(s, t, Retracting)
      else At(s, t, Idle).(locked := Unlock(s.locked, ByTask(t)))
    else if Holds(s, t) && (s.board.entry.None? || s.board.entry == Some(task.owner)) then
      At(s, t, Withdrawing(s.board.installed))
    else
      End(s, t)
  }

  function RollingBackStep(s: State, t: TaskId): State
    requires t in s.tasks
  {
    At(s, t, Cancelling).(board :=
      if s.board.entry == Some(s.tasks[t].owner) then s.board.(entry := None) else s.board)
  }

  /** The installation has failed and nothing refreshes it. */
  function GivenUp(b: Board, owner: Owner): Board {
    b.(cancelled := b.cancelled + {owner}, failed := b.failed + {owner})
  }

  function CancellingOwn(s: State, t: TaskId): State
    requires t in s.tasks
  {
    End(s, t).(board := GivenUp(s.board, s.tasks[t].owner))
  }

  /** The caller's future is dropped: its guard, or a finished operation's, goes with it. */
  function Dropping(s: State, t: TaskId): State
    requires t in s.tasks
  {
    if AwaitsOp(s, t) then
      var o := s.tasks[t].pc.op;
      if s.ops[o].status == Running then End(Detach(s, o), t) else End(Discard(s, o), t)
    else
      End(s, t)
  }

  predicate Enabled(s: State, e: Event) {
    match e
    case Begin(t, owner) => t !in s.tasks && owner >= s.board.nextOwner
    case Install(t) => IsAt(s, t, Fresh)
    case BeginRemove(t) => t !in s.tasks
    case CancelPrevious(t) => t in s.tasks && s.tasks[t].pc.Uninstalled?
    case FindLock(t) => IsAt(s, t, Unlocked)
    case Wake(t) => IsAt(s, t, Idle)
    case Acquire(t) => IsAt(s, t, Waiting) && s.tasks[t].lock.Some? && s.tasks[t].lock.value !in s.locked
    case GiveUp(t) => IsAt(s, t, Waiting)
    case Check(t) => IsAt(s, t, Turn)
    case Launch(t, o) =>
      && Holds(s, t) && (s.tasks[t].pc.Publishing? || s.tasks[t].pc.Withdrawing?)
      && o !in s.ops && (forall u :: u in s.tasks && Awaiting(s.tasks[u].pc) ==> s.tasks[u].pc.op != o)
    case Land(o) => o in s.ops && s.ops[o].status == Running
    case Finish(o, status) =>
      o in s.ops && s.ops[o].status == Running && status != Running && (status == Acknowledged ==> s.ops[o].landed)
    case Panic(o) => o in s.ops && s.ops[o].status == Running
    case Return(t, _) => AwaitsOp(s, t) && s.ops[s.tasks[t].pc.op].status != Running
    case Abandon(t) => AwaitsOp(s, t) && s.ops[s.tasks[t].pc.op].status == Running
    case Lost(t) => t in s.tasks && Awaiting(s.tasks[t].pc) && !AwaitsOp(s, t)
    case Confirm(t, k) => IsAt(s, t, Published) && k !in s.tasks
    case Recheck(t) => IsAt(s, t, Refreshed) || IsAt(s, t, Retracting)
    case RollBack(t) => IsAt(s, t, RollingBack)
    case CancelOwn(t) => IsAt(s, t, Cancelling)
    case Drop(t) => t in s.tasks && !MidStep(s.tasks[t].pc)
    case Expire => true
    case Sweep => s.registry.Some? && !Live(s, s.registry.value)
  }

  function Apply(s: State, e: Event): State
    requires Enabled(s, e)
  {
    match e
    case Begin(t, owner) => Beginning(s, t, owner)
    case Install(t) => Installing(s, t)
    case BeginRemove(t) => Uninstalling(s, t)
    case CancelPrevious(t) => CancellingPrevious(s, t)
    case FindLock(t) => FindingLock(s, t)
    case Wake(t) => At(s, t, Waiting)
    case Acquire(t) => Acquiring(s, t)
    case GiveUp(t) => GivingUp(s, t)
    case Check(t) => Checking(s, t)
    case Launch(t, o) => Launching(s, t, o)
    case Land(o) => Landing(s, o)
    case Finish(o, status) => Finishing(s, o, status)
    case Panic(o) => Discard(s, o)
    case Return(t, overdue) => Returning(s, t, overdue)
    case Abandon(t) => Losing(Detach(s, s.tasks[t].pc.op), t)
    case Lost(t) => Losing(s, t)
    case Confirm(t, k) => Confirming(s, t, k)
    case Recheck(t) => Rechecking(s, t)
    case RollBack(t) => RollingBackStep(s, t)
    case CancelOwn(t) => CancellingOwn(s, t)
    case Drop(t) => Dropping(s, t)
    case Expire => s.(board := s.board.(record := None))
    case Sweep => s.(registry := None)
  }
}
