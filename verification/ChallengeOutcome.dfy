/**
 * How inserts, removals and keepalives end: an insert reports success exactly
 * when its publication was acknowledged in time and its installation is still
 * the current one, a removal that finds no entry goes on to withdraw, and no
 * installation outlives its entry without being cancelled.
 */
module ChallengeOutcome {
  import opened Wrappers
  import opened ChallengeKey
  import opened ChallengeProof
  import opened ChallengeSystem

  // ------------------------------------------------------------------
  // One step moves one task
  // ------------------------------------------------------------------

  /** Events that are not a step of any task. */
  predicate IsStoreEvent(e: Event) {
    e.Land? || e.Finish? || e.Panic? || e.Expire? || e.Sweep?
  }

  lemma StoreSparesTasks(s: State, e: Event)
    requires Enabled(s, e) && IsStoreEvent(e)
    ensures Apply(s, e).tasks == s.tasks
  {
  }

  /** A task other than the one that takes the step is not touched. */
  lemma OthersStay(s: State, e: Event, u: TaskId)
    requires Enabled(s, e) && !IsStoreEvent(e) && u != e.t && u in s.tasks
    ensures u in Apply(s, e).tasks && Apply(s, e).tasks[u] == s.tasks[u]
  {
  }

  /** A task that is not the one that takes the step was there before, or is a new keepalive. */
  lemma OthersWere(s: State, e: Event, u: TaskId)
    requires Enabled(s, e) && !IsStoreEvent(e) && u != e.t && u in Apply(s, e).tasks
    ensures
      || (u in s.tasks && Apply(s, e).tasks[u] == s.tasks[u])
      || (e.Confirm? && e.keepalive == u && u !in s.tasks && e.t in s.tasks && s.board.entry == Some(s.tasks[e.t].owner)
          && Apply(s, e).tasks[u] == Task(Keepalive, s.tasks[e.t].owner, Idle, s.tasks[e.t].lock))
  {
  }

  // ------------------------------------------------------------------
  // Outcomes
  // ------------------------------------------------------------------

  /** Which kind of task can be where. */
  predicate KindOk(task: Task) {
    match task.pc
    case Fresh => task.kind == Insert
    case Published => task.kind == Insert
    case RollingBack => task.kind == Insert
    case Cancelling => task.kind == Insert
    case Idle => task.kind == Keepalive
    case Refreshed => task.kind == Keepalive
    case Retracting => task.kind == Keepalive
    case Uninstalled(_) => task.kind == Remove
    case Publishing(attempt) => task.kind != Remove && 1 <= attempt <= 3
    case AwaitPublish(attempt, _) => task.kind != Remove && 1 <= attempt <= 3
    case Withdrawing(_) => task.kind != Insert
    case AwaitWithdraw(_) => task.kind != Insert
    case _ => true
  }

  predicate Retreats(p: Pc) {
    p == Retracting || p.Withdrawing? || p.AwaitWithdraw?
  }

  /** An insert has no outcome yet, a keepalive refreshes an acknowledged one and retreats only when cancelled. */
  predicate TaskOutcomeOk(b: Board, task: Task) {
    && KindOk(task)
    && (task.kind == Insert ==> task.owner < b.nextOwner && task.owner !in b.acked && task.owner !in b.failed)
    && (task.kind == Keepalive ==> task.owner in b.acked && (Retreats(task.pc) ==> task.owner in b.cancelled))
  }

  predicate SameInsert(task: Task, other: Task) {
    task.kind == Insert && other.kind == Insert && task.owner == other.owner
  }

  ghost predicate OutcomeInv(s: State) {
    && (forall t :: t in s.tasks ==> TaskOutcomeOk(s.board, s.tasks[t]))
    && (forall t, u :: t in s.tasks && u in s.tasks && SameInsert(s.tasks[t], s.tasks[u]) ==> t == u)
    && s.board.acked !! s.board.failed
    && (forall o :: o in s.board.acked || o in s.board.failed ==> o < s.board.nextOwner)
  }

  /** Which outcomes a step adds: at most that of the insert that takes it. */
  lemma OutcomesStep(s: State, e: Event)
    requires Enabled(s, e)
    ensures var b, b' := s.board, Apply(s, e).board;
      && b.nextOwner <= b'.nextOwner && b.cancelled <= b'.cancelled
      && (b'.acked != b.acked ==>
            e.Confirm? && b.entry == Some(s.tasks[e.t].owner) && b'.acked == b.acked + {s.tasks[e.t].owner})
      && (b'.failed != b.failed ==>
            && (e.Check? || e.Confirm? || e.CancelOwn?) && b'.failed == b.failed + {s.tasks[e.t].owner}
            && (e.Check? ==> s.tasks[e.t].kind == Insert)
            && (e.Check? || e.Confirm? ==> b.entry != Some(s.tasks[e.t].owner)))
      && (b'.acked != b.acked || b'.failed != b.failed ==> e.t !in Apply(s, e).tasks)
  {
    if SparesBoard(e) {
      BoardSpared(s, e);
    }
  }

  /** The task that takes the step is still itself, and where its kind may be. */
  predicate StaysInKind(s: State, e: Event, s': State)
    requires !IsStoreEvent(e) && e.t in s'.tasks
  {
    && KindOk(s'.tasks[e.t])
    && (e.t in s.tasks ==> s'.tasks[e.t].kind == s.tasks[e.t].kind && s'.tasks[e.t].owner == s.tasks[e.t].owner)
  }

  lemma MutatorKind(s: State, e: Event)
    requires Enabled(s, e) && IsMutation(e) && !IsStoreEvent(e) && e.t in Apply(s, e).tasks && KindOk(s.tasks[e.t])
    ensures StaysInKind(s, e, Apply(s, e))
  {
  }

  lemma ActorKind(s: State, e: Event)
    requires Enabled(s, e) && !IsStoreEvent(e) && e.t in Apply(s, e).tasks
    requires e.t in s.tasks ==> KindOk(s.tasks[e.t])
    ensures StaysInKind(s, e, Apply(s, e))
  {
    if IsMutation(e) {
      MutatorKind(s, e);
    }
  }

  /** A keepalive starts to retreat only after a refresh, when it finds itself cancelled. */
  lemma KeepaliveRetreats(s: State, e: Event)
    requires Enabled(s, e) && !IsStoreEvent(e) && e.t in s.tasks && s.tasks[e.t].kind == Keepalive
    requires e.t in Apply(s, e).tasks && Retreats(Apply(s, e).tasks[e.t].pc) && !Retreats(s.tasks[e.t].pc)
    ensures s.tasks[e.t].owner in s.board.cancelled
  {
  }

  lemma ActorOutcome(s: State, e: Event)
    requires OutcomeInv(s) && Enabled(s, e) && !IsStoreEvent(e) && e.t in Apply(s, e).tasks
    ensures TaskOutcomeOk(Apply(s, e).board, Apply(s, e).tasks[e.t])
  {
    ActorKind(s, e);
    OutcomesStep(s, e);
    if e.t in s.tasks {
      if s.tasks[e.t].kind == Keepalive && Retreats(Apply(s, e).tasks[e.t].pc) && !Retreats(s.tasks[e.t].pc) {
        KeepaliveRetreats(s, e);
      }
    }
  }

  /** Another task keeps its standing: outcomes of others are not its own. */
  lemma OtherOutcome(s: State, e: Event, u: TaskId)
    requires OutcomeInv(s) && Enabled(s, e) && u in Apply(s, e).tasks && (IsStoreEvent(e) || u != e.t)
    ensures TaskOutcomeOk(Apply(s, e).board, Apply(s, e).tasks[u])
  {
    OutcomesStep(s, e);
    if IsStoreEvent(e) {
      StoreSparesTasks(s, e);
    } else {
      OthersWere(s, e, u);
    }
  }

  lemma InsertWas(s: State, e: Event, u: TaskId)
    requires OutcomeInv(s) && Enabled(s, e) && u in Apply(s, e).tasks && Apply(s, e).tasks[u].kind == Insert
    ensures var task := Apply(s, e).tasks[u];
      || (u in s.tasks && s.tasks[u].kind == Insert && s.tasks[u].owner == task.owner)
      || (e == Begin(u, task.owner) && task.owner >= s.board.nextOwner)
  {
    if IsStoreEvent(e) {
      StoreSparesTasks(s, e);
    } else if u == e.t {
      ActorKind(s, e);
    } else {
      OthersWere(s, e, u);
    }
  }

  lemma InsertsStayDistinct(s: State, e: Event, t: TaskId, u: TaskId)
    requires OutcomeInv(s) && Enabled(s, e)
    requires var s' := Apply(s, e); t in s'.tasks && u in s'.tasks && SameInsert(s'.tasks[t], s'.tasks[u])
    ensures t == u
  {
    InsertWas(s, e, t);
    InsertWas(s, e, u);
  }

  lemma OutcomesApart(s: State, e: Event)
    requires OutcomeInv(s) && Enabled(s, e)
    ensures var b := Apply(s, e).board;
      b.acked !! b.failed && forall o :: o in b.acked || o in b.failed ==> o < b.nextOwner
  {
    OutcomesStep(s, e);
  }

  lemma OutcomeKept(s: State, e: Event)
    requires OutcomeInv(s) && Enabled(s, e)
    ensures OutcomeInv(Apply(s, e))
  {
    var s' := Apply(s, e);
    forall u | u in s'.tasks
      ensures TaskOutcomeOk(s'.board, s'.tasks[u])
    {
      if !IsStoreEvent(e) && u == e.t {
        ActorOutcome(s, e);
      } else {
        OtherOutcome(s, e, u);
      }
    }
    forall t, u | t in s'.tasks && u in s'.tasks && SameInsert(s'.tasks[t], s'.tasks[u])
      ensures t == u
    {
      InsertsStayDistinct(s, e, t, u);
    }
    OutcomesApart(s, e);
  }

  lemma {:induction false} RunOutcomes(states: seq<System>, steps: seq<Step>, i: nat, k: Key)
    requires IsRun(states, steps) && i < |states|
    ensures OutcomeInv(Of(states[i], k))
  {
    if i > 0 {
      RunOutcomes(states, steps, i - 1, k);
      assert Next(states[i - 1], steps[i - 1], states[i]);
      if steps[i - 1].key == k {
        OutcomeKept(Of(states[i - 1], k), steps[i - 1].event);
      }
    }
  }

  /** No insert both succeeds and fails. */
  lemma OkExcludesFailed(states: seq<System>, steps: seq<Step>, i: nat, j: nat, k: Key, owner: Owner)
    requires IsRun(states, steps) && i < |states| && j < |states| && owner in Of(states[i], k).board.acked
    ensures owner !in Of(states[j], k).board.failed
  {
    var n := if i < j then j else i;
    RunRemembers(states, steps, i, n, k);
    RunRemembers(states, steps, j, n, k);
    RunOutcomes(states, steps, n, k);
  }

  // ------------------------------------------------------------------
  // Why an insert fails
  // ------------------------------------------------------------------

  /** The publication `op` is over without an acknowledgement, and no attempt is left for another. */
  predicate LastAttemptFailed(op: Op, attempt: nat, overdue: bool) {
    op.status.Failed? && (!op.status.transport || overdue || attempt >= 3)
  }

  /**
   * The insert of `owner`, task `t`, fails by this event: its turn did not come, its publication
   * was given up on or ended without an acknowledgement, or its installation is not the current
   * one at one of its two checks.
   */
  predicate FailsBy(s: State, e: Event, t: TaskId, owner: Owner) {
    && t in s.tasks && s.tasks[t].kind == Insert && s.tasks[t].owner == owner
    && match e
       case GiveUp(u) => u == t && s.tasks[t].pc == Waiting
       case Check(u) => u == t && s.board.entry != Some(owner)
       case Confirm(u, _) => u == t && s.board.entry != Some(owner)
       case Abandon(u) => u == t && s.tasks[t].pc.AwaitPublish?
       case Lost(u) => u == t && s.tasks[t].pc.AwaitPublish?
       case Return(u, overdue) =>
         && u == t && s.tasks[t].pc.AwaitPublish? && s.tasks[t].pc.op in s.ops
         && LastAttemptFailed(s.ops[s.tasks[t].pc.op], s.tasks[t].pc.attempt, overdue)
       case _ => false
  }

  predicate RollsBack(s: State, t: TaskId, owner: Owner) {
    t in s.tasks && s.tasks[t].owner == owner && (s.tasks[t].pc == RollingBack || s.tasks[t].pc == Cancelling)
  }

  lemma ActorRollsBack(s: State, e: Event, owner: Owner)
    requires OutcomeInv(s) && Enabled(s, e) && !IsStoreEvent(e) && RollsBack(Apply(s, e), e.t, owner)
    ensures RollsBack(s, e.t, owner) || FailsBy(s, e, e.t, owner)
  {
  }

  lemma RollbackStep(s: State, e: Event, t: TaskId, owner: Owner)
    requires OutcomeInv(s) && Enabled(s, e) && RollsBack(Apply(s, e), t, owner)
    ensures RollsBack(s, t, owner) || FailsBy(s, e, t, owner)
  {
    if IsStoreEvent(e) {
      StoreSparesTasks(s, e);
    } else if e.t == t {
      ActorRollsBack(s, e, owner);
    } else {
      OthersWere(s, e, t);
    }
  }

  /** Step `c` is where the insert of `owner` on `k`, task `t`, fails. */
  predicate FailsAt(states: seq<System>, steps: seq<Step>, c: nat, k: Key, t: TaskId, owner: Owner)
    requires |states| == |steps| + 1
  {
    c < |steps| && steps[c].key == k && FailsBy(Of(states[c], k), steps[c].event, t, owner)
  }

  lemma {:induction false} RollbackOrigin(
    states: seq<System>, steps: seq<Step>, n: nat, k: Key, t: TaskId, owner: Owner) returns (c: nat)
    requires IsRun(states, steps) && n < |states| && RollsBack(Of(states[n], k), t, owner)
    ensures c < n && FailsAt(states, steps, c, k, t, owner)
    ensures forall m :: c < m <= n ==> RollsBack(Of(states[m], k), t, owner)
  {
    assert n > 0;
    assert Next(states[n - 1], steps[n - 1], states[n]);
    RunOutcomes(states, steps, n - 1, k);
    if RollsBack(Of(states[n - 1], k), t, owner) {
      c := RollbackOrigin(states, steps, n - 1, k, t, owner);
    } else {
      RollbackStep(Of(states[n - 1], k), steps[n - 1].event, t, owner);
      c := n - 1;
    }
  }

  lemma FailureStep(s: State, e: Event, owner: Owner)
    requires OutcomeInv(s) && Enabled(s, e) && owner in Apply(s, e).board.failed - s.board.failed
    ensures !IsStoreEvent(e) && (FailsBy(s, e, e.t, owner) || RollsBack(s, e.t, owner))
  {
    OutcomesStep(s, e);
  }

  /**
   * An insert is reported as failed only if its turn did not come, its installation was not the
   * current one at one of its two checks, or its last publication was not acknowledged in time.
   */
  lemma {:induction false} FailureHasCause(states: seq<System>, steps: seq<Step>, n: nat, k: Key, owner: Owner)
    returns (c: nat, t: TaskId)
    requires IsRun(states, steps) && n < |states| && owner in Of(states[n], k).board.failed
    ensures c < n && FailsAt(states, steps, c, k, t, owner)
  {
    assert n > 0;
    assert Next(states[n - 1], steps[n - 1], states[n]);
    if owner in Of(states[n - 1], k).board.failed {
      c, t := FailureHasCause(states, steps, n - 1, k, owner);
    } else {
      var s, e := Of(states[n - 1], k), steps[n - 1].event;
      RunOutcomes(states, steps, n - 1, k);
      FailureStep(s, e, owner);
      t := e.t;
      if FailsBy(s, e, t, owner) {
        c := n - 1;
      } else {
        c := RollbackOrigin(states, steps, n - 1, k, t, owner);
      }
    }
  }

  /** The insert of `owner` can no longer succeed: what is left of it only rolls back. */
  ghost predicate Doomed(s: State, owner: Owner) {
    && owner < s.board.nextOwner && owner !in s.board.acked
    && forall t :: t in s.tasks && s.tasks[t].kind == Insert && s.tasks[t].owner == owner ==> RollsBack(s, t, owner)
  }

  lemma ActorStaysDoomed(s: State, e: Event)
    requires OutcomeInv(s) && Enabled(s, e) && !IsStoreEvent(e) && e.t in s.tasks && RollsBack(s, e.t, s.tasks[e.t].owner)
    ensures e.t in Apply(s, e).tasks ==> RollsBack(Apply(s, e), e.t, s.tasks[e.t].owner)
    ensures Apply(s, e).board.acked == s.board.acked
  {
  }

  lemma StaysDoomed(s: State, e: Event, owner: Owner)
    requires OutcomeInv(s) && Enabled(s, e) && Doomed(s, owner)
    ensures Doomed(Apply(s, e), owner)
  {
    var s' := Apply(s, e);
    OutcomesStep(s, e);
    forall t | t in s'.tasks && s'.tasks[t].kind == Insert && s'.tasks[t].owner == owner
      ensures RollsBack(s', t, owner)
    {
      InsertWas(s, e, t);
      if IsStoreEvent(e) {
        StoreSparesTasks(s, e);
      } else if e.t == t {
        ActorStaysDoomed(s, e);
      } else {
        OthersWere(s, e, t);
      }
    }
  }

  /** After any of these events the insert rolls back or is over, and nobody else acts for its owner. */
  lemma FailureDooms(s: State, e: Event, t: TaskId, owner: Owner)
    requires OutcomeInv(s) && Enabled(s, e) && FailsBy(s, e, t, owner)
    ensures Doomed(Apply(s, e), owner)
  {
    var s' := Apply(s, e);
    OutcomesStep(s, e);
    forall u | u in s'.tasks && s'.tasks[u].kind == Insert && s'.tasks[u].owner == owner
      ensures RollsBack(s', u, owner)
    {
      InsertWas(s, e, u);
    }
  }

  /** And such a failure is final: the insert never reports success. */
  lemma {:induction false} FailureIsFinal(
    states: seq<System>, steps: seq<Step>, c: nat, i: nat, k: Key, t: TaskId, owner: Owner)
    requires IsRun(states, steps) && FailsAt(states, steps, c, k, t, owner) && c < i < |states|
    ensures Doomed(Of(states[i], k), owner)
    decreases i
  {
    assert Next(states[i - 1], steps[i - 1], states[i]);
    RunOutcomes(states, steps, i - 1, k);
    if c == i - 1 {
      FailureDooms(Of(states[c], k), steps[c].event, t, owner);
    } else {
      FailureIsFinal(states, steps, c, i - 1, k, t, owner);
      if steps[i - 1].key == k {
        StaysDoomed(Of(states[i - 1], k), steps[i - 1].event, owner);
      }
    }
  }

  // ------------------------------------------------------------------
  // Why an insert succeeds
  // ------------------------------------------------------------------

  /** Task `t` acts for `owner` and is past its first check, on its way to publish or having published. */
  predicate Publishes(s: State, t: TaskId, owner: Owner) {
    && t in s.tasks && s.tasks[t].kind == Insert && s.tasks[t].owner == owner
    && (s.tasks[t].pc.Publishing? || s.tasks[t].pc.AwaitPublish? || s.tasks[t].pc == Published)
  }

  lemma ActorPublishes(s: State, e: Event, owner: Owner)
    requires OutcomeInv(s) && Enabled(s, e) && !IsStoreEvent(e) && Publishes(Apply(s, e), e.t, owner)
    ensures Publishes(s, e.t, owner) || (e == Check(e.t) && s.board.entry == Some(owner))
  {
  }

  lemma PublishesStep(s: State, e: Event, t: TaskId, owner: Owner)
    requires OutcomeInv(s) && Enabled(s, e) && Publishes(Apply(s, e), t, owner)
    ensures Publishes(s, t, owner) || (e == Check(t) && s.board.entry == Some(owner))
  {
    if IsStoreEvent(e) {
      StoreSparesTasks(s, e);
    } else if e.t == t {
      ActorPublishes(s, e, owner);
    } else {
      OthersWere(s, e, t);
    }
  }

  /** An insert that publishes has found its own entry at its first check. */
  lemma {:induction false} CheckOrigin(
    states: seq<System>, steps: seq<Step>, n: nat, k: Key, t: TaskId, owner: Owner) returns (c: nat)
    requires IsRun(states, steps) && n < |states| && Publishes(Of(states[n], k), t, owner)
    ensures c < n && steps[c] == Step(k, Check(t)) && Of(states[c], k).board.entry == Some(owner)
    ensures forall m :: c < m <= n ==> Publishes(Of(states[m], k), t, owner)
  {
    assert n > 0;
    assert Next(states[n - 1], steps[n - 1], states[n]);
    RunOutcomes(states, steps, n - 1, k);
    if Publishes(Of(states[n - 1], k), t, owner) {
      c := CheckOrigin(states, steps, n - 1, k, t, owner);
    } else {
      PublishesStep(Of(states[n - 1], k), steps[n - 1].event, t, owner);
      c := n - 1;
    }
  }

  predicate HasPublished(s: State, t: TaskId, owner: Owner) {
    Publishes(s, t, owner) && s.tasks[t].pc == Published
  }

  /** The insert `t` of `owner` awaits its publication `o`. */
  predicate AwaitsPublication(s: State, t: TaskId, owner: Owner, o: OpId) {
    Publishes(s, t, owner) && s.tasks[t].pc.AwaitPublish? && s.tasks[t].pc.op == o
  }

  /** The event brings the insert `t` of `owner` the acknowledgement of its publication `o`. */
  predicate Acknowledges(s: State, e: Event, t: TaskId, owner: Owner, o: OpId) {
    && e.Return? && e.t == t && AwaitsPublication(s, t, owner, o)
    && o in s.ops && s.ops[o].status == Acknowledged && s.ops[o].mutation == Publish(owner)
  }

  lemma OnlyReturnPublishes(s: State, e: Event, owner: Owner)
    requires Enabled(s, e) && !IsStoreEvent(e) && HasPublished(Apply(s, e), e.t, owner)
    ensures e.Return?
  {
  }

  lemma ActorPublished(s: State, e: Event, owner: Owner)
    requires Inv(s) && Enabled(s, e) && !IsStoreEvent(e) && HasPublished(Apply(s, e), e.t, owner)
    ensures e.t in s.tasks && s.tasks[e.t].pc.AwaitPublish? && Acknowledges(s, e, e.t, owner, s.tasks[e.t].pc.op)
  {
    OnlyReturnPublishes(s, e, owner);
    assert TaskWaitOk(s.ops, e.t, s.tasks[e.t]);
  }

  lemma PublishedStep(s: State, e: Event, t: TaskId, owner: Owner)
    requires Inv(s) && Enabled(s, e) && HasPublished(Apply(s, e), t, owner) && !HasPublished(s, t, owner)
    ensures t in s.tasks && s.tasks[t].pc.AwaitPublish? && Acknowledges(s, e, t, owner, s.tasks[t].pc.op)
  {
    if IsStoreEvent(e) {
      StoreSparesTasks(s, e);
    } else if e.t == t {
      ActorPublished(s, e, owner);
    } else {
      OthersWere(s, e, t);
    }
  }

  /** An insert has published only once its own publication was acknowledged. */
  lemma {:induction false} PublishedOrigin(
    states: seq<System>, steps: seq<Step>, n: nat, k: Key, t: TaskId, owner: Owner)
    returns (r: nat, o: OpId)
    requires IsRun(states, steps) && n < |states| && HasPublished(Of(states[n], k), t, owner)
    ensures r < n && steps[r].key == k && Acknowledges(Of(states[r], k), steps[r].event, t, owner, o)
    ensures forall m :: r < m <= n ==> HasPublished(Of(states[m], k), t, owner)
  {
    assert n > 0;
    assert Next(states[n - 1], steps[n - 1], states[n]);
    if HasPublished(Of(states[n - 1], k), t, owner) {
      r, o := PublishedOrigin(states, steps, n - 1, k, t, owner);
    } else {
      RunKeyInv(states, steps, n - 1, k);
      PublishedStep(Of(states[n - 1], k), steps[n - 1].event, t, owner);
      r, o := n - 1, Of(states[n - 1], k).tasks[t].pc.op;
    }
  }

  predicate Launches(s: State, e: Event, t: TaskId, owner: Owner, o: OpId) {
    e == Launch(t, o) && Publishes(s, t, owner) && s.tasks[t].pc.Publishing? && o !in s.ops
  }

  lemma ActorAwaits(s: State, e: Event, owner: Owner, o: OpId)
    requires Enabled(s, e) && !IsStoreEvent(e) && AwaitsPublication(Apply(s, e), e.t, owner, o)
    ensures AwaitsPublication(s, e.t, owner, o) || Launches(s, e, e.t, owner, o)
  {
  }

  lemma AwaitStep(s: State, e: Event, t: TaskId, owner: Owner, o: OpId)
    requires Enabled(s, e) && AwaitsPublication(Apply(s, e), t, owner, o)
    ensures AwaitsPublication(s, t, owner, o) || Launches(s, e, t, owner, o)
  {
    if IsStoreEvent(e) {
      StoreSparesTasks(s, e);
    } else if e.t == t {
      ActorAwaits(s, e, owner, o);
    } else {
      OthersWere(s, e, t);
    }
  }

  /** A publication awaited by a task was launched by that task. */
  lemma {:induction false} AwaitOrigin(
    states: seq<System>, steps: seq<Step>, n: nat, k: Key, t: TaskId, owner: Owner, o: OpId)
    returns (l: nat)
    requires IsRun(states, steps) && n < |states| && AwaitsPublication(Of(states[n], k), t, owner, o)
    ensures l < n && steps[l].key == k && Launches(Of(states[l], k), steps[l].event, t, owner, o)
    ensures forall m :: l < m <= n ==> AwaitsPublication(Of(states[m], k), t, owner, o)
  {
    assert n > 0;
    assert Next(states[n - 1], steps[n - 1], states[n]);
    if AwaitsPublication(Of(states[n - 1], k), t, owner, o) {
      l := AwaitOrigin(states, steps, n - 1, k, t, owner, o);
    } else {
      AwaitStep(Of(states[n - 1], k), steps[n - 1].event, t, owner, o);
      l := n - 1;
    }
  }

  predicate HasLanded(s: State, o: OpId) {
    o in s.ops && s.ops[o].landed
  }

  lemma LandedStep(s: State, e: Event, o: OpId)
    requires Enabled(s, e) && HasLanded(Apply(s, e), o)
    ensures HasLanded(s, o) || e == Land(o)
    ensures o in s.ops && s.ops[o].mutation == Apply(s, e).ops[o].mutation
  {
  }

  /** A mutation that has landed did so at some step, and has been the same operation since. */
  lemma {:induction false} LandOrigin(states: seq<System>, steps: seq<Step>, n: nat, k: Key, o: OpId) returns (d: nat)
    requires IsRun(states, steps) && n < |states| && HasLanded(Of(states[n], k), o)
    ensures d < n && steps[d] == Step(k, Land(o))
    ensures forall m :: d <= m <= n ==>
      o in Of(states[m], k).ops && Of(states[m], k).ops[o].mutation == Of(states[n], k).ops[o].mutation
  {
    assert n > 0;
    assert Next(states[n - 1], steps[n - 1], states[n]);
    if steps[n - 1].key == k {
      LandedStep(Of(states[n - 1], k), steps[n - 1].event, o);
    }
    if HasLanded(Of(states[n - 1], k), o) {
      d := LandOrigin(states, steps, n - 1, k, o);
    } else {
      d := n - 1;
    }
  }

  /** The steps of a successful insert. */
  datatype Story = Story(
    task: TaskId, op: OpId, checked: nat, launched: nat, landed: nat, returned: nat, confirmed: nat)

  /**
   * The insert of `owner` on `k` succeeds by these steps: it finds its own entry, launches its
   * publication, which lands and is acknowledged to it, and finds its own entry again.
   */
  ghost predicate Succeeds(states: seq<System>, steps: seq<Step>, k: Key, owner: Owner, y: Story)
    requires IsRun(states, steps)
  {
    && y.checked < y.launched < y.landed < y.returned < y.confirmed < |steps|
    && steps[y.checked] == Step(k, Check(y.task)) && Of(states[y.checked], k).board.entry == Some(owner)
    && steps[y.launched] == Step(k, Launch(y.task, y.op))
    && steps[y.landed] == Step(k, Land(y.op))
    && steps[y.returned].key == k
    && Acknowledges(Of(states[y.returned], k), steps[y.returned].event, y.task, owner, y.op)
    && (forall m :: y.landed <= m <= y.returned ==>
          y.op in Of(states[m], k).ops && Of(states[m], k).ops[y.op].mutation == Publish(owner))
    && (forall m :: y.returned < m <= y.confirmed ==> HasPublished(Of(states[m], k), y.task, owner))
    && ReturnsOk(states, steps, y.confirmed, k, y.task, owner)
  }

  lemma ConfirmedStory(states: seq<System>, steps: seq<Step>, j: nat, k: Key, t: TaskId, owner: Owner) returns (y: Story)
    requires IsRun(states, steps) && ReturnsOk(states, steps, j, k, t, owner)
    ensures Succeeds(states, steps, k, owner, y) && y.confirmed == j && y.task == t
  {
    RunOutcomes(states, steps, j, k);
    assert Next(states[j], steps[j], states[j + 1]);
    var r, o := PublishedOrigin(states, steps, j, k, t, owner);
    RunKeyInv(states, steps, r, k);
    var l := AwaitOrigin(states, steps, r, k, t, owner, o);
    var d := LandOrigin(states, steps, r, k, o);
    var c := CheckOrigin(states, steps, l, k, t, owner);
    y := Story(t, o, c, l, d, r, j);
  }

  /** An insert that reported success did so by such steps. */
  lemma {:induction false} OkHasCause(states: seq<System>, steps: seq<Step>, n: nat, k: Key, owner: Owner) returns (y: Story)
    requires IsRun(states, steps) && n < |states| && owner in Of(states[n], k).board.acked
    ensures Succeeds(states, steps, k, owner, y) && y.confirmed < n
  {
    assert n > 0;
    assert Next(states[n - 1], steps[n - 1], states[n]);
    if owner in Of(states[n - 1], k).board.acked {
      y := OkHasCause(states, steps, n - 1, k, owner);
    } else {
      OutcomesStep(Of(states[n - 1], k), steps[n - 1].event);
      y := ConfirmedStory(states, steps, n - 1, k, steps[n - 1].event.t, owner);
    }
  }

  // ------------------------------------------------------------------
  // What follows an acknowledgement
  // ------------------------------------------------------------------

  /** The acknowledgement leaves the insert with the guard and its second check to make. */
  lemma AcknowledgementArrives(s: State, e: Event, t: TaskId, owner: Owner, o: OpId)
    requires Inv(s) && Enabled(s, e) && Acknowledges(s, e, t, owner, o)
    ensures HasPublished(Apply(s, e), t, owner) && Holds(Apply(s, e), t) && Apply(s, e).board == s.board
  {
    StepKeeps(s, e);
    assert TaskLockOk(Apply(s, e).registry, Apply(s, e).locked, t, Apply(s, e).tasks[t]);
  }

  lemma PublishedWaits(s: State, e: Event, t: TaskId, owner: Owner)
    requires Enabled(s, e) && HasPublished(s, t, owner) && e != Drop(t) && !(e.Confirm? && e.t == t)
    ensures HasPublished(Apply(s, e), t, owner)
  {
    if IsStoreEvent(e) {
      StoreSparesTasks(s, e);
    } else if e.t != t {
      OthersStay(s, e, t);
    }
  }

  /** Nobody drops the insert or makes its second check at steps `first` to `last`. */
  ghost predicate LeftAlone(steps: seq<Step>, k: Key, t: TaskId, first: nat, last: nat) {
    forall m {:trigger steps[m]} :: first <= m < last && m < |steps| && steps[m].key == k ==>
      steps[m].event != Drop(t) && !(steps[m].event.Confirm? && steps[m].event.t == t)
  }

  /**
   * Once its publication is acknowledged, an insert keeps the guard until its second check, unless
   * its caller is dropped.
   */
  lemma {:induction false} AcknowledgedWaits(
    states: seq<System>, steps: seq<Step>, r: nat, n: nat, k: Key, t: TaskId, owner: Owner, o: OpId)
    requires IsRun(states, steps) && r < n < |states| && LeftAlone(steps, k, t, r + 1, n)
    requires steps[r].key == k && Acknowledges(Of(states[r], k), steps[r].event, t, owner, o)
    ensures HasPublished(Of(states[n], k), t, owner) && Holds(Of(states[n], k), t)
    decreases n
  {
    RunKeyInv(states, steps, n - 1, k);
    RunKeyInv(states, steps, n, k);
    assert Next(states[n - 1], steps[n - 1], states[n]);
    if r == n - 1 {
      AcknowledgementArrives(Of(states[r], k), steps[r].event, t, owner, o);
    } else {
      AcknowledgedWaits(states, steps, r, n - 1, k, t, owner, o);
      if steps[n - 1].key == k {
        PublishedWaits(Of(states[n - 1], k), steps[n - 1].event, t, owner);
      }
    }
    var s := Of(states[n], k);
    assert TaskLockOk(s.registry, s.locked, t, s.tasks[t]);
  }

  /** The state after an insert has reported success: its entry and record stay, a keepalive takes over the lock object. */
  predicate Reported(s: State, s': State, t: TaskId, keepalive: TaskId, owner: Owner)
    requires t in s.tasks
  {
    && s'.board == s.board.(acked := s.board.acked + {owner})
    && s'.tasks == (s.tasks - {t})[keepalive := Task(Keepalive, owner, Idle, s.tasks[t].lock)]
    && (s.tasks[t].lock.Some? ==> s.tasks[t].lock.value !in s'.locked)
  }

  /** The second check decides: success exactly for the current installation, failure for any other. */
  lemma ConfirmDecides(states: seq<System>, steps: seq<Step>, j: nat, k: Key, t: TaskId, owner: Owner)
    requires IsRun(states, steps) && j < |steps| && steps[j].key == k && steps[j].event.Confirm? && steps[j].event.t == t
    requires HasPublished(Of(states[j], k), t, owner)
    ensures var s, s' := Of(states[j], k), Of(states[j + 1], k);
      && (s.board.entry == Some(owner) ==> Reported(s, s', t, steps[j].event.keepalive, owner))
      && (s.board.entry != Some(owner) ==>
            && s'.board == s.board.(failed := s.board.failed + {owner}) && s'.tasks == s.tasks - {t}
            && (s.tasks[t].lock.Some? ==> s.tasks[t].lock.value !in s'.locked))
  {
    RunKeyInv(states, steps, j, k);
    var s := Of(states[j], k);
    assert Next(states[j], steps[j], states[j + 1]);
    assert TaskLockOk(s.registry, s.locked, t, s.tasks[t]);
  }

  // ------------------------------------------------------------------
  // Removals
  // ------------------------------------------------------------------

  predicate IsRemoval(s: State, t: TaskId) {
    t in s.tasks && s.tasks[t].kind == Remove
  }

  /** A removal's check: with no entry it goes on to withdraw everything installed so far, with one it ends. */
  lemma RemovalChecks(s: State, t: TaskId)
    requires Inv(s) && IsRemoval(s, t) && Enabled(s, Check(t))
    ensures var s' := Apply(s, Check(t));
      && s'.board == s.board
      && (s.board.entry.None? ==> IsAt(s', t, Withdrawing(s.board.installed)) && IsRemoval(s', t) && Holds(s', t))
      && (s.board.entry.Some? ==> t !in s'.tasks)
  {
    StepKeeps(s, Check(t));
    if s.board.entry.None? {
      var s' := Apply(s, Check(t));
      assert TaskLockOk(s'.registry, s'.locked, t, s'.tasks[t]);
    }
  }

  lemma WithdrawalWaits(s: State, e: Event, t: TaskId, before: set<Owner>)
    requires Enabled(s, e) && IsAt(s, t, Withdrawing(before)) && e != Drop(t) && !(e.Launch? && e.t == t)
    ensures IsAt(Apply(s, e), t, Withdrawing(before))
  {
    if IsStoreEvent(e) {
      StoreSparesTasks(s, e);
    } else if e.t != t {
      OthersStay(s, e, t);
    }
  }

  /** Nobody drops the task or lets it launch at steps `first` to `last`. */
  ghost predicate NotLaunched(steps: seq<Step>, k: Key, t: TaskId, first: nat, last: nat) {
    forall m {:trigger steps[m]} :: first <= m < last && m < |steps| && steps[m].key == k ==>
      steps[m].event != Drop(t) && !(steps[m].event.Launch? && steps[m].event.t == t)
  }

  /**
   * A removal whose check finds no entry keeps the guard and the duty to withdraw everything
   * installed until then, up to its launch, unless its caller is dropped.
   */
  lemma {:induction false} RemovalGoesOn(states: seq<System>, steps: seq<Step>, a: nat, n: nat, k: Key, t: TaskId)
    requires IsRun(states, steps) && a < n < |states| && NotLaunched(steps, k, t, a + 1, n)
    requires steps[a] == Step(k, Check(t)) && IsRemoval(Of(states[a], k), t) && Of(states[a], k).board.entry.None?
    ensures IsAt(Of(states[n], k), t, Withdrawing(Of(states[a], k).board.installed)) && Holds(Of(states[n], k), t)
    decreases n
  {
    var before := Of(states[a], k).board.installed;
    RunKeyInv(states, steps, n, k);
    assert Next(states[n - 1], steps[n - 1], states[n]);
    if a == n - 1 {
      RunKeyInv(states, steps, a, k);
      RemovalChecks(Of(states[a], k), t);
    } else {
      RemovalGoesOn(states, steps, a, n - 1, k, t);
      if steps[n - 1].key == k {
        WithdrawalWaits(Of(states[n - 1], k), steps[n - 1].event, t, before);
      }
    }
    var s := Of(states[n], k);
    assert TaskLockOk(s.registry, s.locked, t, s.tasks[t]);
  }

  /** The launch makes the operation withdraw what the check admitted, in place of the task's guard. */
  lemma WithdrawalLaunches(s: State, t: TaskId, o: OpId, before: set<Owner>)
    requires Inv(s) && IsAt(s, t, Withdrawing(before)) && o !in s.ops
    requires forall u :: u in s.tasks && Awaiting(s.tasks[u].pc) ==> s.tasks[u].pc.op != o
    ensures Enabled(s, Launch(t, o))
    ensures var s' := Apply(s, Launch(t, o));
      && IsWithdrawal(s', o, before) && s'.ops[o].waiter == Some(t) && s'.ops[o].lock in s'.locked
      && s'.locked[s'.ops[o].lock] == ByOp(o) && s'.board == s.board
  {
    assert TaskLockOk(s.registry, s.locked, t, s.tasks[t]);
  }
}
