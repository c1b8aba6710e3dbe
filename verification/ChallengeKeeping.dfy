/**
 * What is kept up while a challenge is installed, and what stops with it: the
 * entry, its record in the shared store, its keepalive and its cancellation.
 */
module ChallengeKeeping {
  import opened Wrappers
  import opened ChallengeKey
  import opened ChallengeProof
  import opened ChallengeSystem
  import opened ChallengeOutcome

  // ------------------------------------------------------------------
  // The entry
  // ------------------------------------------------------------------

  /** The event takes the entry of `owner` out: a replacement, a removal, or the roll-back of its own insert. */
  predicate TakesOut(s: State, e: Event, owner: Owner) {
    || e.Install?
    || e.BeginRemove?
    || (e.RollBack? && RollsBack(s, e.t, owner) && s.tasks[e.t].kind == Insert)
  }

  lemma EntryStep(s: State, e: Event)
    requires OutcomeInv(s) && Enabled(s, e)
    ensures var b, b' := s.board, Apply(s, e).board;
      && (b'.entry != b.entry && b.entry.Some? ==> TakesOut(s, e, b.entry.value))
      && (b'.entry != b.entry && b'.entry.Some? ==>
            e.Install? && b'.entry.value == s.tasks[e.t].owner && b'.entry.value in b'.installed)
      && (b'.installed != b.installed ==> e.Install? && b'.installed == b.installed + {s.tasks[e.t].owner})
      && (e.Install? ==> b'.entry == Some(s.tasks[e.t].owner))
      && (e.BeginRemove? ==> b'.entry == None)
  {
    if SparesBoard(e) {
      BoardSpared(s, e);
    }
  }

  /**
   * An entry that is no longer there was replaced or removed, or its own insert failed; the step
   * that took it out lies in between.
   */
  lemma {:induction false} EntryLeaves(states: seq<System>, steps: seq<Step>, i: nat, n: nat, k: Key, owner: Owner)
    returns (c: nat)
    requires IsRun(states, steps) && i <= n < |states|
    requires Of(states[i], k).board.entry == Some(owner) && Of(states[n], k).board.entry != Some(owner)
    ensures i <= c < n && steps[c].key == k && Of(states[c], k).board.entry == Some(owner)
    ensures TakesOut(Of(states[c], k), steps[c].event, owner)
    decreases n
  {
    assert Next(states[n - 1], steps[n - 1], states[n]);
    if Of(states[n - 1], k).board.entry != Some(owner) {
      c := EntryLeaves(states, steps, i, n - 1, k, owner);
    } else {
      RunOutcomes(states, steps, n - 1, k);
      EntryStep(Of(states[n - 1], k), steps[n - 1].event);
      c := n - 1;
    }
  }

  /** An installation that is the current one has been so ever since it was installed. */
  lemma {:induction false} EntryStays(states: seq<System>, steps: seq<Step>, i: nat, n: nat, k: Key, owner: Owner)
    requires IsRun(states, steps) && i <= n < |states|
    requires owner in Of(states[i], k).board.installed && Of(states[n], k).board.entry == Some(owner)
    ensures Of(states[i], k).board.entry == Some(owner)
    decreases n
  {
    if i < n {
      RunRemembers(states, steps, i, n - 1, k);
      assert Next(states[n - 1], steps[n - 1], states[n]);
      RunOutcomes(states, steps, n - 1, k);
      RunKeyInv(states, steps, n - 1, k);
      if steps[n - 1].key == k {
        var s, e := Of(states[n - 1], k), steps[n - 1].event;
        EntryStep(s, e);
        assert e.Install? ==> TaskBoardOk(s.board, s.tasks[e.t]);
      }
      EntryStays(states, steps, i, n - 1, k, owner);
    }
  }

  // ------------------------------------------------------------------
  // Cancellation
  // ------------------------------------------------------------------

  /** The task is about to cancel the refresh of `owner`. */
  predicate Cancels(task: Task, owner: Owner) {
    task.pc == Uninstalled(Some(owner)) || (task.pc == Cancelling && task.owner == owner)
  }

  /** The installation is current, cancelled, or about to be cancelled by the task that took it out. */
  ghost predicate Tracked(s: State, owner: Owner) {
    || s.board.entry == Some(owner)
    || owner in s.board.cancelled
    || (exists t :: t in s.tasks && Cancels(s.tasks[t], owner))
  }

  ghost predicate CancelInv(s: State) {
    forall o :: o in s.board.installed ==> Tracked(s, o)
  }

  lemma CancellerStep(s: State, e: Event, t: TaskId, owner: Owner)
    requires Enabled(s, e) && t in s.tasks && Cancels(s.tasks[t], owner)
    ensures Tracked(Apply(s, e), owner)
  {
    if IsStoreEvent(e) {
      StoreSparesTasks(s, e);
    } else if e.t != t {
      OthersStay(s, e, t);
    }
  }

  lemma TakerCancels(s: State, e: Event, owner: Owner)
    requires Enabled(s, e) && s.board.entry == Some(owner) && TakesOut(s, e, owner)
    ensures Tracked(Apply(s, e), owner)
  {
    if !e.Install? {
      assert e.t in Apply(s, e).tasks && Cancels(Apply(s, e).tasks[e.t], owner);
    }
  }

  lemma TrackedStep(s: State, e: Event, owner: Owner)
    requires OutcomeInv(s) && CancelInv(s) && Enabled(s, e) && owner in Apply(s, e).board.installed
    ensures Tracked(Apply(s, e), owner)
  {
    EntryStep(s, e);
    OutcomesStep(s, e);
    if s.board.entry == Some(owner) {
      if Apply(s, e).board.entry != s.board.entry {
        TakerCancels(s, e, owner);
      }
    } else if owner in s.board.installed && owner !in s.board.cancelled {
      var t :| t in s.tasks && Cancels(s.tasks[t], owner);
      CancellerStep(s, e, t, owner);
    }
  }

  /** No installation outlives its entry without its refresh being cancelled, or about to be. */
  lemma {:induction false} UninstalledIsCancelled(states: seq<System>, steps: seq<Step>, n: nat, k: Key)
    requires IsRun(states, steps) && n < |states|
    ensures CancelInv(Of(states[n], k))
  {
    if n > 0 {
      UninstalledIsCancelled(states, steps, n - 1, k);
      RunOutcomes(states, steps, n - 1, k);
      assert Next(states[n - 1], steps[n - 1], states[n]);
      if steps[n - 1].key == k {
        var s, e := Of(states[n - 1], k), steps[n - 1].event;
        forall o | o in Apply(s, e).board.installed
          ensures Tracked(Apply(s, e), o)
        {
          TrackedStep(s, e, o);
        }
      }
    }
  }

  // ------------------------------------------------------------------
  // The record
  // ------------------------------------------------------------------

  lemma RecordStep(s: State, e: Event)
    requires Enabled(s, e) && Apply(s, e).board.record != s.board.record
    ensures e == Expire || (e.Land? && Apply(s, e).board == Landed(s.board, s.ops[e.op].mutation))
  {
    if SparesBoard(e) {
      BoardSpared(s, e);
    }
  }

  lemma LandingPublishes(s: State, o: OpId, owner: Owner)
    requires Enabled(s, Land(o)) && s.ops[o].mutation == Publish(owner)
    ensures Apply(s, Land(o)).board.record == Some(owner)
  {
  }

  /** While a successful insert's entry is the current one, no mutation but its own is under way from its landing on. */
  lemma OnlyItsOwn(states: seq<System>, steps: seq<Step>, y: Story, m: nat, k: Key, owner: Owner, o: OpId)
    requires IsRun(states, steps) && Succeeds(states, steps, k, owner, y) && y.landed <= m < |states|
    requires o in Of(states[m], k).ops && Of(states[m], k).board.entry == Some(owner)
    ensures Of(states[m], k).ops[o].mutation == Publish(owner)
  {
    OneMutationPerKey(states, steps, m, k);
    if m > y.confirmed {
      AcknowledgedRecordIsOwn(states, steps, y.confirmed, m, k, y.task, owner);
    } else if m > y.returned {
      RunKeyInv(states, steps, m, k);
      var s := Of(states[m], k);
      assert HasPublished(s, y.task, owner);
      assert TaskLockOk(s.registry, s.locked, y.task, s.tasks[y.task]);
      assert Holds(s, y.task);
    }
  }

  /** The record of `k` does not expire at steps `first` to `last`. */
  ghost predicate Unexpired(steps: seq<Step>, k: Key, first: nat, last: nat) {
    forall m {:trigger steps[m]} :: first <= m < last && m < |steps| ==> steps[m] != Step(k, Expire)
  }

  /** No mutation but publications of `owner` is under way. */
  predicate OnlyPublishes(s: State, owner: Owner) {
    forall o :: o in s.ops ==> s.ops[o].mutation == Publish(owner)
  }

  /** Where only `owner` mutates the store, its record stays, and a landing brings it. */
  lemma RecordStays(s: State, e: Event, owner: Owner)
    requires Enabled(s, e) && e != Expire && (s.board.record == Some(owner) || e.Land?)
    requires OnlyPublishes(s, owner)
    ensures Apply(s, e).board.record == Some(owner)
  {
    if e.Land? {
      LandingPublishes(s, e.op, owner);
    } else if Apply(s, e).board.record != s.board.record {
      RecordStep(s, e);
    }
  }

  lemma StillInstalled(states: seq<System>, steps: seq<Step>, y: Story, m: nat, k: Key, owner: Owner)
    requires IsRun(states, steps) && Succeeds(states, steps, k, owner, y) && y.checked <= m < |states|
    ensures owner in Of(states[m], k).board.installed
  {
    RunKeyInv(states, steps, y.checked, k);
    RunRemembers(states, steps, y.checked, m, k);
  }

  predicate PublishesAt(states: seq<System>, m: int, k: Key, owner: Owner) {
    0 <= m < |states| && OnlyPublishes(Of(states[m], k), owner)
  }

  lemma AllItsOwn(states: seq<System>, steps: seq<Step>, y: Story, m: nat, i: nat, k: Key, owner: Owner)
    requires IsRun(states, steps) && Succeeds(states, steps, k, owner, y) && y.landed <= m < i < |states|
    requires Of(states[i], k).board.entry == Some(owner)
    ensures PublishesAt(states, m, k, owner)
  {
    StillInstalled(states, steps, y, m, k, owner);
    EntryStays(states, steps, m, i, k, owner);
    forall o | o in Of(states[m], k).ops
      ensures Of(states[m], k).ops[o].mutation == Publish(owner)
    {
      OnlyItsOwn(states, steps, y, m, k, owner, o);
    }
  }

  lemma {:induction false} RecordSince(states: seq<System>, steps: seq<Step>, d: nat, i: nat, k: Key, owner: Owner)
    requires IsRun(states, steps) && d < i < |states| && steps[d].key == k && steps[d].event.Land?
    requires Unexpired(steps, k, d, i)
    requires forall m :: d <= m < i ==> PublishesAt(states, m, k, owner)
    ensures Of(states[i], k).board.record == Some(owner)
    decreases i
  {
    var m := i - 1;
    assert Next(states[m], steps[m], states[i]);
    if d < m {
      RecordSince(states, steps, d, m, k, owner);
    }
    if steps[m].key == k {
      assert PublishesAt(states, m, k, owner);
      RecordStays(Of(states[m], k), steps[m].event, owner);
    }
  }

  /**
   * A successful insert's record is in the shared store from its landing on, for as long as its
   * entry is the current one and the record does not expire.
   */
  lemma RecordStands(states: seq<System>, steps: seq<Step>, y: Story, i: nat, k: Key, owner: Owner)
    requires IsRun(states, steps) && Succeeds(states, steps, k, owner, y) && y.landed < i < |states|
    requires Of(states[i], k).board.entry == Some(owner) && Unexpired(steps, k, y.landed, i)
    ensures Of(states[i], k).board.record == Some(owner)
  {
    forall m: nat | y.landed <= m < i {
      AllItsOwn(states, steps, y, m, i, k, owner);
    }
    RecordSince(states, steps, y.landed, i, k, owner);
  }

  // ------------------------------------------------------------------
  // The keepalive
  // ------------------------------------------------------------------

  predicate Keeps(s: State, t: TaskId, owner: Owner) {
    t in s.tasks && s.tasks[t].kind == Keepalive && s.tasks[t].owner == owner
  }

  lemma ActorKeeps(s: State, e: Event, owner: Owner)
    requires OutcomeInv(s) && Enabled(s, e) && !IsStoreEvent(e) && Keeps(s, e.t, owner) && e != Drop(e.t)
    requires s.board.entry == Some(owner) && owner !in s.board.cancelled
    ensures Keeps(Apply(s, e), e.t, owner)
  {
  }

  lemma KeepaliveStep(s: State, e: Event, t: TaskId, owner: Owner)
    requires Inv(s) && OutcomeInv(s) && Enabled(s, e) && Keeps(s, t, owner) && e != Drop(t)
    requires s.board.entry == Some(owner)
    ensures Keeps(Apply(s, e), t, owner)
  {
    if IsStoreEvent(e) {
      StoreSparesTasks(s, e);
    } else if e.t == t {
      ActorKeeps(s, e, owner);
    } else {
      OthersStay(s, e, t);
    }
  }

  /** The keepalive of a successful insert lasts as long as its entry is the current one, unless it is dropped. */
  lemma {:induction false} KeepaliveLasts(
    states: seq<System>, steps: seq<Step>, j: nat, i: nat, k: Key, t: TaskId, owner: Owner)
    requires IsRun(states, steps) && ReturnsOk(states, steps, j, k, t, owner) && j < i < |states|
    requires Of(states[i], k).board.entry == Some(owner)
    requires forall m {:trigger steps[m]} :: j < m < i ==> steps[m] != Step(k, Drop(steps[j].event.keepalive))
    ensures Keeps(Of(states[i], k), steps[j].event.keepalive, owner)
    decreases i
  {
    var keepalive := steps[j].event.keepalive;
    assert Next(states[i - 1], steps[i - 1], states[i]);
    if j < i - 1 {
      RunKeyInv(states, steps, j, k);
      RunRemembers(states, steps, j, i - 1, k);
      EntryStays(states, steps, i - 1, i, k, owner);
      KeepaliveLasts(states, steps, j, i - 1, k, t, owner);
      if steps[i - 1].key == k {
        RunKeyInv(states, steps, i - 1, k);
        RunOutcomes(states, steps, i - 1, k);
        KeepaliveStep(Of(states[i - 1], k), steps[i - 1].event, keepalive, owner);
      }
    }
  }

  /** With its entry the current one, whoever has its turn to publish goes on to do so with the guard. */
  lemma OwnerPublishes(s: State, t: TaskId)
    requires Inv(s) && Enabled(s, Check(t)) && s.tasks[t].kind != Remove && s.board.entry == Some(s.tasks[t].owner)
    ensures var s' := Apply(s, Check(t));
      IsAt(s', t, Publishing(1)) && Holds(s', t) && s'.board == s.board && s'.tasks[t].owner == s.tasks[t].owner
  {
    StepKeeps(s, Check(t));
    var s' := Apply(s, Check(t));
    assert TaskLockOk(s'.registry, s'.locked, t, s'.tasks[t]);
  }

  /** The launch makes the operation publish the owner's record, in place of the task's guard. */
  lemma PublicationLaunches(s: State, t: TaskId, o: OpId)
    requires Inv(s) && t in s.tasks && s.tasks[t].pc.Publishing? && o !in s.ops
    requires forall u :: u in s.tasks && Awaiting(s.tasks[u].pc) ==> s.tasks[u].pc.op != o
    ensures Enabled(s, Launch(t, o))
    ensures var s' := Apply(s, Launch(t, o));
      && o in s'.ops && s'.ops[o].mutation == Publish(s.tasks[t].owner) && s'.ops[o].waiter == Some(t)
      && s'.ops[o].lock in s'.locked && s'.locked[s'.ops[o].lock] == ByOp(o) && s'.board == s.board
  {
    assert TaskLockOk(s.registry, s.locked, t, s.tasks[t]);
  }

  /** A keepalive that finds itself cancelled after a refresh retracts it, one that does not goes back to sleep. */
  lemma RefreshEnds(s: State, t: TaskId)
    requires Inv(s) && IsAt(s, t, Refreshed) && Enabled(s, Recheck(t))
    ensures var s' := Apply(s, Recheck(t));
      && s'.board == s.board && t in s'.tasks
      && s'.tasks[t].pc == (if s.tasks[t].owner in s.board.cancelled then Retracting else Idle)
      && (s'.tasks[t].pc == Idle ==> !Holds(s', t))
  {
  }

  /** Retracting means withdrawing, unless a newer installation has the entry or the guard went with an abandoned refresh. */
  lemma RetractionWithdraws(s: State, t: TaskId)
    requires Inv(s) && IsAt(s, t, Retracting) && Enabled(s, Recheck(t))
    ensures var s' := Apply(s, Recheck(t));
      && s'.board == s.board
      && (Holds(s, t) && s.board.entry.None? ==> IsAt(s', t, Withdrawing(s.board.installed)) && Holds(s', t))
      && (!Holds(s, t) || s.board.entry.Some? ==> t !in s'.tasks)
  {
    assert TaskBoardOk(s.board, s.tasks[t]);
  }

  // ------------------------------------------------------------------
  // Mutations under way
  // ------------------------------------------------------------------

  /** Mutation `o` is under way with the guard of its key. */
  predicate UnderWay(s: State, o: OpId, mutation: Mutation, lock: LockId) {
    && o in s.ops && s.ops[o].status == Running && s.ops[o].mutation == mutation && s.ops[o].lock == lock
    && lock in s.locked && s.locked[lock] == ByOp(o)
  }

  lemma OperationStep(s: State, e: Event, o: OpId)
    requires Enabled(s, e) && o in s.ops && s.ops[o].status == Running && e != Panic(o) && !(e.Finish? && e.op == o)
    ensures var s' := Apply(s, e);
      && o in s'.ops && s'.ops[o].status == Running
      && s'.ops[o].mutation == s.ops[o].mutation && s'.ops[o].lock == s.ops[o].lock
  {
  }

  /**
   * A launched mutation runs on with the key's guard until the store has finished it, whatever
   * becomes of its caller.
   */
  lemma {:induction false} OperationRunsOn(
    states: seq<System>, steps: seq<Step>, i: nat, n: nat, k: Key, o: OpId, mutation: Mutation, lock: LockId)
    requires IsRun(states, steps) && i <= n < |states| && UnderWay(Of(states[i], k), o, mutation, lock)
    requires forall m {:trigger steps[m]} :: i <= m < n && steps[m].key == k ==>
      steps[m].event != Panic(o) && !(steps[m].event.Finish? && steps[m].event.op == o)
    ensures UnderWay(Of(states[n], k), o, mutation, lock)
    decreases n
  {
    if i < n {
      OperationRunsOn(states, steps, i, n - 1, k, o, mutation, lock);
      assert Next(states[n - 1], steps[n - 1], states[n]);
      RunKeyInv(states, steps, n, k);
      if steps[n - 1].key == k {
        OperationStep(Of(states[n - 1], k), steps[n - 1].event, o);
      }
      var s := Of(states[n], k);
      assert OpLockOk(s.registry, s.locked, o, s.ops[o]);
    }
  }
}
