/**
 * The challenge store as a whole: one protocol instance per key, a shared owner
 * counter and the bound on installed challenges. The theorems speak of every run
 * of any number of inserts, keepalives and removals over any number of keys.
 */
module ChallengeSystem {
  import opened Wrappers
  import opened ChallengeKey
  import opened ChallengeProof

  const MAX_CHALLENGES := 4096

  datatype Key = Key(host: string, token: string)

  datatype System = System(nextOwner: Owner, keys: map<Key, State>)

  datatype Step = Step(key: Key, event: Event)

  function Of(sys: System, k: Key): State {
    if k in sys.keys then sys.keys[k] else INITIAL
  }

  function Active(sys: System): set<Key> {
    set k | k in sys.keys && sys.keys[k].board.entry.Some?
  }

  /** Owner ids come from one counter, and a new key is installed only below the bound. */
  predicate Possible(sys: System, step: Step) {
    var s := Of(sys, step.key);
    && Enabled(s, step.event)
    && (step.event.Begin? ==> step.event.owner == sys.nextOwner)
    && (step.event.Install? ==> s.board.entry.Some? || |Active(sys)| < MAX_CHALLENGES)
  }

  function Advance(sys: System, step: Step): System
    requires Possible(sys, step)
  {
    System(
      if step.event.Begin? then sys.nextOwner + 1 else sys.nextOwner,
      sys.keys[step.key := Apply(Of(sys, step.key), step.event)])
  }

  predicate Next(sys: System, step: Step, sys': System) {
    Possible(sys, step) && sys' == Advance(sys, step)
  }

  ghost predicate IsRun(states: seq<System>, steps: seq<Step>) {
    && |states| == |steps| + 1
    && states[0] == System(0, map[])
    && (forall i {:trigger steps[i]} :: 0 <= i < |steps| ==> Next(states[i], steps[i], states[i + 1]))
  }

  // ------------------------------------------------------------------
  // Invariant over runs
  // ------------------------------------------------------------------

  ghost predicate SystemInv(sys: System) {
    && (forall k :: k in sys.keys ==> Inv(sys.keys[k]) && sys.keys[k].board.nextOwner <= sys.nextOwner)
    && |Active(sys)| <= MAX_CHALLENGES
  }

  lemma InitialInv()
    ensures Inv(INITIAL)
  {
  }

  /** Only an installation makes an entry appear, and only a draw moves the owner counter. */
  lemma EntryAppears(s: State, e: Event)
    requires Enabled(s, e)
    ensures Apply(s, e).board.entry.Some? ==> s.board.entry.Some? || e.Install?
    ensures Apply(s, e).board.nextOwner == if e.Begin? then e.owner + 1 else s.board.nextOwner
  {
  }

  lemma ActiveBound(sys: System, k: Key, s: State, n: Owner)
    requires |Active(sys)| <= MAX_CHALLENGES
    requires s.board.entry.Some? ==> Of(sys, k).board.entry.Some? || |Active(sys)| < MAX_CHALLENGES
    ensures |Active(System(n, sys.keys[k := s]))| <= MAX_CHALLENGES
  {
    var sys' := System(n, sys.keys[k := s]);
    if s.board.entry.Some? {
      assert Active(sys') == Active(sys) + {k};
    } else {
      assert Active(sys') == Active(sys) - {k};
    }
  }

  lemma UpdateKeeps(sys: System, k: Key, s: State, n: Owner)
    requires SystemInv(sys) && Inv(s) && s.board.nextOwner <= n && sys.nextOwner <= n
    requires s.board.entry.Some? ==> Of(sys, k).board.entry.Some? || |Active(sys)| < MAX_CHALLENGES
    ensures SystemInv(System(n, sys.keys[k := s]))
  {
    ActiveBound(sys, k, s, n);
  }

  lemma AdvanceKeeps(sys: System, step: Step, sys': System)
    requires SystemInv(sys) && Next(sys, step, sys')
    ensures SystemInv(sys')
  {
    InitialInv();
    var s := Of(sys, step.key);
    assert Inv(s) && s.board.nextOwner <= sys.nextOwner;
    StepKeeps(s, step.event);
    EntryAppears(s, step.event);
    UpdateKeeps(sys, step.key, Apply(s, step.event), sys'.nextOwner);
  }

  lemma {:induction false} RunInv(states: seq<System>, steps: seq<Step>, i: nat)
    requires IsRun(states, steps) && i < |states|
    ensures SystemInv(states[i])
  {
    if i == 0 {
      assert Active(states[0]) == {};
    } else {
      RunInv(states, steps, i - 1);
      assert Next(states[i - 1], steps[i - 1], states[i]);
      AdvanceKeeps(states[i - 1], steps[i - 1], states[i]);
    }
  }

  lemma RunKeyInv(states: seq<System>, steps: seq<Step>, i: nat, k: Key)
    requires IsRun(states, steps) && i < |states|
    ensures Inv(Of(states[i], k))
  {
    RunInv(states, steps, i);
    InitialInv();
  }

  // ------------------------------------------------------------------
  // The past is kept
  // ------------------------------------------------------------------

  predicate Remembers(b: Board, b': Board) {
    b.installed <= b'.installed && b.acked <= b'.acked && b.failed <= b'.failed && b.sealed <= b'.sealed
  }

  /** Events that touch nothing but tasks, operations and locks. */
  predicate SparesBoard(e: Event) {
    || e.FindLock? || e.Wake? || e.Acquire? || e.GiveUp? || e.Launch? || e.Finish? || e.Panic?
    || e.Return? || e.Abandon? || e.Lost? || e.Recheck? || e.Drop? || e.Sweep?
  }

  lemma BoardSpared(s: State, e: Event)
    requires Enabled(s, e) && SparesBoard(e)
    ensures Apply(s, e).board == s.board
  {
  }

  lemma StepRemembers(s: State, e: Event)
    requires Enabled(s, e)
    ensures Remembers(s.board, Apply(s, e).board)
  {
    if SparesBoard(e) {
      BoardSpared(s, e);
    }
  }

  lemma AdvanceRemembers(sys: System, step: Step, sys': System, k: Key)
    requires Next(sys, step, sys')
    ensures Remembers(Of(sys, k).board, Of(sys', k).board)
  {
    StepRemembers(Of(sys, step.key), step.event);
  }

  lemma {:induction false} RunRemembers(states: seq<System>, steps: seq<Step>, j: nat, i: nat, k: Key)
    requires IsRun(states, steps) && j <= i < |states|
    ensures Remembers(Of(states[j], k).board, Of(states[i], k).board)
    decreases i - j
  {
    if j < i {
      RunRemembers(states, steps, j, i - 1, k);
      AdvanceRemembers(states[i - 1], steps[i - 1], states[i], k);
    }
  }

  // ------------------------------------------------------------------
  // Theorems
  // ------------------------------------------------------------------

  /** The insert of task `t` on `k` returns Ok at step `j`. */
  ghost predicate ReturnsOk(states: seq<System>, steps: seq<Step>, j: nat, k: Key, t: TaskId, owner: Owner)
    requires IsRun(states, steps)
  {
    && j < |steps| && steps[j].key == k && steps[j].event.Confirm? && steps[j].event.t == t
    && var s := Of(states[j], k);
    t in s.tasks && s.tasks[t].owner == owner && s.board.entry == Some(owner)
  }

  lemma AckedOnlyByConfirm(s: State, e: Event)
    requires Enabled(s, e) && !e.Confirm?
    ensures Apply(s, e).board.acked == s.board.acked
  {
  }

  /** An insert reports Ok only for the current entry, with its own record or none in the store. */
  lemma OkMeansCurrent(s: State, e: Event, owner: Owner)
    requires BoardInv(s) && Enabled(s, e) && owner in Apply(s, e).board.acked - s.board.acked
    ensures e.Confirm? && s.board.entry == Some(owner) && OnlyBy(s.board.record, owner)
  {
    if !e.Confirm? {
      AckedOnlyByConfirm(s, e);
    } else {
      assert TaskBoardOk(s.board, s.tasks[e.t]);
    }
  }

  /**
   * While an installation that reported Ok is the current entry, the shared record is its own or
   * has expired, and no other publication and no withdrawal is under way for the key.
   */
  lemma AcknowledgedRecordIsOwn(states: seq<System>, steps: seq<Step>, j: nat, i: nat, k: Key, t: TaskId, owner: Owner)
    requires IsRun(states, steps) && ReturnsOk(states, steps, j, k, t, owner)
    requires j < i < |states| && Of(states[i], k).board.entry == Some(owner)
    ensures OnlyBy(Of(states[i], k).board.record, owner)
    ensures forall o :: o in Of(states[i], k).ops ==> Of(states[i], k).ops[o].mutation == Publish(owner)
  {
    RunKeyInv(states, steps, i, k);
    RunRemembers(states, steps, j + 1, i, k);
    assert owner in Of(states[j + 1], k).board.acked;
    var s := Of(states[i], k);
    forall o | o in s.ops
      ensures s.ops[o].mutation == Publish(owner)
    {
      assert OpBoardOk(s.board, s.ops[o]);
    }
  }

  lemma OnlyChecksAdmit(s: State, e: Event, t: TaskId)
    requires Enabled(s, e) && !e.Check? && !e.Recheck?
    requires t in Apply(s, e).tasks && Apply(s, e).tasks[t].pc.Withdrawing?
    ensures t in s.tasks && s.tasks[t].pc == Apply(s, e).tasks[t].pc
  {
  }

  lemma AdmissionStep(s: State, e: Event, t: TaskId)
    requires Enabled(s, e) && t in Apply(s, e).tasks && Apply(s, e).tasks[t].pc.Withdrawing?
    ensures
      || (t in s.tasks && s.tasks[t].pc == Apply(s, e).tasks[t].pc)
      || (e == Check(t) && s.board.entry.None? && Apply(s, e).tasks[t].pc.before == s.board.installed)
      || (e == Recheck(t) && IsAt(s, t, Retracting) && OnlyBy(s.board.entry, s.tasks[t].owner)
          && Apply(s, e).tasks[t].pc.before == s.board.installed)
  {
    if !e.Check? && !e.Recheck? {
      OnlyChecksAdmit(s, e, t);
    }
  }

  /** A withdrawal is admitted only while the key has no entry, and remembers every installation made so far. */
  lemma WithdrawalAdmission(s: State, e: Event, t: TaskId)
    requires BoardInv(s) && Enabled(s, e) && t in Apply(s, e).tasks && Apply(s, e).tasks[t].pc.Withdrawing?
    ensures (t in s.tasks && s.tasks[t].pc == Apply(s, e).tasks[t].pc)
         || (s.board.entry.None? && Apply(s, e).tasks[t].pc.before == s.board.installed)
  {
    AdmissionStep(s, e, t);
    if IsAt(s, t, Retracting) {
      assert TaskBoardOk(s.board, s.tasks[t]);
    }
  }

  /** A new withdrawal operation is launched by a task that was admitted to it. */
  lemma LaunchedWithdrawal(s: State, e: Event, o: OpId)
    requires Enabled(s, e) && o in Apply(s, e).ops && Apply(s, e).ops[o].mutation.Withdraw?
    ensures
      || (o in s.ops && s.ops[o].mutation == Apply(s, e).ops[o].mutation)
      || (e.Launch? && e.op == o && IsAt(s, e.t, Withdrawing(Apply(s, e).ops[o].mutation.before)))
  {
  }

  /** Step `a` is task `t`'s check of `k`: the key has no entry, and `before` has been installed so far. */
  predicate AdmitsWithdrawal(states: seq<System>, steps: seq<Step>, a: nat, k: Key, t: TaskId, before: set<Owner>)
    requires a < |steps| && |states| == |steps| + 1
  {
    && (steps[a] == Step(k, Check(t)) || steps[a] == Step(k, Recheck(t)))
    && Of(states[a], k).board.entry.None? && Of(states[a], k).board.installed == before
  }

  /** Task `t` is about to withdraw what was installed `before`, in every state of the stretch. */
  predicate AboutToWithdraw(states: seq<System>, k: Key, t: TaskId, before: set<Owner>, first: nat, last: nat)
    requires last < |states|
  {
    forall n :: first <= n <= last ==> IsAt(Of(states[n], k), t, Withdrawing(before))
  }

  predicate IsWithdrawal(s: State, o: OpId, before: set<Owner>) {
    o in s.ops && s.ops[o].mutation == Withdraw(before)
  }

  /** Operation `o` is this withdrawal in every state of the stretch. */
  predicate InFlight(states: seq<System>, k: Key, o: OpId, before: set<Owner>, first: nat, last: nat)
    requires last < |states|
  {
    forall n :: first <= n <= last ==> IsWithdrawal(Of(states[n], k), o, before)
  }

  lemma TaskAdmitted(states: seq<System>, steps: seq<Step>, n: nat, k: Key, t: TaskId, before: set<Owner>)
    requires IsRun(states, steps) && n < |steps|
    requires !IsAt(Of(states[n], k), t, Withdrawing(before)) && IsAt(Of(states[n + 1], k), t, Withdrawing(before))
    ensures AdmitsWithdrawal(states, steps, n, k, t, before)
  {
    var s, step := Of(states[n], k), steps[n];
    assert Next(states[n], step, states[n + 1]);
    RunKeyInv(states, steps, n, k);
    AdmissionStep(s, step.event, t);
    WithdrawalAdmission(s, step.event, t);
  }

  /** Whoever is about to withdraw has been since its own check, which found no entry. */
  lemma {:induction false} TaskOrigin(
    states: seq<System>, steps: seq<Step>, n: nat, k: Key, t: TaskId, before: set<Owner>) returns (a: nat)
    requires IsRun(states, steps) && n < |states| && IsAt(Of(states[n], k), t, Withdrawing(before))
    ensures a < n && AdmitsWithdrawal(states, steps, a, k, t, before)
    ensures AboutToWithdraw(states, k, t, before, a + 1, n)
  {
    assert n > 0;
    if IsAt(Of(states[n - 1], k), t, Withdrawing(before)) {
      a := TaskOrigin(states, steps, n - 1, k, t, before);
    } else {
      TaskAdmitted(states, steps, n - 1, k, t, before);
      a := n - 1;
    }
  }

  /** A withdrawal in flight has been since its launch, by the task whose check admitted it. */
  lemma {:induction false} OpOrigin(
    states: seq<System>, steps: seq<Step>, n: nat, k: Key, o: OpId, before: set<Owner>)
    returns (a: nat, t: TaskId, l: nat)
    requires IsRun(states, steps) && n < |states| && IsWithdrawal(Of(states[n], k), o, before)
    ensures a < l < n && AdmitsWithdrawal(states, steps, a, k, t, before)
    ensures AboutToWithdraw(states, k, t, before, a + 1, l)
    ensures steps[l] == Step(k, Launch(t, o)) && InFlight(states, k, o, before, l + 1, n)
  {
    assert n > 0;
    var s, step := Of(states[n - 1], k), steps[n - 1];
    assert Next(states[n - 1], step, states[n]);
    if IsWithdrawal(s, o, before) {
      a, t, l := OpOrigin(states, steps, n - 1, k, o, before);
    } else {
      LaunchedWithdrawal(s, step.event, o);
      t, l := step.event.t, n - 1;
      a := TaskOrigin(states, steps, n - 1, k, t, before);
    }
  }

  /** A withdrawal of `k` takes effect in the store at step `j`. */
  predicate WithdrawalLands(states: seq<System>, steps: seq<Step>, j: nat, k: Key)
    requires |states| == |steps| + 1
  {
    && j < |steps| && steps[j].key == k && steps[j].event.Land?
    && steps[j].event.op in Of(states[j], k).ops && Of(states[j], k).ops[steps[j].event.op].mutation.Withdraw?
  }

  /** Record and entry of `b'`, if any, come from installations made since `b`. */
  predicate OnlyNewer(b: Board, b': Board) {
    && (b'.record.Some? ==> b'.record.value in b'.installed - b.installed)
    && (b'.entry.Some? ==> b'.entry.value in b'.installed - b.installed)
  }

  /**
   * A withdrawal that takes effect at `j` was launched at `l` by the task `t`
   * whose own check at `a` found no entry, with nothing in between but that
   * task about to withdraw and that operation in flight. From `j` on, whatever
   * record or entry the key has comes from an installation made after `a`.
   */
  lemma WithdrawalIsFinal(states: seq<System>, steps: seq<Step>, j: nat, k: Key) returns (a: nat, t: TaskId, l: nat)
    requires IsRun(states, steps) && WithdrawalLands(states, steps, j, k)
    ensures a < l < j
    ensures AdmitsWithdrawal(states, steps, a, k, t, Of(states[a], k).board.installed)
    ensures AboutToWithdraw(states, k, t, Of(states[a], k).board.installed, a + 1, l)
    ensures steps[l] == Step(k, Launch(t, steps[j].event.op))
    ensures InFlight(states, k, steps[j].event.op, Of(states[a], k).board.installed, l + 1, j)
    ensures forall i :: j < i < |states| ==> OnlyNewer(Of(states[a], k).board, Of(states[i], k).board)
  {
    var o := steps[j].event.op;
    var before := Of(states[j], k).ops[o].mutation.before;
    a, t, l := OpOrigin(states, steps, j, k, o, before);
    forall i | j < i < |states|
      ensures OnlyNewer(Of(states[a], k).board, Of(states[i], k).board)
    {
      SealedStaysOut(states, steps, j, i, k, before);
    }
  }

  lemma SealedStaysOut(states: seq<System>, steps: seq<Step>, j: nat, i: nat, k: Key, before: set<Owner>)
    requires IsRun(states, steps) && WithdrawalLands(states, steps, j, k) && j < i < |states|
    requires Of(states[j], k).ops[steps[j].event.op].mutation == Withdraw(before)
    ensures var b := Of(states[i], k).board;
      && !Has(b.record, before) && !Has(b.entry, before)
      && (b.record.Some? ==> b.record.value in b.installed) && (b.entry.Some? ==> b.entry.value in b.installed)
  {
    RunKeyInv(states, steps, i, k);
    RunRemembers(states, steps, j + 1, i, k);
    assert Next(states[j], steps[j], states[j + 1]);
    assert before <= Of(states[j + 1], k).board.sealed;
  }

  /** A failed insert leaves no local entry: its installation never becomes current again. */
  lemma FailureLeavesNoEntry(states: seq<System>, steps: seq<Step>, j: nat, i: nat, k: Key, owner: Owner)
    requires IsRun(states, steps) && j <= i < |states| && owner in Of(states[j], k).board.failed
    ensures Of(states[i], k).board.entry != Some(owner)
  {
    RunKeyInv(states, steps, i, k);
    RunRemembers(states, steps, j, i, k);
  }

  /** One lock object per key, at most one mutation in flight on it, and none while a task holds its guard. */
  lemma OneMutationPerKey(states: seq<System>, steps: seq<Step>, i: nat, k: Key)
    requires IsRun(states, steps) && i < |states|
    ensures var s := Of(states[i], k);
      && (forall l, m :: Live(s, l) && Live(s, m) ==> l == m)
      && (forall o, p :: o in s.ops && p in s.ops ==> o == p)
      && (forall t, o :: Holds(s, t) && o in s.ops ==> false)
      && (forall t, u :: Holds(s, t) && Holds(s, u) ==> t == u)
  {
    RunKeyInv(states, steps, i, k);
    var s := Of(states[i], k);
    forall o | o in s.ops
      ensures OpLockOk(s.registry, s.locked, o, s.ops[o])
    {
    }
    forall t | t in s.tasks
      ensures TaskLockOk(s.registry, s.locked, t, s.tasks[t])
    {
    }
  }

  /** No more than the permitted number of challenges is installed at any time. */
  lemma InstalledBound(states: seq<System>, steps: seq<Step>, i: nat)
    requires IsRun(states, steps) && i < |states|
    ensures |Active(states[i])| <= MAX_CHALLENGES
  {
    RunInv(states, steps, i);
  }
}
