/**
 * Many instances following one configuration store. The store is assumed to do
 * two things only: a compare-and-swap applies exactly when the durable document
 * is the expected (epoch, revision), and a read returns some document of the
 * store's history. A write whose reply is lost may apply later or never.
 */
module Authority {
  import opened Wrappers
  import opened ConfigManager

  type Id = nat

  /** A write under way: its candidate, and the document it was prepared from. */
  datatype Write = Write(epoch: Epoch, base: Config, next: Config)

  datatype Phase = Resting | Writing(write: Write) | Applied(next: Config)

  datatype Member = Member(instance: Instance, phase: Phase)

  datatype State = State(
    history: map<Epoch, seq<Config>>,
    durable: Option<Epoch>,
    members: map<Id, Member>,
    inFlight: set<Write>)

  datatype Event =
    | Bootstrap(epoch: Epoch, seed: Config)
    | Wipe
    | Start(i: Id, epoch: Epoch, n: nat)
    | Inherit(i: Id, config: Config)
    | Stop(i: Id)
    | Freeze(i: Id, stopping: bool, withdrawing: bool)
    | Poll(i: Id, epoch: Epoch, n: nat, local: Local)
    | BeginWrite(i: Id, config: Config, expected: nat, local: Local)
    | Swap(i: Id, local: Local)
    | LoseReply(i: Id)
    | FailWrite(i: Id)
    | LandLate(write: Write)
    | Activate(i: Id, local: Local)

  // ------------------------------------------------------------------
  // The store
  // ------------------------------------------------------------------

  predicate InHistory(s: State, epoch: Epoch, n: nat) {
    epoch in s.history && n < |s.history[epoch]|
  }

  predicate HasCurrent(s: State) {
    s.durable.Some? && s.durable.value in s.history && s.history[s.durable.value] != []
  }

  function Current(s: State): Stored
    requires HasCurrent(s)
  {
    var documents := s.history[s.durable.value];
    Stored(s.durable.value, documents[|documents| - 1])
  }

  /** The durable state is the (epoch, revision) the write expects. */
  predicate Matches(s: State, w: Write) {
    HasCurrent(s) && Current(s).epoch == w.epoch && Current(s).config.revision == w.base.revision
  }

  function Append(s: State, w: Write): State
    requires Matches(s, w)
  {
    s.(history := s.history[w.epoch := s.history[w.epoch] + [w.next]])
  }

  // ------------------------------------------------------------------
  // Steps
  // ------------------------------------------------------------------

  predicate AtRest(s: State, i: Id) {
    i in s.members && s.members[i].phase == Resting
  }

  predicate IsWriting(s: State, i: Id) {
    i in s.members && s.members[i].phase.Writing?
  }

  predicate Enabled(s: State, e: Event) {
    match e
    case Bootstrap(epoch, _) => s.durable.None? && epoch !in s.history
    case Wipe => true
    case Start(i, epoch, n) => i !in s.members && InHistory(s, epoch, n)
    case Inherit(i, _) => i !in s.members
    case Stop(i) => i in s.members
    case Freeze(i, _, _) => i in s.members
    case Poll(i, epoch, n, _) => AtRest(s, i) && InHistory(s, epoch, n)
    case BeginWrite(i, config, expected, local) =>
      AtRest(s, i) && s.members[i].instance.epoch.Some? && Prepare(s.members[i].instance, config, expected, local).Ready?
    case Swap(i, _) => IsWriting(s, i) && HasCurrent(s)
    case LoseReply(i) => IsWriting(s, i)
    case FailWrite(i) => IsWriting(s, i)
    case LandLate(w) => w in s.inFlight
    case Activate(i, _) => i in s.members && s.members[i].phase.Applied?
  }

  function Put(s: State, i: Id, instance: Instance, phase: Phase): State {
    s.(members := s.members[i := Member(instance, phase)])
  }

  /**
   * The store answers a write: applied, applied already, or a conflict carrying the durable document,
   * which the instance then judges.
   */
  function Swapping(s: State, i: Id, local: Local): State
    requires IsWriting(s, i) && HasCurrent(s)
  {
    var m := s.members[i].instance;
    var w := s.members[i].phase.write;
    if Matches(s, w) then Put(Append(s, w), i, m, Applied(w.next))
    else if Current(s) == Stored(w.epoch, w.next) then Put(s, i, m, Applied(w.next))
    else Put(s, i, Conflicted(m, w.epoch, Current(s), local), Resting)
  }

  function Apply(s: State, e: Event): State
    requires Enabled(s, e)
  {
    match e
    case Bootstrap(epoch, seed) => s.(history := s.history[epoch := [seed]], durable := Some(epoch))
    case Wipe => s.(durable := None)
    case Start(i, epoch, n) =>
      Put(s, i, Instance(s.history[epoch][n], Some(epoch), false, false, false, false, None), Resting)
    case Inherit(i, config) => Put(s, i, Instance(config, None, false, false, false, false, None), Resting)
    case Stop(i) => s.(members := s.members - {i})
    case Freeze(i, stopping, withdrawing) =>
      var m := s.members[i];
      Put(s, i, m.instance.(stopping := stopping, withdrawing := withdrawing), m.phase)
    case Poll(i, epoch, n, local) =>
      Put(s, i, Reconciled(s.members[i].instance, Stored(epoch, s.history[epoch][n]), local), Resting)
    case BeginWrite(i, config, expected, local) =>
      var m := s.members[i].instance;
      Put(s, i, m, Writing(Write(m.epoch.value, m.active, Prepare(m, config, expected, local).config)))
    case Swap(i, local) => Swapping(s, i, local)
    case LoseReply(i) =>
      Put(s, i, s.members[i].instance, Resting).(inFlight := s.inFlight + {s.members[i].phase.write})
    case FailWrite(i) => Put(s, i, s.members[i].instance, Resting)
    case LandLate(w) =>
      if Matches(s, w) then Append(s, w).(inFlight := s.inFlight - {w}) else s.(inFlight := s.inFlight - {w})
    case Activate(i, local) =>
      Put(s, i, Published(s.members[i].instance, s.members[i].phase.next, local), Resting)
  }

  // ------------------------------------------------------------------
  // Invariant
  // ------------------------------------------------------------------

  /** `next` may follow `base`: one revision later, on a floor that covers it. */
  predicate Follows(base: Config, next: Config) {
    && next.revision == base.revision + 1
    && next.floor >= base.floor && next.floor >= Generation(base)
    && (next.cache.Some? ==> next.cache.value == next.floor)
  }

  /** Within an epoch every document follows its predecessor. */
  ghost predicate ChainOk(documents: seq<Config>) {
    && documents != []
    && (forall n :: 0 < n < |documents| ==> Follows(documents[n - 1], documents[n]))
  }

  predicate WriteOk(history: map<Epoch, seq<Config>>, w: Write) {
    w.epoch in history && w.base in history[w.epoch] && Follows(w.base, w.next)
  }

  /** An attached instance holds a document of its epoch, and so does what it is about to commit. */
  predicate MemberOk(history: map<Epoch, seq<Config>>, m: Member) {
    && (m.instance.epoch.Some? ==>
          m.instance.epoch.value in history && m.instance.active in history[m.instance.epoch.value])
    && (m.phase.Writing? ==>
          m.instance.epoch == Some(m.phase.write.epoch) && m.phase.write.base == m.instance.active && WriteOk(history, m.phase.write))
    && (m.phase.Applied? ==>
          && m.instance.epoch.Some? && m.phase.next in history[m.instance.epoch.value]
          && m.phase.next.revision == m.instance.active.revision + 1)
  }

  ghost predicate Inv(s: State) {
    && (forall e :: e in s.history ==> ChainOk(s.history[e]))
    && (s.durable.Some? ==> s.durable.value in s.history)
    && (forall i :: i in s.members ==> MemberOk(s.history, s.members[i]))
    && (forall w :: w in s.inFlight ==> WriteOk(s.history, w))
  }

  lemma {:induction false} ChainRevision(documents: seq<Config>, n: nat)
    requires ChainOk(documents) && n < |documents|
    ensures documents[n].revision == documents[0].revision + n
  {
    if n > 0 {
      ChainRevision(documents, n - 1);
    }
  }

  /** Within an epoch a revision names one document. */
  lemma RevisionIsUnique(documents: seq<Config>, a: Config, b: Config)
    requires ChainOk(documents) && a in documents && b in documents && a.revision == b.revision
    ensures a == b
  {
    var m :| 0 <= m < |documents| && documents[m] == a;
    var n :| 0 <= n < |documents| && documents[n] == b;
    ChainRevision(documents, m);
    ChainRevision(documents, n);
  }

  /** A write that applies lands on exactly the document it was prepared from. */
  lemma AppendKeeps(s: State, w: Write)
    requires Inv(s) && WriteOk(s.history, w) && Matches(s, w)
    ensures Inv(Append(s, w)) && w.next in Append(s, w).history[w.epoch]
  {
    RevisionIsUnique(s.history[w.epoch], Current(s).config, w.base);
    var documents := s.history[w.epoch];
    assert ChainOk(documents + [w.next]);
    assert w.next == Append(s, w).history[w.epoch][|documents|];
  }

  lemma PutKeeps(s: State, i: Id, instance: Instance, phase: Phase)
    requires Inv(s) && MemberOk(s.history, Member(instance, phase))
    ensures Inv(Put(s, i, instance, phase))
  {
  }

  lemma JudgedKeeps(s: State, i: Id, stored: Stored, local: Local)
    requires Inv(s) && i in s.members && stored.epoch in s.history && stored.config in s.history[stored.epoch]
    ensures Inv(Put(s, i, Reconciled(s.members[i].instance, stored, local), Resting))
  {
    ActivationMeans(s.members[i].instance, stored, local);
    PutKeeps(s, i, Reconciled(s.members[i].instance, stored, local), Resting);
  }

  lemma ConflictKeeps(s: State, i: Id, local: Local)
    requires Inv(s) && IsWriting(s, i) && HasCurrent(s)
    ensures Inv(Put(s, i, Conflicted(s.members[i].instance, s.members[i].phase.write.epoch, Current(s), local), Resting))
  {
    if Current(s).epoch == s.members[i].phase.write.epoch {
      JudgedKeeps(s, i, Current(s), local);
    }
  }

  lemma SwapKeeps(s: State, i: Id, local: Local)
    requires Inv(s) && IsWriting(s, i) && HasCurrent(s)
    ensures Inv(Swapping(s, i, local))
  {
    var m := s.members[i].instance;
    var w := s.members[i].phase.write;
    if Matches(s, w) {
      AppendKeeps(s, w);
      PutKeeps(Append(s, w), i, m, Applied(w.next));
    } else if Current(s) == Stored(w.epoch, w.next) {
      PutKeeps(s, i, m, Applied(w.next));
    } else {
      ConflictKeeps(s, i, local);
    }
  }

  lemma BeginWriteKeeps(s: State, i: Id, config: Config, expected: nat, local: Local)
    requires Inv(s) && Enabled(s, BeginWrite(i, config, expected, local))
    ensures Inv(Apply(s, BeginWrite(i, config, expected, local)))
  {
    var m := s.members[i].instance;
    NormalizedFloor(m.active, config);
    PutKeeps(s, i, m, Writing(Write(m.epoch.value, m.active, Prepare(m, config, expected, local).config)));
  }

  lemma StepKeeps(s: State, e: Event)
    requires Inv(s) && Enabled(s, e)
    ensures Inv(Apply(s, e))
  {
    match e
    case Bootstrap(epoch, seed) =>
    case Wipe =>
    case Start(i, epoch, n) =>
    case Inherit(i, config) =>
    case Stop(i) =>
    case Freeze(i, stopping, withdrawing) =>
    case Poll(i, epoch, n, local) => JudgedKeeps(s, i, Stored(epoch, s.history[epoch][n]), local);
    case BeginWrite(i, config, expected, local) => BeginWriteKeeps(s, i, config, expected, local);
    case Swap(i, local) => SwapKeeps(s, i, local);
    case LoseReply(i) =>
    case FailWrite(i) =>
    case LandLate(w) => if Matches(s, w) { AppendKeeps(s, w); }
    case Activate(i, local) =>
  }

  // ------------------------------------------------------------------
  // Runs
  // ------------------------------------------------------------------

  const EMPTY := State(map[], None, map[], {})

  predicate Next(s: State, e: Event, s': State) {
    Enabled(s, e) && s' == Apply(s, e)
  }

  ghost predicate IsRun(states: seq<State>, events: seq<Event>) {
    && |states| == |events| + 1
    && states[0] == EMPTY
    && (forall n {:trigger events[n]} :: 0 <= n < |events| ==> Next(states[n], events[n], states[n + 1]))
  }

  lemma {:induction false} RunInv(states: seq<State>, events: seq<Event>, n: nat)
    requires IsRun(states, events) && n < |states|
    ensures Inv(states[n])
  {
    if n > 0 {
      RunInv(states, events, n - 1);
      assert Next(states[n - 1], events[n - 1], states[n]);
      StepKeeps(states[n - 1], events[n - 1]);
    }
  }

  /** Two instances attached to one epoch and at one revision hold the same document. */
  lemma Agreement(states: seq<State>, events: seq<Event>, n: nat, i: Id, j: Id)
    requires IsRun(states, events) && n < |states| && i in states[n].members && j in states[n].members
    requires var a, b := states[n].members[i].instance, states[n].members[j].instance;
      a.epoch.Some? && a.epoch == b.epoch && a.active.revision == b.active.revision
    ensures states[n].members[i].instance.active == states[n].members[j].instance.active
  {
    RunInv(states, events, n);
    var a, b := states[n].members[i].instance, states[n].members[j].instance;
    RevisionIsUnique(states[n].history[a.epoch.value], a.active, b.active);
  }

  /** An attached instance that polls its own history is never told that it diverged. */
  lemma NeverDiverges(states: seq<State>, events: seq<Event>, n: nat, i: Id, epoch: Epoch, k: nat, local: Local)
    requires IsRun(states, events) && n < |states| && i in states[n].members && InHistory(states[n], epoch, k)
    ensures Judge(states[n].members[i].instance, Stored(epoch, states[n].history[epoch][k]), local) != Refused(Divergence)
  {
    RunInv(states, events, n);
    var m := states[n].members[i].instance;
    var config := states[n].history[epoch][k];
    if m.epoch == Some(epoch) && config.revision == m.active.revision {
      RevisionIsUnique(states[n].history[epoch], config, m.active);
    }
  }

  /** Where instance `i` stands, as long as it is not stopped in between. */
  ghost predicate Lives(states: seq<State>, i: Id, a: nat, b: nat) {
    forall n :: a <= n <= b && n < |states| ==> i in states[n].members
  }

  predicate Forward(m: Instance, m': Instance) {
    m.epoch.Some? ==> m'.epoch == m.epoch && m'.active.revision >= m.active.revision
  }

  lemma StepForward(s: State, e: Event, s': State, i: Id)
    requires Inv(s) && Next(s, e, s') && i in s.members && i in s'.members
    ensures Forward(s.members[i].instance, s'.members[i].instance)
  {
    assert MemberOk(s.history, s.members[i]);
    var m := s.members[i].instance;
    if e.Poll? {
      ActivationMeans(m, Stored(e.epoch, s.history[e.epoch][e.n]), e.local);
    } else if e.Swap? {
      ActivationMeans(m, Current(s), e.local);
    }
  }

  lemma RunForward(states: seq<State>, events: seq<Event>, i: Id, n: nat)
    requires IsRun(states, events) && n + 1 < |states| && i in states[n].members && i in states[n + 1].members
    ensures Forward(states[n].members[i].instance, states[n + 1].members[i].instance)
  {
    RunInv(states, events, n);
    StepForward(states[n], events[n], states[n + 1], i);
  }

  /** Once attached, an instance keeps its epoch and its active revision never decreases. */
  lemma {:induction false} RevisionNeverDecreases(states: seq<State>, events: seq<Event>, i: Id, a: nat, b: nat)
    requires IsRun(states, events) && a <= b < |states| && Lives(states, i, a, b)
    ensures Forward(states[a].members[i].instance, states[b].members[i].instance)
    decreases b - a
  {
    if a < b {
      RevisionNeverDecreases(states, events, i, a, b - 1);
      RunForward(states, events, i, b - 1);
    }
  }

  lemma {:induction false} ChainFloor(documents: seq<Config>, m: nat, n: nat)
    requires ChainOk(documents) && m < n < |documents|
    ensures documents[n].floor >= documents[m].floor && documents[n].floor >= Generation(documents[m])
    decreases n - m
  {
    if m + 1 < n {
      ChainFloor(documents, m, n - 1);
    }
  }

  /**
   * Every committed write sits on a floor that covers the floor and the cache generation of every
   * document before it, and a configured cache carries exactly that floor: no rollback and no
   * disabling of the cache undoes a purge.
   */
  lemma PurgesAreNeverUndone(states: seq<State>, events: seq<Event>, n: nat, epoch: Epoch, m: nat, k: nat)
    requires IsRun(states, events) && n < |states| && InHistory(states[n], epoch, k) && m < k
    ensures var d := states[n].history[epoch];
      && d[k].floor >= d[m].floor && d[k].floor >= Generation(d[m])
      && (d[k].cache.Some? ==> d[k].cache.value == d[k].floor)
  {
    RunInv(states, events, n);
    var d := states[n].history[epoch];
    ChainFloor(d, m, k);
    assert Follows(d[k - 1], d[k]);
  }

  // ------------------------------------------------------------------
  // Readiness
  // ------------------------------------------------------------------

  /** A ready instance has no disagreement on record and fails no route closed. */
  predicate ReadySoundly(m: Instance) {
    m.ready ==> m.failure.None? && !m.failsClosed
  }

  lemma JudgedSoundly(m: Instance, stored: Stored, local: Local)
    requires ReadySoundly(m)
    ensures ReadySoundly(Reconciled(m, stored, local))
  {
  }

  lemma SoundStep(s: State, e: Event, s': State, i: Id)
    requires Next(s, e, s') && i in s'.members
    requires i in s.members ==> ReadySoundly(s.members[i].instance)
    ensures ReadySoundly(s'.members[i].instance)
  {
    if i in s.members {
      var m := s.members[i].instance;
      if e.Poll? && e.i == i {
        JudgedSoundly(m, Stored(e.epoch, s.history[e.epoch][e.n]), e.local);
      } else if e.Swap? && e.i == i {
        JudgedSoundly(m, Current(s), e.local);
      }
    }
  }

  /** In every reachable state a ready instance agrees with its authority and serves every route. */
  lemma {:induction false} ReadyMeansSound(states: seq<State>, events: seq<Event>, n: nat, i: Id)
    requires IsRun(states, events) && n < |states| && i in states[n].members
    ensures ReadySoundly(states[n].members[i].instance)
  {
    if n > 0 {
      assert Next(states[n - 1], events[n - 1], states[n]);
      if i in states[n - 1].members {
        ReadyMeansSound(states, events, n - 1, i);
      }
      SoundStep(states[n - 1], events[n - 1], states[n], i);
    }
  }

  // ------------------------------------------------------------------
  // Progress
  // ------------------------------------------------------------------

  /** This instance can read, prepare and publish the document. */
  predicate CanServe(local: Local) {
    local.compatible && local.prepares && local.commits
  }

  /**
   * A poll of the followed epoch: the instance stands at position `p` of its history, ignores what
   * lies before it, and moves to a later document exactly when it can serve it and is not frozen.
   */
  lemma PollExactly(states: seq<State>, events: seq<Event>, n: nat) returns (p: nat)
    requires IsRun(states, events) && n < |events| && events[n].Poll?
    requires states[n].members[events[n].i].instance.epoch == Some(events[n].epoch)
    ensures var e, m := events[n], states[n].members[events[n].i].instance;
      var documents, m' := states[n].history[e.epoch], states[n + 1].members[e.i].instance;
      && p < |documents| && documents[p] == m.active
      && m'.epoch == m.epoch
      && m'.active == (if e.n > p && CanServe(e.local) && !m.stopping then documents[e.n] else m.active)
      && (e.n < p && e.local.compatible ==> m'.failure == Some(Rollback) && !m'.ready)
      && (e.n == p && e.local.compatible ==>
            m'.failure.None? && (!m.stopping && !m.withdrawing && !m.failsClosed ==> m'.ready))
      && (e.n > p && CanServe(e.local) && !m.stopping ==>
            m'.failure.None? && (m'.ready <==> (m.ready || !m.withdrawing) && !e.local.failsClosed))
  {
    RunInv(states, events, n);
    assert Next(states[n], events[n], states[n + 1]);
    var e, m := events[n], states[n].members[events[n].i].instance;
    var documents := states[n].history[e.epoch];
    assert MemberOk(states[n].history, states[n].members[e.i]);
    p :| p < |documents| && documents[p] == m.active;
    ChainRevision(documents, p);
    ChainRevision(documents, e.n);
    JudgedExactly(m, Stored(e.epoch, documents[e.n]), e.local);
  }

  /** An instance that follows no epoch yet attaches to the first one whose document it can serve. */
  lemma FirstPollAttaches(states: seq<State>, events: seq<Event>, n: nat)
    requires IsRun(states, events) && n < |events| && events[n].Poll? && CanServe(events[n].local)
    requires var m := states[n].members[events[n].i].instance; m.epoch.None? && !m.stopping
    ensures var e, m' := events[n], states[n + 1].members[events[n].i].instance;
      m'.epoch == Some(e.epoch) && m'.active == states[n].history[e.epoch][e.n] && m'.failure.None?
  {
    assert Next(states[n], events[n], states[n + 1]);
    var e := events[n];
    JudgedExactly(states[n].members[e.i].instance, Stored(e.epoch, states[n].history[e.epoch][e.n]), e.local);
  }

  /**
   * The store's answer to a write: it is appended exactly when the durable document is still the one
   * it was prepared from, and a write that is not applied leaves every history as it was.
   */
  lemma SwapExactly(states: seq<State>, events: seq<Event>, n: nat)
    requires IsRun(states, events) && n < |events| && events[n].Swap?
    ensures var s, s', i := states[n], states[n + 1], events[n].i;
      var w, current := s.members[i].phase.write, Current(s);
      && w.base == s.members[i].instance.active
      && s'.durable == s.durable
      && (current == Stored(w.epoch, w.base) ==>
            && s'.history == s.history[w.epoch := s.history[w.epoch] + [w.next]]
            && s'.members[i] == Member(s.members[i].instance, Applied(w.next)))
      && (current != Stored(w.epoch, w.base) ==>
            && s'.history == s.history
            && (s'.members[i].phase.Applied? <==> current == Stored(w.epoch, w.next)))
      && (forall j :: j in s.members && j != i ==> j in s'.members && s'.members[j] == s.members[j])
  {
    RunInv(states, events, n);
    var s := states[n];
    assert Next(s, events[n], states[n + 1]);
    var w := s.members[events[n].i].phase.write;
    assert MemberOk(s.history, s.members[events[n].i]);
    if Matches(s, w) {
      RevisionIsUnique(s.history[w.epoch], Current(s).config, w.base);
    }
  }

  /** A write that loses against a later document of its epoch moves its instance to that document. */
  lemma LosingWriteCatchesUp(states: seq<State>, events: seq<Event>, n: nat)
    requires IsRun(states, events) && n < |events| && events[n].Swap? && CanServe(events[n].local)
    requires var s, i := states[n], events[n].i;
      var w := s.members[i].phase.write;
      && Current(s).epoch == w.epoch && Current(s).config.revision > w.base.revision
      && Current(s).config != w.next && !s.members[i].instance.stopping
    ensures var i := events[n].i;
      states[n + 1].members[i].phase == Resting && states[n + 1].members[i].instance.active == Current(states[n]).config
  {
    RunInv(states, events, n);
    var s, i := states[n], events[n].i;
    assert Next(s, events[n], states[n + 1]);
    assert MemberOk(s.history, s.members[i]);
    JudgedExactly(s.members[i].instance, Current(s), events[n].local);
  }

  /**
   * An attached, unfrozen instance that holds the durable document can commit any document it can
   * serve: the write starts, is applied and becomes active, as the successor of what was durable.
   */
  lemma UndisturbedWriteCommits(s: State, i: Id, config: Config, local: Local) returns (next: Config, s': State)
    requires Inv(s) && HasCurrent(s) && AtRest(s, i) && CanServe(local)
    requires var m := s.members[i].instance;
      && m.epoch == Some(Current(s).epoch) && m.active == Current(s).config && !m.stopping
      && m.active.revision < 0xFFFF_FFFF_FFFF_FFFF && GenerationsFit(m.active, config)
    ensures var write := BeginWrite(i, config, Current(s).config.revision, local);
      && Enabled(s, write) && Enabled(Apply(s, write), Swap(i, local))
      && Enabled(Apply(Apply(s, write), Swap(i, local)), Activate(i, local))
      && s' == Apply(Apply(Apply(s, write), Swap(i, local)), Activate(i, local))
    ensures IsSuccessor(Current(s).config, config, next)
    ensures s'.history == s.history[Current(s).epoch := s.history[Current(s).epoch] + [next]]
    ensures HasCurrent(s') && Current(s') == Stored(Current(s).epoch, next)
    ensures AtRest(s', i) && s'.members[i].instance.active == next
  {
    var m := s.members[i].instance;
    var write := BeginWrite(i, config, m.active.revision, local);
    PreparedExactly(m, config, m.active.revision, local);
    next := Prepare(m, config, m.active.revision, local).config;
    var s1 := Apply(s, write);
    assert Matches(s1, s1.members[i].phase.write);
    s' := Apply(Apply(s1, Swap(i, local)), Activate(i, local));
  }

  lemma StepGrows(s: State, e: Event, epoch: Epoch)
    requires Enabled(s, e) && epoch in s.history
    ensures epoch in Apply(s, e).history && s.history[epoch] <= Apply(s, e).history[epoch]
  {
  }

  /** No committed document is ever changed, reordered or lost. */
  lemma {:induction false} HistoryOnlyGrows(states: seq<State>, events: seq<Event>, m: nat, n: nat, epoch: Epoch)
    requires IsRun(states, events) && m <= n < |states| && epoch in states[m].history
    ensures epoch in states[n].history && states[m].history[epoch] <= states[n].history[epoch]
    decreases n - m
  {
    if m < n {
      HistoryOnlyGrows(states, events, m, n - 1, epoch);
      assert Next(states[n - 1], events[n - 1], states[n]);
      StepGrows(states[n - 1], events[n - 1], epoch);
    }
  }
}
