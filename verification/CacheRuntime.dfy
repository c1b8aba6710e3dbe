/**
 * The cache runtime as interleaved atomic steps: the packed fence token, lookups
 * with their disk-to-memory promotion, single-flight fills that own a permit, the
 * publication lock, purges that take it exclusively and generation changes that
 * deliberately do not.
 *
 * A stamp is a captured token with its purge count unpacked and unbounded; the
 * runtime itself only ever compares packed tokens. `purges`, `since` and
 * `cleansed` record the past and decide nothing.
 */
module CacheRuntime {
  import opened Wrappers

  const LOCAL_EPOCHS: nat := 0x1_0000_0000
  const MAX_GENERATION: nat := 0xFFFF_FFFF

  // ------------------------------------------------------------------
  // The packed token
  // ------------------------------------------------------------------

  function Pack(generation: nat, local: nat): nat {
    generation * LOCAL_EPOCHS + local % LOCAL_EPOCHS
  }

  function GenerationOf(token: nat): nat {
    token / LOCAL_EPOCHS
  }

  function LocalOf(token: nat): nat {
    token % LOCAL_EPOCHS
  }

  /** The halves do not spill into each other, and a token fits 64 bits. */
  lemma PackRoundTrip(generation: nat, local: nat)
    ensures GenerationOf(Pack(generation, local)) == generation
    ensures LocalOf(Pack(generation, local)) == local % LOCAL_EPOCHS
    ensures generation <= MAX_GENERATION ==> Pack(generation, local) < 0x1_0000_0000_0000_0000
  {
    assert (generation * LOCAL_EPOCHS + local % LOCAL_EPOCHS) / LOCAL_EPOCHS == generation;
  }

  /** Two captures are told apart by their tokens unless they differ by whole turns of the local counter. */
  lemma PackEquality(g: nat, c: nat, g': nat, c': nat)
    ensures Pack(g, c) == Pack(g', c') <==> g == g' && c % LOCAL_EPOCHS == c' % LOCAL_EPOCHS
  {
  }

  // ------------------------------------------------------------------
  // State
  // ------------------------------------------------------------------

  type Id = nat

  /** `cache_policy::key` namespaces a request by the generation half of the token alone. */
  datatype Key = Key(generation: nat, request: nat)
  datatype Stamp = Stamp(generation: nat, count: nat)
  datatype Entry = Entry(body: seq<nat>, stamp: Stamp)

  datatype LookupPhase =
    | Started
    | Locked                          // holds the publication lock, token not checked yet
    | Reading
    | DiskReading
    | Promoting(entry: Entry)         // fence held after the disk read, memory insertion due
    | Got(result: Option<Entry>)      // final token check due
    | Missed
    | Following                       // another fill of the key is under way

  datatype Lookup = Lookup(stamp: Stamp, key: Key, second: bool, phase: LookupPhase)

  datatype FillPhase =
    | Capturing
    | Queued(body: seq<nat>)          // capture complete, publication lock not taken yet
    | Checking(body: seq<nat>)        // holds the publication lock, token not checked yet
    | Putting(body: seq<nat>)         // token matched, insertion under way
    | Leaving                         // abandoned or published, still registered
    | Unregistered                    // permit not given back yet

  datatype Fill = Fill(stamp: Stamp, key: Key, phase: FillPhase)

  datatype PurgePhase = Quiet | Requested | Exclusive | Bumped | MemoryCleared

  datatype Fence = Fence(token: nat, purges: nat, since: nat, cleansed: nat)

  datatype State = State(
    fence: Fence,
    memory: map<Key, Entry>,
    disk: map<Key, Entry>,
    purge: PurgePhase,
    lookups: map<Id, Lookup>,
    fills: map<Id, Fill>,
    filling: map<Key, Id>,
    permits: nat)

  datatype Event =
    | Arrive(i: Id, request: nat)
    | Lock(i: Id)
    | CheckToken(i: Id)
    | ReadMemory(i: Id)
    | ReadDisk(i: Id)
    | Promote(i: Id)
    | Recheck(i: Id)
    | Register(i: Id, f: Id)
    | Follow(i: Id)
    | LeaveLookup(i: Id)
    | Complete(f: Id, body: seq<nat>)
    | Abandon(f: Id)
    | LockFill(f: Id)
    | CheckFill(f: Id)
    | Put(f: Id, memory: bool)
    | Settle(f: Id)
    | Deregister(f: Id)
    | Release(f: Id)
    | RequestPurge
    | LockPurge
    | Bump
    | ClearMemory
    | EndPurge(ok: bool)
    | Adopt(generation: nat)
    | Evict(key: Key)

  function Initial(generation: nat, maxFills: nat): State {
    State(Fence(Pack(Min(generation, MAX_GENERATION), 0), 0, 0, 0), map[], map[], Quiet, map[], map[], map[], maxFills)
  }

  function Min(a: nat, b: nat): nat { if a < b then a else b }

  // ------------------------------------------------------------------
  // Steps
  // ------------------------------------------------------------------

  predicate Matches(f: Fence, stamp: Stamp) {
    Pack(stamp.generation, stamp.count) == f.token
  }

  /** Phases in which a lookup or a fill holds the shared side of the publication lock. */
  predicate HoldsLookup(p: LookupPhase) {
    p == Locked || p == Reading || p == DiskReading || p.Promoting? || p.Got?
  }

  predicate HoldsFill(p: FillPhase) {
    p.Checking? || p.Putting?
  }

  predicate IsExclusive(p: PurgePhase) {
    p == Exclusive || p == Bumped || p == MemoryCleared
  }

  predicate NoReaders(s: State) {
    && (forall i :: i in s.lookups ==> !HoldsLookup(s.lookups[i].phase))
    && (forall f :: f in s.fills ==> !HoldsFill(s.fills[f].phase))
  }

  predicate LookupAt(s: State, i: Id, p: LookupPhase) {
    i in s.lookups && s.lookups[i].phase == p
  }

  function SetLookup(s: State, i: Id, p: LookupPhase): State
    requires i in s.lookups
  {
    s.(lookups := s.lookups[i := s.lookups[i].(phase := p)])
  }

  function SetFill(s: State, f: Id, p: FillPhase): State
    requires f in s.fills
  {
    s.(fills := s.fills[f := s.fills[f].(phase := p)])
  }

  function DropLookup(s: State, i: Id): State {
    s.(lookups := s.lookups - {i})
  }

  function Find(m: map<Key, Entry>, k: Key): Option<Entry> {
    if k in m then Some(m[k]) else None
  }

  /** The last token check: a hit is returned, a first miss goes on to the fill table, anything else bypasses. */
  function Rechecking(s: State, i: Id): State
    requires i in s.lookups && s.lookups[i].phase.Got?
  {
    var l := s.lookups[i];
    if Matches(s.fence, l.stamp) && l.phase.result.None? && !l.second then SetLookup(s, i, Missed)
    else DropLookup(s, i)
  }

  /** What the lookup returns if the entry it got survives the last check. */
  function Hit(s: State, i: Id): Option<Entry>
    requires i in s.lookups && s.lookups[i].phase.Got?
  {
    if Matches(s.fence, s.lookups[i].stamp) then s.lookups[i].phase.result else None
  }

  /** Under the fill table's mutex: follow a registered fill, or take a permit and register one. */
  function Registering(s: State, i: Id, f: Id): State
    requires i in s.lookups && f !in s.fills
  {
    var l := s.lookups[i];
    if !Matches(s.fence, l.stamp) then DropLookup(s, i)
    else if l.key in s.filling then SetLookup(s, i, Following)
    else if s.permits == 0 then DropLookup(s, i)
    else
      DropLookup(s, i).(
        permits := s.permits - 1,
        filling := s.filling[l.key := f],
        fills := s.fills[f := Fill(l.stamp, l.key, Capturing)])
  }

  function CheckingFill(s: State, f: Id): State
    requires f in s.fills && s.fills[f].phase.Checking?
  {
    if Matches(s.fence, s.fills[f].stamp) then SetFill(s, f, Putting(s.fills[f].phase.body)) else SetFill(s, f, Leaving)
  }

  function Inserting(s: State, f: Id, memory: bool): State
    requires f in s.fills && s.fills[f].phase.Putting?
  {
    var fill := s.fills[f];
    var entry := Entry(fill.phase.body, fill.stamp);
    if memory then s.(memory := s.memory[fill.key := entry]) else s.(disk := s.disk[fill.key := entry])
  }

  /** A dropped fill removes its registration only if it is still its own. */
  function Deregistering(s: State, f: Id): State
    requires f in s.fills
  {
    var key := s.fills[f].key;
    SetFill(s, f, Unregistered).(
      filling := if key in s.filling && s.filling[key] == f then s.filling - {key} else s.filling)
  }

  /** A purge advances the local half of the token. */
  function Bumping(f: Fence): Fence {
    f.(token := Pack(GenerationOf(f.token), LocalOf(f.token) + 1), purges := f.purges + 1)
  }

  /** A higher generation replaces the upper half of the token; any other is ignored. */
  function Adopting(f: Fence, generation: nat): Fence {
    var g := Min(generation, MAX_GENERATION);
    if GenerationOf(f.token) < g then f.(token := Pack(g, LocalOf(f.token)), since := f.purges) else f
  }

  predicate Enabled(s: State, e: Event) {
    match e
    case Arrive(i, _) => i !in s.lookups
    case Lock(i) => LookupAt(s, i, Started) && !IsExclusive(s.purge)
    case CheckToken(i) => LookupAt(s, i, Locked)
    case ReadMemory(i) => LookupAt(s, i, Reading)
    case ReadDisk(i) => LookupAt(s, i, DiskReading)
    case Promote(i) => i in s.lookups && s.lookups[i].phase.Promoting?
    case Recheck(i) => i in s.lookups && s.lookups[i].phase.Got?
    case Register(i, f) => LookupAt(s, i, Missed) && f !in s.fills
    case Follow(i) => LookupAt(s, i, Following)
    case LeaveLookup(i) => i in s.lookups
    case Complete(f, _) => f in s.fills && s.fills[f].phase == Capturing
    case Abandon(f) => f in s.fills && s.fills[f].phase == Capturing
    case LockFill(f) => f in s.fills && s.fills[f].phase.Queued? && !IsExclusive(s.purge)
    case CheckFill(f) => f in s.fills && s.fills[f].phase.Checking?
    case Put(f, _) => f in s.fills && s.fills[f].phase.Putting?
    case Settle(f) => f in s.fills && s.fills[f].phase.Putting?
    case Deregister(f) => f in s.fills && s.fills[f].phase == Leaving
    case Release(f) => f in s.fills && s.fills[f].phase == Unregistered
    case RequestPurge => s.purge == Quiet
    case LockPurge => s.purge == Requested && NoReaders(s)
    case Bump => s.purge == Exclusive
    case ClearMemory => s.purge == Bumped
    case EndPurge(ok) => if ok then s.purge == MemoryCleared else s.purge == Bumped || s.purge == MemoryCleared
    case Adopt(_) => true
    case Evict(_) => true
  }

  function Apply(s: State, e: Event): State
    requires Enabled(s, e)
  {
    match e
    case Arrive(i, request) =>
      var g := GenerationOf(s.fence.token);
      s.(lookups := s.lookups[i := Lookup(Stamp(g, s.fence.purges), Key(g, request), false, Started)])
    case Lock(i) => SetLookup(s, i, Locked)
    case CheckToken(i) => if Matches(s.fence, s.lookups[i].stamp) then SetLookup(s, i, Reading) else DropLookup(s, i)
    case ReadMemory(i) =>
      var found := Find(s.memory, s.lookups[i].key);
      SetLookup(s, i, if found.Some? then Got(found) else DiskReading)
    case ReadDisk(i) =>
      var found := Find(s.disk, s.lookups[i].key);
      SetLookup(s, i, if found.Some? && Matches(s.fence, s.lookups[i].stamp) then Promoting(found.value) else Got(None))
    case Promote(i) =>
      var entry := s.lookups[i].phase.entry;
      SetLookup(s, i, Got(Some(entry))).(memory := s.memory[s.lookups[i].key := entry])
    case Recheck(i) => Rechecking(s, i)
    case Register(i, f) => Registering(s, i, f)
    case Follow(i) => s.(lookups := s.lookups[i := s.lookups[i].(phase := Started, second := true)])
    case LeaveLookup(i) => DropLookup(s, i)
    case Complete(f, body) => SetFill(s, f, Queued(body))
    case Abandon(f) => SetFill(s, f, Leaving)
    case LockFill(f) => SetFill(s, f, Checking(s.fills[f].phase.body))
    case CheckFill(f) => CheckingFill(s, f)
    case Put(f, memory) => Inserting(s, f, memory)
    case Settle(f) => SetFill(s, f, Leaving)
    case Deregister(f) => Deregistering(s, f)
    case Release(f) => s.(fills := s.fills - {f}, permits := s.permits + 1)
    case RequestPurge => s.(purge := Requested)
    case LockPurge => s.(purge := Exclusive)
    case Bump => s.(purge := Bumped, fence := Bumping(s.fence))
    case ClearMemory => s.(purge := MemoryCleared, memory := map[])
    case EndPurge(ok) =>
      if ok then s.(purge := Quiet, disk := map[], fence := s.fence.(cleansed := s.fence.purges)) else s.(purge := Quiet)
    case Adopt(generation) => s.(fence := Adopting(s.fence, generation))
    case Evict(key) => s.(memory := s.memory - {key}, disk := s.disk - {key})
  }

  /** Events of a lookup that touch nothing but the lookups. */
  predicate MovesLookup(e: Event) {
    || e.Arrive? || e.Lock? || e.CheckToken? || e.ReadMemory? || e.ReadDisk? || e.Recheck?
    || e.Follow? || e.LeaveLookup?
  }

  lemma LookupMovesAlone(s: State, e: Event)
    requires Enabled(s, e) && MovesLookup(e)
    ensures Apply(s, e) == s.(lookups := Apply(s, e).lookups)
  {
  }

  /** Events of a fill that touch nothing but the fills. */
  predicate MovesFill(e: Event) {
    e.Complete? || e.Abandon? || e.LockFill? || e.CheckFill? || e.Settle?
  }

  lemma FillMovesAlone(s: State, e: Event)
    requires Enabled(s, e) && MovesFill(e)
    ensures Apply(s, e) == s.(fills := Apply(s, e).fills)
  {
  }

  // ------------------------------------------------------------------
  // Runs
  // ------------------------------------------------------------------

  predicate Next(s: State, e: Event, s': State) {
    Enabled(s, e) && s' == Apply(s, e)
  }

  ghost predicate IsRun(states: seq<State>, events: seq<Event>, generation: nat, maxFills: nat) {
    && |states| == |events| + 1
    && states[0] == Initial(generation, maxFills)
    && (forall n {:trigger events[n]} :: 0 <= n < |events| ==> Next(states[n], events[n], states[n + 1]))
  }
}
