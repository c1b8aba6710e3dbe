/**
 * No cached entry survives a purge or a generation change: the invariant of the
 * fence, its preservation by every step, and what a hit can return in any run.
 */
module CacheFence {
  import opened Wrappers
  import opened CacheRuntime

  // ------------------------------------------------------------------
  // Invariant of the fence
  // ------------------------------------------------------------------

  predicate FenceOk(f: Fence) {
    && LocalOf(f.token) == f.purges % LOCAL_EPOCHS
    && GenerationOf(f.token) <= MAX_GENERATION
    && f.since <= f.purges && f.cleansed <= f.purges
  }

  /** Fewer than 2^32 purges have happened since the current generation was adopted. */
  predicate Unwrapped(f: Fence) {
    f.purges - f.since < LOCAL_EPOCHS
  }

  /** A capture lies in the past, and one of the current generation lies within it. */
  predicate StampOk(f: Fence, stamp: Stamp) {
    && stamp.generation <= GenerationOf(f.token)
    && stamp.count <= f.purges
    && (stamp.generation == GenerationOf(f.token) ==> f.since <= stamp.count)
  }

  /** A stored entry was captured in its key's namespace and after the last successful purge. */
  predicate EntryOk(f: Fence, key: Key, entry: Entry) {
    entry.stamp.generation == key.generation && StampOk(f, entry.stamp) && f.cleansed <= entry.stamp.count
  }

  predicate LookupOk(f: Fence, exclusive: bool, l: Lookup) {
    && StampOk(f, l.stamp) && l.key.generation == l.stamp.generation
    && (HoldsLookup(l.phase) ==> !exclusive)
    && (l.phase.Promoting? ==> EntryOk(f, l.key, l.phase.entry))
    && (l.phase.Got? && l.phase.result.Some? ==> EntryOk(f, l.key, l.phase.result.value))
  }

  predicate FillOk(f: Fence, exclusive: bool, fill: Fill) {
    && StampOk(f, fill.stamp) && fill.key.generation == fill.stamp.generation
    && (HoldsFill(fill.phase) ==> !exclusive)
    && (fill.phase.Putting? ==> fill.stamp.count == f.purges)
  }

  ghost predicate TierOk(f: Fence, m: map<Key, Entry>) {
    forall k :: k in m ==> EntryOk(f, k, m[k])
  }

  ghost predicate FenceInv(s: State) {
    && FenceOk(s.fence)
    && TierOk(s.fence, s.memory) && TierOk(s.fence, s.disk)
    && (s.purge == MemoryCleared ==> s.memory == map[])
    && (forall i :: i in s.lookups ==> LookupOk(s.fence, IsExclusive(s.purge), s.lookups[i]))
    && (forall f :: f in s.fills ==> FillOk(s.fence, IsExclusive(s.purge), s.fills[f]))
  }

  /** Within one unwrapped generation a matching token is the current one. */
  lemma MatchIsCurrent(f: Fence, stamp: Stamp)
    requires FenceOk(f) && StampOk(f, stamp) && Unwrapped(f) && Matches(f, stamp)
    ensures stamp == Stamp(GenerationOf(f.token), f.purges)
  {
  }

  // ------------------------------------------------------------------
  // The fence holds through every step
  // ------------------------------------------------------------------

  lemma SetLookupKeeps(s: State, i: Id, l: Lookup)
    requires FenceInv(s) && LookupOk(s.fence, IsExclusive(s.purge), l)
    ensures FenceInv(s.(lookups := s.lookups[i := l]))
  {
  }

  lemma SetFillKeeps(s: State, f: Id, fill: Fill)
    requires FenceInv(s) && FillOk(s.fence, IsExclusive(s.purge), fill)
    ensures FenceInv(s.(fills := s.fills[f := fill]))
  {
  }

  lemma ReadKeeps(s: State, e: Event)
    requires FenceInv(s) && Enabled(s, e) && (e.ReadMemory? || e.ReadDisk? || e.Promote?)
    ensures FenceInv(Apply(s, e))
  {
    SetLookupKeeps(s, e.i, Apply(s, e).lookups[e.i]);
  }

  lemma LookupStepKeeps(s: State, e: Event)
    requires FenceInv(s) && Enabled(s, e) && (e.Arrive? || e.Lock? || e.CheckToken? || e.Recheck? || e.Follow? || e.LeaveLookup?)
    ensures FenceInv(Apply(s, e))
  {
    if e.i in Apply(s, e).lookups {
      SetLookupKeeps(s, e.i, Apply(s, e).lookups[e.i]);
    }
  }

  lemma RegisterKeeps(s: State, i: Id, f: Id)
    requires FenceInv(s) && Enabled(s, Register(i, f))
    ensures FenceInv(Registering(s, i, f))
  {
    SetLookupKeeps(s, i, s.lookups[i].(phase := Following));
    SetFillKeeps(s, f, Fill(s.lookups[i].stamp, s.lookups[i].key, Capturing));
  }

  lemma FillStepKeeps(s: State, e: Event)
    requires FenceInv(s) && Unwrapped(s.fence) && Enabled(s, e)
    requires e.Complete? || e.Abandon? || e.LockFill? || e.CheckFill? || e.Settle? || e.Deregister? || e.Release?
    ensures FenceInv(Apply(s, e))
  {
    if e.CheckFill? && Matches(s.fence, s.fills[e.f].stamp) {
      MatchIsCurrent(s.fence, s.fills[e.f].stamp);
    }
    if e.f in Apply(s, e).fills {
      SetFillKeeps(s, e.f, Apply(s, e).fills[e.f]);
    }
  }

  lemma PutKeeps(s: State, f: Id, memory: bool)
    requires FenceInv(s) && Enabled(s, Put(f, memory))
    ensures FenceInv(Inserting(s, f, memory))
  {
  }

  lemma PurgeStepKeeps(s: State, e: Event)
    requires FenceInv(s) && Enabled(s, e) && (e.RequestPurge? || e.LockPurge? || e.ClearMemory?)
    ensures FenceInv(Apply(s, e))
  {
  }

  lemma EndPurgeKeeps(s: State, ok: bool)
    requires FenceInv(s) && Enabled(s, EndPurge(ok))
    ensures FenceInv(Apply(s, EndPurge(ok)))
  {
  }

  lemma EvictKeeps(s: State, key: Key)
    requires FenceInv(s)
    ensures FenceInv(Apply(s, Evict(key)))
  {
  }

  lemma BumpKeeps(s: State)
    requires FenceInv(s) && s.purge == Exclusive
    ensures FenceInv(Apply(s, Bump))
  {
    PackRoundTrip(GenerationOf(s.fence.token), LocalOf(s.fence.token) + 1);
  }

  lemma AdoptKeeps(s: State, generation: nat)
    requires FenceInv(s)
    ensures FenceInv(Apply(s, Adopt(generation)))
  {
    PackRoundTrip(Min(generation, MAX_GENERATION), LocalOf(s.fence.token));
  }

  lemma FenceKept(s: State, e: Event)
    requires FenceInv(s) && Unwrapped(s.fence) && Enabled(s, e)
    ensures FenceInv(Apply(s, e))
  {
    match e
    case Register(i, f) => RegisterKeeps(s, i, f);
    case Put(f, memory) => PutKeeps(s, f, memory);
    case Bump => BumpKeeps(s);
    case Adopt(generation) => AdoptKeeps(s, generation);
    case ReadMemory(_) => ReadKeeps(s, e);
    case ReadDisk(_) => ReadKeeps(s, e);
    case Promote(_) => ReadKeeps(s, e);
    case Complete(_, _) => FillStepKeeps(s, e);
    case Abandon(_) => FillStepKeeps(s, e);
    case LockFill(_) => FillStepKeeps(s, e);
    case CheckFill(_) => FillStepKeeps(s, e);
    case Settle(_) => FillStepKeeps(s, e);
    case Deregister(_) => FillStepKeeps(s, e);
    case Release(_) => FillStepKeeps(s, e);
    case RequestPurge => PurgeStepKeeps(s, e);
    case LockPurge => PurgeStepKeeps(s, e);
    case ClearMemory => PurgeStepKeeps(s, e);
    case EndPurge(ok) => EndPurgeKeeps(s, ok);
    case Evict(key) => EvictKeeps(s, key);
    case _ => LookupStepKeeps(s, e);
  }

  // ------------------------------------------------------------------
  // Runs
  // ------------------------------------------------------------------

  predicate Later(f: Fence, f': Fence) {
    && f.purges <= f'.purges && f.cleansed <= f'.cleansed
    && GenerationOf(f.token) <= GenerationOf(f'.token)
  }

  lemma OthersKeepFence(s: State, e: Event)
    requires Enabled(s, e) && e != Bump && !e.Adopt? && e != EndPurge(true)
    ensures Apply(s, e).fence == s.fence
  {
    if MovesLookup(e) {
      LookupMovesAlone(s, e);
    } else if MovesFill(e) {
      FillMovesAlone(s, e);
    }
  }

  lemma StepLater(s: State, e: Event, s': State)
    requires FenceOk(s.fence) && Next(s, e, s')
    ensures Later(s.fence, s'.fence)
    ensures e == EndPurge(true) ==> s'.fence.cleansed == s.fence.purges
    ensures e.Adopt? ==> GenerationOf(s'.fence.token) >= Min(e.generation, MAX_GENERATION)
  {
    if e == Bump {
      PackRoundTrip(GenerationOf(s.fence.token), LocalOf(s.fence.token) + 1);
    } else if e.Adopt? {
      PackRoundTrip(Min(e.generation, MAX_GENERATION), LocalOf(s.fence.token));
    } else if e != EndPurge(true) {
      OthersKeepFence(s, e);
    }
  }

  /**
   * What moves the token: a purge advances its lower half by one, modulo 2^32, and a higher
   * generation, capped at 32 bits, replaces its upper half; nothing else changes either half.
   */
  lemma TokenMovesExactly(s: State, e: Event, s': State)
    requires Next(s, e, s')
    ensures GenerationOf(s'.fence.token) ==
      if e.Adopt? then var g := if e.generation < 0xFFFF_FFFF then e.generation else 0xFFFF_FFFF;
                       if g > GenerationOf(s.fence.token) then g else GenerationOf(s.fence.token)
      else GenerationOf(s.fence.token)
    ensures LocalOf(s'.fence.token) ==
      if e == Bump then (LocalOf(s.fence.token) + 1) % 0x1_0000_0000 else LocalOf(s.fence.token)
  {
    if e == Bump {
      PackRoundTrip(GenerationOf(s.fence.token), LocalOf(s.fence.token) + 1);
    } else if e.Adopt? {
      PackRoundTrip(Min(e.generation, MAX_GENERATION), LocalOf(s.fence.token));
    } else if e != EndPurge(true) {
      OthersKeepFence(s, e);
    }
  }

  /** Up to state `h` no generation has seen 2^32 purges. */
  ghost predicate UnwrappedUpTo(states: seq<State>, h: nat) {
    forall n :: 0 <= n <= h && n < |states| ==> Unwrapped(states[n].fence)
  }

  lemma {:induction false} RunInv(states: seq<State>, events: seq<Event>, generation: nat, maxFills: nat, n: nat)
    requires IsRun(states, events, generation, maxFills) && n < |states| && UnwrappedUpTo(states, n)
    ensures FenceInv(states[n])
  {
    if n == 0 {
      PackRoundTrip(Min(generation, MAX_GENERATION), 0);
    } else {
      RunInv(states, events, generation, maxFills, n - 1);
      assert Next(states[n - 1], events[n - 1], states[n]);
      FenceKept(states[n - 1], events[n - 1]);
    }
  }

  lemma {:induction false} RunLater(states: seq<State>, events: seq<Event>, generation: nat, maxFills: nat, j: nat, n: nat)
    requires IsRun(states, events, generation, maxFills) && j <= n < |states| && UnwrappedUpTo(states, n)
    ensures Later(states[j].fence, states[n].fence)
    decreases n - j
  {
    if j < n {
      RunLater(states, events, generation, maxFills, j, n - 1);
      RunInv(states, events, generation, maxFills, n - 1);
      StepLater(states[n - 1], events[n - 1], states[n]);
    }
  }

  /** The lookup of step `h` returns `entry`. */
  predicate Hits(states: seq<State>, events: seq<Event>, h: nat, entry: Entry)
    requires |states| == |events| + 1
  {
    && h < |events| && events[h].Recheck? && Enabled(states[h], events[h])
    && Hit(states[h], events[h].i) == Some(entry)
  }

  /** A hit belongs to the current generation and was captured after the last successful purge. */
  lemma HitIsCurrent(states: seq<State>, events: seq<Event>, generation: nat, maxFills: nat, h: nat, entry: Entry)
    requires IsRun(states, events, generation, maxFills) && Hits(states, events, h, entry) && UnwrappedUpTo(states, h)
    ensures entry.stamp.generation == GenerationOf(states[h].fence.token)
    ensures states[h].fence.cleansed <= entry.stamp.count <= states[h].fence.purges
  {
    RunInv(states, events, generation, maxFills, h);
    var l := states[h].lookups[events[h].i];
    assert LookupOk(states[h].fence, IsExclusive(states[h].purge), l);
    MatchIsCurrent(states[h].fence, l.stamp);
  }

  /** After a successful purge no lookup returns an entry whose request captured its token before it. */
  lemma PurgeIsEffective(states: seq<State>, events: seq<Event>, generation: nat, maxFills: nat, j: nat, h: nat, entry: Entry)
    requires IsRun(states, events, generation, maxFills) && Hits(states, events, h, entry) && UnwrappedUpTo(states, h)
    requires j < h && events[j] == EndPurge(true)
    ensures entry.stamp.count >= states[j].fence.purges
  {
    HitIsCurrent(states, events, generation, maxFills, h, entry);
    RunInv(states, events, generation, maxFills, j);
    StepLater(states[j], events[j], states[j + 1]);
    RunLater(states, events, generation, maxFills, j + 1, h);
  }

  /**
   * After a generation change no lookup returns an entry of an earlier generation, although the
   * change does not wait for publications under way.
   */
  lemma AdoptionIsEffective(states: seq<State>, events: seq<Event>, generation: nat, maxFills: nat, j: nat, h: nat, entry: Entry)
    requires IsRun(states, events, generation, maxFills) && Hits(states, events, h, entry) && UnwrappedUpTo(states, h)
    requires j < h && events[j].Adopt?
    ensures entry.stamp.generation >= Min(events[j].generation, MAX_GENERATION)
  {
    HitIsCurrent(states, events, generation, maxFills, h, entry);
    RunInv(states, events, generation, maxFills, j);
    StepLater(states[j], events[j], states[j + 1]);
    RunLater(states, events, generation, maxFills, j + 1, h);
  }

  /**
   * A capture passes the token check exactly when its generation is current and a whole number
   * of turns of the local counter has been purged since, so the bound on purges is what makes
   * the check exact.
   */
  lemma TokenCheckIsExact(f: Fence, stamp: Stamp)
    requires FenceOk(f) && stamp.count <= f.purges
    ensures Matches(f, stamp) <==>
      stamp.generation == GenerationOf(f.token) && (f.purges - stamp.count) % LOCAL_EPOCHS == 0
  {
  }
}
