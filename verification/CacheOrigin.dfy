/**
 * Where a hit comes from: whatever a lookup returns is the complete body that a
 * fill captured for the same request, under the token that fill's own lookup
 * had captured. And what one request fills, the next one gets.
 */
module CacheOrigin {
  import opened Wrappers
  import opened CacheRuntime
  import opened CacheFence
  import opened FillCapacity

  // ------------------------------------------------------------------
  // Lookups
  // ------------------------------------------------------------------

  /** The token a lookup captures when it arrives in this state. */
  function Captured(s: State): Stamp {
    Stamp(GenerationOf(s.fence.token), s.fence.purges)
  }

  /** Lookup `i` arrived at step `a` for `request` and has been under way ever since, up to state `n`. */
  ghost predicate ArrivedAt(states: seq<State>, events: seq<Event>, a: nat, n: nat, i: Id, request: nat) {
    && a < n < |states| && n <= |events| && events[a] == Arrive(i, request)
    && (forall m :: a < m <= n ==> i in states[m].lookups)
  }

  predicate IsLookup(e: Event) {
    MovesLookup(e) || e.Promote? || e.Register?
  }

  lemma OthersSpareLookups(s: State, e: Event)
    requires Enabled(s, e) && !IsLookup(e)
    ensures Apply(s, e).lookups == s.lookups
  {
    if MovesFill(e) {
      FillMovesAlone(s, e);
    }
  }

  /** Lookup `i` is as it was. */
  predicate SameLookup(s: State, s': State, i: Id) {
    i in s'.lookups ==> i in s.lookups && s'.lookups[i] == s.lookups[i]
  }

  /** The events after which a lookup may or may not go on. */
  predicate Decides(e: Event) {
    e.CheckToken? || e.Recheck? || e.Register? || e.LeaveLookup?
  }

  lemma DecisionsSpareOthers(s: State, e: Event, i: Id)
    requires Enabled(s, e) && Decides(e) && e.i != i
    ensures SameLookup(s, Apply(s, e), i)
  {
  }

  lemma OtherLookupsStay(s: State, e: Event, i: Id)
    requires Enabled(s, e) && IsLookup(e) && e.i != i
    ensures SameLookup(s, Apply(s, e), i)
  {
    if Decides(e) {
      DecisionsSpareOthers(s, e, i);
    }
  }

  /** The lookup of the event, if it goes on, keeps its token and its key. */
  predicate SameKey(s: State, s': State, i: Id) {
    i in s'.lookups ==>
      i in s.lookups && s'.lookups[i].stamp == s.lookups[i].stamp && s'.lookups[i].key == s.lookups[i].key
  }

  lemma DecisionsKeepKey(s: State, e: Event)
    requires Enabled(s, e) && Decides(e)
    ensures SameKey(s, Apply(s, e), e.i)
  {
  }

  lemma LookupKeepsKey(s: State, e: Event)
    requires Enabled(s, e) && IsLookup(e) && !e.Arrive?
    ensures SameKey(s, Apply(s, e), e.i)
  {
    if Decides(e) {
      DecisionsKeepKey(s, e);
    }
  }

  lemma LookupStep(s: State, e: Event, i: Id)
    requires Enabled(s, e) && i in Apply(s, e).lookups
    ensures var l := Apply(s, e).lookups[i];
      || (e.Arrive? && e.i == i && i !in s.lookups
          && l.stamp == Captured(s) && l.key == Key(GenerationOf(s.fence.token), e.request))
      || (i in s.lookups && l.stamp == s.lookups[i].stamp && l.key == s.lookups[i].key)
  {
    if !IsLookup(e) {
      OthersSpareLookups(s, e);
    } else if e.i != i {
      OtherLookupsStay(s, e, i);
    } else if !e.Arrive? {
      LookupKeepsKey(s, e);
    }
  }

  /** A lookup works on its own request and on the token it captured on arrival. */
  lemma {:induction false} LookupOrigin(
    states: seq<State>, events: seq<Event>, generation: nat, maxFills: nat, n: nat, i: Id)
    returns (a: nat, request: nat)
    requires IsRun(states, events, generation, maxFills) && n < |states| && i in states[n].lookups
    ensures ArrivedAt(states, events, a, n, i, request)
    ensures states[n].lookups[i].stamp == Captured(states[a])
    ensures states[n].lookups[i].key == Key(GenerationOf(states[a].fence.token), request)
  {
    assert n > 0;
    var s, e := states[n - 1], events[n - 1];
    assert Next(s, e, states[n]);
    LookupStep(s, e, i);
    if i in s.lookups {
      a, request := LookupOrigin(states, events, generation, maxFills, n - 1, i);
    } else {
      a, request := n - 1, e.request;
    }
  }

  // ------------------------------------------------------------------
  // Fills
  // ------------------------------------------------------------------

  /** Fill `f` was registered at step `r` by lookup `i` and has existed ever since, up to state `n`. */
  ghost predicate RegisteredAt(states: seq<State>, events: seq<Event>, r: nat, n: nat, f: Id, i: Id) {
    && r < n < |states| && n <= |events| && events[r] == Register(i, f)
    && (forall m :: r < m <= n ==> f in states[m].fills)
  }

  predicate Carries(p: FillPhase, body: seq<nat>) {
    (p.Queued? || p.Checking? || p.Putting?) && p.body == body
  }

  /** Fill `f` is as it was. */
  predicate SameFill(s: State, s': State, f: Id) {
    f in s'.fills ==> f in s.fills && s'.fills[f] == s.fills[f]
  }

  lemma MovesSpareOthers(s: State, e: Event, f: Id)
    requires Enabled(s, e) && MovesFill(e) && e.f != f
    ensures SameFill(s, Apply(s, e), f)
  {
  }

  lemma OtherFillsStay(s: State, e: Event, f: Id)
    requires Enabled(s, e) && !SparesFills(e) && e.f != f
    ensures SameFill(s, Apply(s, e), f)
  {
    if MovesFill(e) {
      MovesSpareOthers(s, e, f);
    }
  }

  lemma FillKeepsKey(s: State, e: Event)
    requires Enabled(s, e) && !SparesFills(e) && !e.Register? && e.f in Apply(s, e).fills
    ensures e.f in s.fills
    ensures Apply(s, e).fills[e.f].stamp == s.fills[e.f].stamp && Apply(s, e).fills[e.f].key == s.fills[e.f].key
  {
  }

  lemma RegistersOwn(s: State, i: Id, f: Id)
    requires Enabled(s, Register(i, f)) && f in Apply(s, Register(i, f)).fills
    ensures Apply(s, Register(i, f)).fills[f] == Fill(s.lookups[i].stamp, s.lookups[i].key, Capturing)
  {
  }

  lemma FillStep(s: State, e: Event, f: Id)
    requires Enabled(s, e) && f in Apply(s, e).fills
    ensures var fill := Apply(s, e).fills[f];
      || (e.Register? && e.f == f && f !in s.fills && e.i in s.lookups
          && fill == Fill(s.lookups[e.i].stamp, s.lookups[e.i].key, Capturing))
      || (f in s.fills && fill.stamp == s.fills[f].stamp && fill.key == s.fills[f].key)
  {
    if SparesFills(e) {
      OtherStepKeeps(s, e);
    } else if e.f != f {
      OtherFillsStay(s, e, f);
    } else if e.Register? {
      RegistersOwn(s, e.i, f);
    } else {
      FillKeepsKey(s, e);
    }
  }

  lemma LeaversCarryNothing(s: State, e: Event)
    requires Enabled(s, e) && (e.Deregister? || e.Release?) && e.f in Apply(s, e).fills
    ensures Apply(s, e).fills[e.f].phase == Unregistered
  {
  }

  /** Only these events leave their fill with a body to publish. */
  lemma OnlyCarriers(s: State, e: Event, body: seq<nat>)
    requires Enabled(s, e) && !SparesFills(e) && e.f in Apply(s, e).fills && Carries(Apply(s, e).fills[e.f].phase, body)
    ensures e.Complete? || e.LockFill? || e.CheckFill?
  {
    if e.Register? {
      RegistersOwn(s, e.i, e.f);
    } else if !MovesFill(e) {
      LeaversCarryNothing(s, e);
    }
  }

  lemma MovedBody(s: State, e: Event, body: seq<nat>)
    requires Enabled(s, e) && !SparesFills(e) && e.f in Apply(s, e).fills && Carries(Apply(s, e).fills[e.f].phase, body)
    ensures e.f in s.fills && (e == Complete(e.f, body) || Carries(s.fills[e.f].phase, body))
  {
    OnlyCarriers(s, e, body);
  }

  lemma BodyStep(s: State, e: Event, f: Id, body: seq<nat>)
    requires Enabled(s, e) && f in Apply(s, e).fills && Carries(Apply(s, e).fills[f].phase, body)
    ensures f in s.fills && (e == Complete(f, body) || Carries(s.fills[f].phase, body))
  {
    if SparesFills(e) {
      OtherStepKeeps(s, e);
    } else if e.f == f {
      MovedBody(s, e, body);
    } else {
      OtherFillsStay(s, e, f);
    }
  }

  /** A fill works for the request and under the token of the lookup that registered it. */
  lemma {:induction false} FillOrigin(
    states: seq<State>, events: seq<Event>, generation: nat, maxFills: nat, n: nat, f: Id)
    returns (a: nat, request: nat, r: nat, i: Id)
    requires IsRun(states, events, generation, maxFills) && n < |states| && f in states[n].fills
    ensures ArrivedAt(states, events, a, r, i, request) && RegisteredAt(states, events, r, n, f, i)
    ensures f !in states[r].fills
    ensures states[n].fills[f].stamp == Captured(states[a])
    ensures states[n].fills[f].key == Key(GenerationOf(states[a].fence.token), request)
  {
    assert n > 0;
    var s, e := states[n - 1], events[n - 1];
    assert Next(s, e, states[n]);
    FillStep(s, e, f);
    if f in s.fills {
      a, request, r, i := FillOrigin(states, events, generation, maxFills, n - 1, f);
    } else {
      r, i := n - 1, e.i;
      a, request := LookupOrigin(states, events, generation, maxFills, r, i);
    }
  }

  /** What a fill is about to publish is the body its capture completed with. */
  lemma {:induction false} BodyOrigin(
    states: seq<State>, events: seq<Event>, generation: nat, maxFills: nat, n: nat, f: Id, body: seq<nat>)
    returns (c: nat)
    requires IsRun(states, events, generation, maxFills) && n < |states|
    requires f in states[n].fills && Carries(states[n].fills[f].phase, body)
    ensures c < n && events[c] == Complete(f, body) && (forall m :: c <= m <= n ==> f in states[m].fills)
  {
    assert n > 0;
    var s, e := states[n - 1], events[n - 1];
    assert Next(s, e, states[n]);
    BodyStep(s, e, f, body);
    if e == Complete(f, body) {
      c := n - 1;
    } else {
      c := BodyOrigin(states, events, generation, maxFills, n - 1, f, body);
    }
  }

  // ------------------------------------------------------------------
  // Entries
  // ------------------------------------------------------------------

  /** Where an entry can be. */
  datatype Place = InMemory(key: Key) | OnDisk(key: Key) | WithLookup(i: Id)

  function Held(s: State, place: Place): Option<(Key, Entry)> {
    match place
    case InMemory(k) => if k in s.memory then Some((k, s.memory[k])) else None
    case OnDisk(k) => if k in s.disk then Some((k, s.disk[k])) else None
    case WithLookup(i) =>
      if i !in s.lookups then None
      else
        match s.lookups[i].phase
        case Promoting(entry) => Some((s.lookups[i].key, entry))
        case Got(result) => if result.Some? then Some((s.lookups[i].key, result.value)) else None
        case _ => None
  }

  /** Fill `f` inserts this entry under this key. */
  predicate Inserts(s: State, e: Event, key: Key, entry: Entry) {
    && e.Put? && e.f in s.fills && s.fills[e.f].phase.Putting?
    && key == s.fills[e.f].key && entry == Entry(s.fills[e.f].phase.body, s.fills[e.f].stamp)
  }

  /** Events that write to a tier. */
  predicate WritesTier(e: Event) {
    e.Promote? || e.Put? || e == ClearMemory || e.EndPurge? || e.Evict?
  }

  lemma OthersSpareTiers(s: State, e: Event)
    requires Enabled(s, e) && !WritesTier(e)
    ensures Apply(s, e).memory == s.memory && Apply(s, e).disk == s.disk
  {
    if MovesLookup(e) {
      LookupMovesAlone(s, e);
    } else if MovesFill(e) {
      FillMovesAlone(s, e);
    }
  }

  /** An entry in a tier was there before, was promoted from disk by a lookup, or is inserted by a fill. */
  lemma TierStep(s: State, e: Event, place: Place) returns (from: Option<Place>)
    requires Enabled(s, e) && !place.WithLookup? && Held(Apply(s, e), place).Some?
    ensures from.Some? ==> Held(s, from.value) == Held(Apply(s, e), place)
    ensures from.None? ==>
      var (key, entry) := Held(Apply(s, e), place).value; Inserts(s, e, key, entry)
  {
    if !WritesTier(e) {
      OthersSpareTiers(s, e);
      from := Some(place);
    } else if Held(s, place) == Held(Apply(s, e), place) {
      from := Some(place);
    } else {
      from := if e.Promote? then Some(WithLookup(e.i)) else None;
    }
  }

  lemma OwnEntryStep(s: State, e: Event) returns (from: Place)
    requires Enabled(s, e) && IsLookup(e) && Held(Apply(s, e), WithLookup(e.i)).Some?
    ensures Held(s, from) == Held(Apply(s, e), WithLookup(e.i))
  {
    from :=
      if e.ReadMemory? then InMemory(s.lookups[e.i].key)
      else if e.ReadDisk? then OnDisk(s.lookups[e.i].key)
      else WithLookup(e.i);
  }

  /** An entry a lookup works with was with it before, or has just been read from a tier. */
  lemma LookupEntryStep(s: State, e: Event, i: Id) returns (from: Place)
    requires Enabled(s, e) && Held(Apply(s, e), WithLookup(i)).Some?
    ensures Held(s, from) == Held(Apply(s, e), WithLookup(i))
  {
    from := WithLookup(i);
    if !IsLookup(e) {
      OthersSpareLookups(s, e);
    } else if e.i == i {
      from := OwnEntryStep(s, e);
    } else {
      OtherLookupsStay(s, e, i);
    }
  }

  /** How an entry came about. */
  datatype Origin = Origin(
    request: nat, lookup: Id, fill: Id, arrived: nat, registered: nat, completed: nat, put: nat, memory: bool)

  /**
   * The lookup of the origin arrived for its request, registered the fill, the fill's capture
   * completed with the entry's body, and the fill put it there under the key of that request and
   * with the token captured on arrival.
   */
  ghost predicate Produced(
    states: seq<State>, events: seq<Event>, n: nat, key: Key, entry: Entry, o: Origin) {
    && ArrivedAt(states, events, o.arrived, o.registered, o.lookup, o.request)
    && RegisteredAt(states, events, o.registered, o.put, o.fill, o.lookup)
    && o.registered < o.completed < o.put < n <= |events|
    && events[o.completed] == Complete(o.fill, entry.body) && events[o.put] == Put(o.fill, o.memory)
    && key == Key(GenerationOf(states[o.arrived].fence.token), o.request)
    && entry.stamp == Captured(states[o.arrived])
  }

  lemma InsertedOrigin(
    states: seq<State>, events: seq<Event>, generation: nat, maxFills: nat, p: nat, key: Key, entry: Entry)
    returns (o: Origin)
    requires IsRun(states, events, generation, maxFills) && p < |events| && Inserts(states[p], events[p], key, entry)
    ensures Produced(states, events, p + 1, key, entry, o)
  {
    var f := events[p].f;
    var a, request, r, i := FillOrigin(states, events, generation, maxFills, p, f);
    var c := BodyOrigin(states, events, generation, maxFills, p, f, entry.body);
    o := Origin(request, i, f, a, r, c, p, events[p].memory);
  }

  /** Whatever is stored or about to be returned was produced by a fill. */
  lemma {:induction false} EntryOrigin(
    states: seq<State>, events: seq<Event>, generation: nat, maxFills: nat, n: nat, place: Place)
    returns (o: Origin)
    requires IsRun(states, events, generation, maxFills) && n < |states| && Held(states[n], place).Some?
    ensures Produced(states, events, n, Held(states[n], place).value.0, Held(states[n], place).value.1, o)
    decreases n
  {
    assert n > 0;
    var s, e := states[n - 1], events[n - 1];
    assert Next(s, e, states[n]);
    if place.WithLookup? {
      var from := LookupEntryStep(s, e, place.i);
      o := EntryOrigin(states, events, generation, maxFills, n - 1, from);
    } else {
      var from := TierStep(s, e, place);
      if from.Some? {
        o := EntryOrigin(states, events, generation, maxFills, n - 1, from.value);
      } else {
        var (key, entry) := Held(states[n], place).value;
        o := InsertedOrigin(states, events, generation, maxFills, n - 1, key, entry);
      }
    }
  }

  /**
   * A hit is the response to the request that asked: the lookup arrived at `a` for `request`, and
   * the entry is the complete body a fill captured for that very request, under the generation of
   * both lookups and the token captured by the one that filled.
   */
  lemma HitIsOwn(states: seq<State>, events: seq<Event>, generation: nat, maxFills: nat, h: nat, entry: Entry)
    returns (a: nat, request: nat, o: Origin)
    requires IsRun(states, events, generation, maxFills) && Hits(states, events, h, entry)
    ensures ArrivedAt(states, events, a, h, events[h].i, request)
    ensures Produced(states, events, h, Key(GenerationOf(states[a].fence.token), request), entry, o)
    ensures o.request == request && entry.stamp.generation == GenerationOf(states[a].fence.token)
  {
    var i := events[h].i;
    a, request := LookupOrigin(states, events, generation, maxFills, h, i);
    o := EntryOrigin(states, events, generation, maxFills, h, WithLookup(i));
  }

  // ------------------------------------------------------------------
  // What one request fills, the next one gets
  // ------------------------------------------------------------------

  /** The events are possible one after the other and lead from `s` to `s'`. */
  ghost predicate Plays(s: State, events: seq<Event>, s': State)
    decreases |events|
  {
    if events == [] then s' == s
    else Enabled(s, events[0]) && Plays(Apply(s, events[0]), events[1..], s')
  }

  lemma {:induction false} Continue(s: State, events: seq<Event>, s': State, more: seq<Event>, s'': State)
    requires Plays(s, events, s') && Plays(s', more, s'')
    ensures Plays(s, events + more, s'')
    decreases |events|
  {
    if events == [] {
      assert events + more == more;
    } else {
      Continue(Apply(s, events[0]), events[1..], s', more, s'');
      assert (events + more)[1..] == events[1..] + more;
    }
  }

  lemma PlayOne(s: State, e: Event)
    requires Enabled(s, e)
    ensures Plays(s, [e], Apply(s, e))
  {
    assert Plays(Apply(s, e), [], Apply(s, e));
  }

  lemma PlayTwo(s: State, e: Event, s': State, e': Event, s'': State)
    requires Next(s, e, s') && Next(s', e', s'')
    ensures Plays(s, [e, e'], s'')
  {
    PlayOne(s, e);
    PlayOne(s', e');
    Continue(s, [e], s', [e'], s'');
  }

  /** The key a request is looked up under in this state. */
  function KeyOf(s: State, request: nat): Key {
    Key(GenerationOf(s.fence.token), request)
  }

  /** The state with a lookup that arrived in it. */
  function With(s: State, i: Id, request: nat, phase: LookupPhase): State {
    s.(lookups := s.lookups[i := Lookup(Captured(s), KeyOf(s, request), false, phase)])
  }

  /** The state with the entry in memory. */
  function Stored(s: State, request: nat, entry: Entry): State {
    s.(memory := s.memory[KeyOf(s, request) := entry])
  }

  /** Nobody excludes lookups, and the packed token is in step with the purges counted. */
  predicate Serves(s: State) {
    FenceOk(s.fence) && !IsExclusive(s.purge)
  }

  lemma Enters(s: State, i: Id, request: nat)
    requires Serves(s) && i !in s.lookups
    ensures Plays(s, [Arrive(i, request), Lock(i)], With(s, i, request, Locked))
  {
    PlayTwo(s, Arrive(i, request), With(s, i, request, Started), Lock(i), With(s, i, request, Locked));
  }

  /** What a lookup holds after it has read the memory tier. */
  function FromMemory(s: State, request: nat): LookupPhase {
    if KeyOf(s, request) in s.memory then Got(Some(s.memory[KeyOf(s, request)])) else DiskReading
  }

  lemma ReadsMemory(s: State, i: Id, request: nat)
    requires Serves(s)
    ensures Plays(With(s, i, request, Locked), [CheckToken(i), ReadMemory(i)], With(s, i, request, FromMemory(s, request)))
  {
    assert Matches(s.fence, Captured(s));
    PlayTwo(With(s, i, request, Locked), CheckToken(i), With(s, i, request, Reading),
            ReadMemory(i), With(s, i, request, FromMemory(s, request)));
  }

  /** A lookup on its own, up to its last token check. */
  function Looks(i: Id, request: nat): seq<Event> {
    [Arrive(i, request), Lock(i)] + [CheckToken(i), ReadMemory(i)]
  }

  lemma ReachesMemory(s: State, i: Id, request: nat)
    requires Serves(s) && i !in s.lookups
    ensures Plays(s, Looks(i, request), With(s, i, request, FromMemory(s, request)))
  {
    Enters(s, i, request);
    ReadsMemory(s, i, request);
    Continue(s, [Arrive(i, request), Lock(i)], With(s, i, request, Locked),
             [CheckToken(i), ReadMemory(i)], With(s, i, request, FromMemory(s, request)));
  }

  /** An undisturbed lookup returns what the memory tier has for its request. */
  lemma MemoryHits(s: State, i: Id, request: nat)
    requires Serves(s) && i !in s.lookups && KeyOf(s, request) in s.memory
    ensures var s' := With(s, i, request, Got(Some(s.memory[KeyOf(s, request)])));
      && Plays(s, Looks(i, request), s')
      && Enabled(s', Recheck(i)) && Hit(s', i) == Some(s.memory[KeyOf(s, request)]) && Apply(s', Recheck(i)) == s
  {
    ReachesMemory(s, i, request);
    assert s.lookups[i := Lookup(Captured(s), KeyOf(s, request), false, Started)] - {i} == s.lookups;
  }

  lemma ReadsDisk(s: State, i: Id, request: nat)
    requires Serves(s) && KeyOf(s, request) in s.disk
    ensures var entry := s.disk[KeyOf(s, request)];
      Plays(With(s, i, request, DiskReading), [ReadDisk(i), Promote(i)],
            With(Stored(s, request, entry), i, request, Got(Some(entry))))
  {
    var entry := s.disk[KeyOf(s, request)];
    assert Matches(s.fence, Captured(s));
    PlayTwo(With(s, i, request, DiskReading), ReadDisk(i), With(s, i, request, Promoting(entry)),
            Promote(i), With(Stored(s, request, entry), i, request, Got(Some(entry))));
  }

  /** Otherwise it returns what the disk tier has, which is then in memory as well. */
  lemma DiskHits(s: State, i: Id, request: nat)
    requires Serves(s) && i !in s.lookups && KeyOf(s, request) !in s.memory && KeyOf(s, request) in s.disk
    ensures var entry := s.disk[KeyOf(s, request)];
      var s' := With(Stored(s, request, entry), i, request, Got(Some(entry)));
      && Plays(s, Looks(i, request) + [ReadDisk(i), Promote(i)], s')
      && Enabled(s', Recheck(i)) && Hit(s', i) == Some(entry) && Apply(s', Recheck(i)) == Stored(s, request, entry)
  {
    var s1 := Stored(s, request, s.disk[KeyOf(s, request)]);
    ReachesMemory(s, i, request);
    ReadsDisk(s, i, request);
    Continue(s, Looks(i, request), With(s, i, request, DiskReading), [ReadDisk(i), Promote(i)],
             With(s1, i, request, Got(Some(s1.memory[KeyOf(s, request)]))));
    MemoryHits(s1, i, request);
  }

  lemma Misses(s: State, i: Id, request: nat)
    requires Serves(s) && KeyOf(s, request) !in s.disk
    ensures Plays(With(s, i, request, DiskReading), [ReadDisk(i), Recheck(i)], With(s, i, request, Missed))
  {
    assert Matches(s.fence, Captured(s));
    PlayTwo(With(s, i, request, DiskReading), ReadDisk(i), With(s, i, request, Got(None)),
            Recheck(i), With(s, i, request, Missed));
  }

  /** A request that neither tier has an entry for misses both tiers. */
  lemma FirstMisses(s: State, i: Id, request: nat)
    requires Serves(s) && i !in s.lookups && KeyOf(s, request) !in s.memory && KeyOf(s, request) !in s.disk
    ensures Plays(s, Looks(i, request) + [ReadDisk(i), Recheck(i)], With(s, i, request, Missed))
  {
    ReachesMemory(s, i, request);
    Misses(s, i, request);
    Continue(s, Looks(i, request), With(s, i, request, DiskReading), [ReadDisk(i), Recheck(i)],
             With(s, i, request, Missed));
  }

  /** A miss on a key that somebody fills already waits for that fill and takes no permit. */
  lemma MissFollows(s: State, i: Id, f: Id, request: nat)
    requires Serves(s) && i !in s.lookups && f !in s.fills
    requires var k := KeyOf(s, request); k !in s.memory && k !in s.disk && k in s.filling
    ensures Plays(s, Looks(i, request) + [ReadDisk(i), Recheck(i)] + [Register(i, f)], With(s, i, request, Following))
  {
    FirstMisses(s, i, request);
    assert Matches(s.fence, Captured(s));
    PlayOne(With(s, i, request, Missed), Register(i, f));
    Continue(s, Looks(i, request) + [ReadDisk(i), Recheck(i)], With(s, i, request, Missed), [Register(i, f)],
             With(s, i, request, Following));
  }

  /** The state with a lookup on its second pass. */
  function Again(s: State, i: Id, request: nat, phase: LookupPhase): State {
    s.(lookups := s.lookups[i := Lookup(Captured(s), KeyOf(s, request), true, phase)])
  }

  lemma LooksAgain(s: State, i: Id, request: nat)
    requires Serves(s)
    ensures Plays(With(s, i, request, Following), [Follow(i), Lock(i)], Again(s, i, request, Locked))
  {
    PlayTwo(With(s, i, request, Following), Follow(i), Again(s, i, request, Started), Lock(i), Again(s, i, request, Locked));
  }

  lemma FindsIt(s: State, i: Id, request: nat)
    requires Serves(s) && KeyOf(s, request) in s.memory
    ensures Plays(Again(s, i, request, Locked), [CheckToken(i), ReadMemory(i)],
                  Again(s, i, request, Got(Some(s.memory[KeyOf(s, request)]))))
  {
    assert Matches(s.fence, Captured(s));
    PlayTwo(Again(s, i, request, Locked), CheckToken(i), Again(s, i, request, Reading),
            ReadMemory(i), Again(s, i, request, Got(Some(s.memory[KeyOf(s, request)]))));
  }

  /** Whoever waited returns what has been filled in the meantime. */
  lemma FollowerHits(s: State, i: Id, request: nat) returns (s': State)
    requires Serves(s) && KeyOf(s, request) in s.memory
    ensures Plays(With(s, i, request, Following), [Follow(i), Lock(i)] + [CheckToken(i), ReadMemory(i)], s')
    ensures Enabled(s', Recheck(i)) && Hit(s', i) == Some(s.memory[KeyOf(s, request)])
  {
    s' := Again(s, i, request, Got(Some(s.memory[KeyOf(s, request)])));
    LooksAgain(s, i, request);
    FindsIt(s, i, request);
    Continue(With(s, i, request, Following), [Follow(i), Lock(i)], Again(s, i, request, Locked),
             [CheckToken(i), ReadMemory(i)], s');
  }

  /** The state with one permit given to a fill of the request. */
  function Filling(s: State, f: Id, request: nat, phase: FillPhase): State
    requires s.permits > 0
  {
    s.(permits := s.permits - 1,
       filling := s.filling[KeyOf(s, request) := f],
       fills := s.fills[f := Fill(Captured(s), KeyOf(s, request), phase)])
  }

  lemma Registers(s: State, i: Id, f: Id, request: nat)
    requires Serves(s) && s.permits > 0 && KeyOf(s, request) !in s.filling && i !in s.lookups && f !in s.fills
    ensures Next(With(s, i, request, Missed), Register(i, f), Filling(s, f, request, Capturing))
  {
    assert Matches(s.fence, Captured(s));
    assert With(s, i, request, Missed).lookups - {i} == s.lookups;
  }

  /** A miss on a key nobody fills takes a permit and registers, and its capture completes. */
  lemma Fills(s: State, i: Id, f: Id, request: nat, body: seq<nat>)
    requires Serves(s) && s.permits > 0 && KeyOf(s, request) !in s.filling && i !in s.lookups && f !in s.fills
    ensures Plays(With(s, i, request, Missed), [Register(i, f), Complete(f, body)], Filling(s, f, request, Queued(body)))
  {
    Registers(s, i, f, request);
    PlayTwo(With(s, i, request, Missed), Register(i, f), Filling(s, f, request, Capturing),
            Complete(f, body), Filling(s, f, request, Queued(body)));
  }

  lemma Publishable(s: State, f: Id, request: nat, body: seq<nat>)
    requires Serves(s) && s.permits > 0
    ensures Plays(Filling(s, f, request, Queued(body)), [LockFill(f), CheckFill(f)], Filling(s, f, request, Putting(body)))
  {
    assert Matches(s.fence, Captured(s));
    PlayTwo(Filling(s, f, request, Queued(body)), LockFill(f), Filling(s, f, request, Checking(body)),
            CheckFill(f), Filling(s, f, request, Putting(body)));
  }

  lemma PutsInMemory(s: State, f: Id, request: nat, body: seq<nat>)
    requires Serves(s) && s.permits > 0
    ensures Plays(Filling(s, f, request, Putting(body)), [Put(f, true), Settle(f)],
                  Filling(Stored(s, request, Entry(body, Captured(s))), f, request, Leaving))
  {
    var s1 := Stored(s, request, Entry(body, Captured(s)));
    PlayTwo(Filling(s, f, request, Putting(body)), Put(f, true), Filling(s1, f, request, Putting(body)),
            Settle(f), Filling(s1, f, request, Leaving));
  }

  lemma Deregisters(s: State, f: Id, request: nat)
    requires s.permits > 0 && KeyOf(s, request) !in s.filling
    ensures Next(Filling(s, f, request, Leaving), Deregister(f),
                 Filling(s, f, request, Unregistered).(filling := s.filling))
  {
    var s0 := Filling(s, f, request, Leaving);
    assert s0.filling - {KeyOf(s, request)} == s.filling;
  }

  lemma GivesBack(s: State, f: Id, request: nat)
    requires s.permits > 0 && KeyOf(s, request) !in s.filling && f !in s.fills
    ensures Plays(Filling(s, f, request, Leaving), [Deregister(f), Release(f)], s)
  {
    var s1 := Filling(s, f, request, Unregistered).(filling := s.filling);
    Deregisters(s, f, request);
    assert s1.fills - {f} == s.fills;
    assert Next(s1, Release(f), s);
    PlayTwo(Filling(s, f, request, Leaving), Deregister(f), s1, Release(f), s);
  }

  /** A fill on its own, from its registration until its permit is free again. */
  function FillsUp(i: Id, f: Id, body: seq<nat>): seq<Event> {
    [Register(i, f), Complete(f, body)] + [LockFill(f), CheckFill(f)] + [Put(f, true), Settle(f)]
    + [Deregister(f), Release(f)]
  }

  /** Its fill leaves nothing behind but the entry: the permit and the registration are given back. */
  lemma ThenFills(s: State, i: Id, f: Id, request: nat, body: seq<nat>)
    requires Serves(s) && s.permits > 0 && KeyOf(s, request) !in s.filling && i !in s.lookups && f !in s.fills
    ensures Plays(With(s, i, request, Missed), FillsUp(i, f, body), Stored(s, request, Entry(body, Captured(s))))
  {
    var s0, s' := With(s, i, request, Missed), Stored(s, request, Entry(body, Captured(s)));
    var first := [Register(i, f), Complete(f, body)];
    var second := first + [LockFill(f), CheckFill(f)];
    var third := second + [Put(f, true), Settle(f)];
    Fills(s, i, f, request, body);
    Publishable(s, f, request, body);
    Continue(s0, first, Filling(s, f, request, Queued(body)), [LockFill(f), CheckFill(f)],
             Filling(s, f, request, Putting(body)));
    PutsInMemory(s, f, request, body);
    Continue(s0, second, Filling(s, f, request, Putting(body)), [Put(f, true), Settle(f)],
             Filling(s', f, request, Leaving));
    GivesBack(s', f, request);
    Continue(s0, third, Filling(s', f, request, Leaving), [Deregister(f), Release(f)], s');
  }

  /**
   * From any state that serves lookups and has a permit free: a request that misses fills, and the
   * same request asked again returns the body it filled with.
   */
  lemma FillThenHit(s: State, i: Id, f: Id, j: Id, request: nat, body: seq<nat>) returns (s1: State, s2: State)
    requires Serves(s) && s.permits > 0 && i !in s.lookups && j !in s.lookups && f !in s.fills
    requires var k := KeyOf(s, request); k !in s.memory && k !in s.disk && k !in s.filling
    ensures Plays(s, Looks(i, request) + [ReadDisk(i), Recheck(i)] + FillsUp(i, f, body), s1)
    ensures Plays(s1, Looks(j, request), s2)
    ensures Enabled(s2, Recheck(j)) && Hit(s2, j) == Some(Entry(body, Captured(s)))
    ensures Apply(s2, Recheck(j)) == s1 == s.(memory := s.memory[KeyOf(s, request) := Entry(body, Captured(s))])
  {
    s1 := Stored(s, request, Entry(body, Captured(s)));
    FirstMisses(s, i, request);
    ThenFills(s, i, f, request, body);
    Continue(s, Looks(i, request) + [ReadDisk(i), Recheck(i)], With(s, i, request, Missed), FillsUp(i, f, body), s1);
    s2 := With(s1, j, request, Got(Some(Entry(body, Captured(s)))));
    MemoryHits(s1, j, request);
  }

  // ------------------------------------------------------------------
  // Followers and purges
  // ------------------------------------------------------------------

  /** A lookup on its second pass, which neither waits again nor fills. */
  predicate IsSecond(s: State, i: Id) {
    i in s.lookups && s.lookups[i].second && s.lookups[i].phase != Missed && s.lookups[i].phase != Following
  }

  lemma SecondPass(s: State, e: Event)
    requires Enabled(s, e) && MovesLookup(e) && IsSecond(s, e.i) && e.i in Apply(s, e).lookups
    ensures IsSecond(Apply(s, e), e.i)
  {
  }

  lemma SecondStep(s: State, e: Event, i: Id)
    requires Enabled(s, e) && i in Apply(s, e).lookups && (IsSecond(s, i) || e == Follow(i))
    ensures IsSecond(Apply(s, e), i)
  {
    if e != Follow(i) {
      if !IsLookup(e) {
        OthersSpareLookups(s, e);
      } else if e.i != i {
        OtherLookupsStay(s, e, i);
      } else if MovesLookup(e) {
        SecondPass(s, e);
      }
    }
  }

  /** Whoever waited for another's fill looks once more and then neither waits again nor fills. */
  lemma {:induction false} FollowersLookOnce(
    states: seq<State>, events: seq<Event>, generation: nat, maxFills: nat, j: nat, n: nat, i: Id)
    requires IsRun(states, events, generation, maxFills) && j < n < |states| && events[j] == Follow(i)
    requires forall m :: j < m <= n ==> i in states[m].lookups
    ensures IsSecond(states[n], i)
    decreases n
  {
    assert Next(states[n - 1], events[n - 1], states[n]);
    if j < n - 1 {
      FollowersLookOnce(states, events, generation, maxFills, j, n - 1, i);
    }
    SecondStep(states[n - 1], events[n - 1], i);
  }

  lemma TakesLock(s: State)
    requires s.purge == Quiet && NoReaders(s)
    ensures Plays(s, [RequestPurge, LockPurge], s.(purge := Exclusive))
  {
    PlayTwo(s, RequestPurge, s.(purge := Requested), LockPurge, s.(purge := Exclusive));
  }

  lemma Empties(s: State)
    requires s.purge == Exclusive
    ensures Plays(s, [Bump, ClearMemory], s.(purge := MemoryCleared, memory := map[], fence := Bumping(s.fence)))
  {
    PlayTwo(s, Bump, s.(purge := Bumped, fence := Bumping(s.fence)), ClearMemory,
            s.(purge := MemoryCleared, memory := map[], fence := Bumping(s.fence)));
  }

  /** A purge that finds no reader empties both tiers and moves the token. */
  lemma UndisturbedPurgeEmpties(s: State) returns (s': State)
    requires FenceOk(s.fence) && s.purge == Quiet && NoReaders(s)
    ensures Plays(s, [RequestPurge, LockPurge] + [Bump, ClearMemory] + [EndPurge(true)], s')
    ensures s'.memory == map[] && s'.disk == map[] && s'.purge == Quiet
    ensures s'.fence.token != s.fence.token && s'.fence.purges == s.fence.purges + 1
    ensures s'.lookups == s.lookups && s'.fills == s.fills && s'.filling == s.filling && s'.permits == s.permits
  {
    var s1 := s.(purge := Exclusive);
    var s2 := s.(purge := MemoryCleared, memory := map[], fence := Bumping(s.fence));
    TakesLock(s);
    Empties(s1);
    Continue(s, [RequestPurge, LockPurge], s1, [Bump, ClearMemory], s2);
    PlayOne(s2, EndPurge(true));
    s' := Apply(s2, EndPurge(true));
    Continue(s, [RequestPurge, LockPurge] + [Bump, ClearMemory], s2, [EndPurge(true)], s');
    PackRoundTrip(GenerationOf(s.fence.token), LocalOf(s.fence.token) + 1);
  }
}
