/**
 * Fill capacity over every run: registrations and live fills correspond one to
 * one, permits are neither lost nor duplicated, and a finished capture keeps its
 * permit until its publication is over.
 */
module FillCapacity {
  import opened CacheRuntime

  predicate Registered(filling: map<Key, Id>, f: Id, fill: Fill) {
    fill.phase != Unregistered ==> fill.key in filling && filling[fill.key] == f
  }

  predicate Backed(fills: map<Id, Fill>, k: Key, f: Id) {
    f in fills && fills[f].key == k && fills[f].phase != Unregistered
  }

  ghost predicate Conserved(filling: map<Key, Id>, fills: map<Id, Fill>, permits: nat, maxFills: nat) {
    && (forall f :: f in fills ==> Registered(filling, f, fills[f]))
    && (forall k :: k in filling ==> Backed(fills, k, filling[k]))
    && permits + |fills| == maxFills
  }

  ghost predicate CapacityInv(s: State, maxFills: nat) {
    Conserved(s.filling, s.fills, s.permits, maxFills)
  }

  lemma NewFill(filling: map<Key, Id>, fills: map<Id, Fill>, permits: nat, maxFills: nat, f: Id, fill: Fill)
    requires Conserved(filling, fills, permits, maxFills)
    requires permits > 0 && f !in fills && fill.key !in filling && fill.phase != Unregistered
    ensures Conserved(filling[fill.key := f], fills[f := fill], permits - 1, maxFills)
  {
    assert fills[f := fill].Keys == fills.Keys + {f};
  }

  lemma FillMoves(filling: map<Key, Id>, fills: map<Id, Fill>, permits: nat, maxFills: nat, f: Id, fill: Fill)
    requires Conserved(filling, fills, permits, maxFills)
    requires f in fills && fill.key == fills[f].key && fill.phase != Unregistered && fills[f].phase != Unregistered
    ensures Conserved(filling, fills[f := fill], permits, maxFills)
  {
    assert fills[f := fill].Keys == fills.Keys;
  }

  lemma FillDeregisters(filling: map<Key, Id>, fills: map<Id, Fill>, permits: nat, maxFills: nat, f: Id)
    requires Conserved(filling, fills, permits, maxFills) && f in fills && fills[f].phase != Unregistered
    ensures Conserved(filling - {fills[f].key}, fills[f := fills[f].(phase := Unregistered)], permits, maxFills)
  {
    assert fills[f := fills[f].(phase := Unregistered)].Keys == fills.Keys;
  }

  lemma FillReleases(filling: map<Key, Id>, fills: map<Id, Fill>, permits: nat, maxFills: nat, f: Id)
    requires Conserved(filling, fills, permits, maxFills) && f in fills && fills[f].phase == Unregistered
    ensures Conserved(filling, fills - {f}, permits + 1, maxFills)
  {
    assert (fills - {f}).Keys == fills.Keys - {f};
  }

  lemma RegisterKeeps(s: State, i: Id, f: Id, maxFills: nat)
    requires CapacityInv(s, maxFills) && Enabled(s, Register(i, f))
    ensures CapacityInv(Registering(s, i, f), maxFills)
  {
    var l := s.lookups[i];
    if Matches(s.fence, l.stamp) && l.key !in s.filling && s.permits > 0 {
      NewFill(s.filling, s.fills, s.permits, maxFills, f, Fill(l.stamp, l.key, Capturing));
    }
  }

  lemma FillStepKeeps(s: State, e: Event, maxFills: nat)
    requires CapacityInv(s, maxFills) && Enabled(s, e) && MovesFill(e)
    ensures CapacityInv(Apply(s, e), maxFills)
  {
    FillMoves(s.filling, s.fills, s.permits, maxFills, e.f, Apply(s, e).fills[e.f]);
  }

  /** Events that touch neither fills nor permits. */
  predicate SparesFills(e: Event) {
    !e.Register? && !MovesFill(e) && !e.Deregister? && !e.Release?
  }

  predicate SameFills(s: State, s': State) {
    s'.filling == s.filling && s'.fills == s.fills && s'.permits == s.permits
  }

  lemma OtherStepKeeps(s: State, e: Event)
    requires Enabled(s, e) && SparesFills(e)
    ensures SameFills(s, Apply(s, e))
  {
    if MovesLookup(e) {
      LookupMovesAlone(s, e);
    }
  }

  lemma StepKeeps(s: State, e: Event, maxFills: nat)
    requires CapacityInv(s, maxFills) && Enabled(s, e)
    ensures CapacityInv(Apply(s, e), maxFills)
  {
    if e.Register? {
      RegisterKeeps(s, e.i, e.f, maxFills);
    } else if MovesFill(e) {
      FillStepKeeps(s, e, maxFills);
    } else if e.Deregister? {
      assert Registered(s.filling, e.f, s.fills[e.f]);
      FillDeregisters(s.filling, s.fills, s.permits, maxFills, e.f);
    } else if e.Release? {
      FillReleases(s.filling, s.fills, s.permits, maxFills, e.f);
    } else {
      OtherStepKeeps(s, e);
    }
  }

  lemma {:induction false} RunInv(states: seq<State>, events: seq<Event>, generation: nat, maxFills: nat, n: nat)
    requires IsRun(states, events, generation, maxFills) && n < |states|
    ensures CapacityInv(states[n], maxFills)
  {
    if n > 0 {
      RunInv(states, events, generation, maxFills, n - 1);
      assert Next(states[n - 1], events[n - 1], states[n]);
      StepKeeps(states[n - 1], events[n - 1], maxFills);
    }
  }

  /**
   * Free permits and live fills add up to the configured capacity, and a key has at most one
   * registered fill, which is the one its registration names.
   */
  lemma CapacityIsConserved(states: seq<State>, events: seq<Event>, generation: nat, maxFills: nat, n: nat)
    requires IsRun(states, events, generation, maxFills) && n < |states|
    ensures var s := states[n];
      && s.permits + |s.fills| == maxFills
      && |s.filling| <= |s.fills|
      && (forall f, g :: (f in s.fills && g in s.fills && s.fills[f].key == s.fills[g].key
            && s.fills[f].phase != Unregistered && s.fills[g].phase != Unregistered) ==> f == g)
      && (forall f :: f in s.fills && s.fills[f].phase != Unregistered ==>
            s.fills[f].key in s.filling && s.filling[s.fills[f].key] == f)
      && (forall k :: k in s.filling ==> s.filling[k] in s.fills && s.fills[s.filling[k]].key == k)
  {
    RunInv(states, events, generation, maxFills, n);
    var s := states[n];
    forall f | f in s.fills ensures Registered(s.filling, f, s.fills[f]) {}
    FewerRegistrations(s.filling, s.fills);
  }

  /** Distinct keys are backed by distinct fills. */
  lemma {:induction false} FewerRegistrations(filling: map<Key, Id>, fills: map<Id, Fill>)
    requires forall k :: k in filling ==> Backed(fills, k, filling[k])
    ensures |filling| <= |fills|
    decreases |filling|
  {
    if filling != map[] {
      var k :| k in filling;
      var rest, others := filling - {k}, fills - {filling[k]};
      assert rest.Keys == filling.Keys - {k} && others.Keys == fills.Keys - {filling[k]};
      FewerRegistrations(rest, others);
    }
  }

  // ------------------------------------------------------------------
  // A capture on its way into the store
  // ------------------------------------------------------------------

  /** Fill `f` carries the complete body of `key` towards the store. */
  predicate Publishes(s: State, f: Id, key: Key, body: seq<nat>) {
    && f in s.fills && s.fills[f].key == key
    && var phase := s.fills[f].phase;
       (phase.Queued? || phase.Checking? || phase.Putting?) && phase.body == body
  }

  /** The publication of `f` is over: the insertion has ended, or the token check refuses it. */
  predicate EndsPublication(s: State, e: Event, f: Id) {
    e == Settle(f) || (e == CheckFill(f) && f in s.fills && !Matches(s.fence, s.fills[f].stamp))
  }

  lemma PublicationStep(s: State, e: Event, s': State, f: Id, key: Key, body: seq<nat>)
    requires Next(s, e, s') && Publishes(s, f, key, body) && !EndsPublication(s, e, f)
    ensures Publishes(s', f, key, body)
  {
    if SparesFills(e) {
      OtherStepKeeps(s, e);
    }
  }

  lemma CompletionPublishes(s: State, s': State, f: Id, key: Key, body: seq<nat>)
    requires Next(s, Complete(f, body), s') && s.fills[f].key == key
    ensures Publishes(s', f, key, body)
  {
  }

  lemma {:induction false} StillPublishes(
    states: seq<State>, events: seq<Event>, generation: nat, maxFills: nat, n: nat, m: nat,
    f: Id, key: Key, body: seq<nat>)
    requires IsRun(states, events, generation, maxFills) && n <= m < |states|
    requires Publishes(states[n], f, key, body)
    requires forall i {:trigger events[i]} :: n <= i < m ==> !EndsPublication(states[i], events[i], f)
    ensures Publishes(states[m], f, key, body)
    decreases m
  {
    if n < m {
      var s, e := states[m - 1], events[m - 1];
      assert !EndsPublication(s, e, f);
      StillPublishes(states, events, generation, maxFills, n, m - 1, f, key, body);
      PublicationStep(s, e, states[m], f, key, body);
    }
  }

  /**
   * From the end of its capture until its insertion ends or its token is
   * refused, a fill keeps its permit, its registration and its body.
   */
  lemma PublicationKeepsPermit(
    states: seq<State>, events: seq<Event>, generation: nat, maxFills: nat, n: nat, m: nat,
    f: Id, key: Key, body: seq<nat>)
    requires IsRun(states, events, generation, maxFills) && n < m < |states|
    requires events[n] == Complete(f, body) && states[n].fills[f].key == key
    requires forall i {:trigger events[i]} :: n < i < m ==> !EndsPublication(states[i], events[i], f)
    ensures Publishes(states[m], f, key, body)
    ensures key in states[m].filling && states[m].filling[key] == f
    ensures states[m].permits + |states[m].fills| == maxFills
  {
    assert Next(states[n], events[n], states[n + 1]);
    CompletionPublishes(states[n], states[n + 1], f, key, body);
    StillPublishes(states, events, generation, maxFills, n + 1, m, f, key, body);
    RunInv(states, events, generation, maxFills, m);
    assert Registered(states[m].filling, f, states[m].fills[f]);
  }
}
