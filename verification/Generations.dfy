/**
 * Generations of one balanced route. A reconfiguration builds a candidate that
 * shares nodes with the published generation where nothing about them changed,
 * publication retires the nodes the candidate left out, and requests hold
 * leases across all of it.
 */
module Generations {
  import opened Wrappers
  import opened MemberGate
  import NodeHealth

  type Policy = NodeHealth.Policy

  datatype Desired = Serving | Draining | Maintenance

  /** Node identity is an index into the table of gates; entries are never reused. */
  datatype Generation = Generation(policy: Policy, nodes: seq<nat>, states: seq<Desired>)

  ghost predicate Known(gates: seq<Gate>, g: Generation) {
    && |g.nodes| == |g.states|
    && forall i :: 0 <= i < |g.nodes| ==> g.nodes[i] < |gates|
  }

  /** The promise of a published generation: member `i` admits requests exactly when it should serve. */
  ghost predicate FollowsIntent(gates: seq<Gate>, g: Generation) {
    && Known(gates, g)
    && forall i :: 0 <= i < |g.nodes| ==> (Open(gates[g.nodes[i]]) <==> g.states[i] == Serving)
  }

  // ------------------------------------------------------------------
  // Building a candidate
  // ------------------------------------------------------------------

  /** The old node member `i` keeps, if the mapping names one that fits. */
  function Reusable(
    gates: seq<Gate>, previous: Option<Generation>, policy: Policy, mapping: seq<Option<nat>>, states: seq<Desired>,
    i: nat): Option<nat>
    requires i < |states|
  {
    if previous.None? || previous.value.policy != policy then None
    else if i >= |mapping| || mapping[i].None? || mapping[i].value >= |previous.value.nodes| then None
    else
      var node := previous.value.nodes[mapping[i].value];
      if node < |gates| && Open(gates[node]) == (states[i] == Serving) then Some(node) else None
  }

  function FreshGate(reused: Option<nat>, wanted: Desired): Gate {
    if reused.Some? || wanted == Serving then OPEN else Retired(OPEN)
  }

  /** The nodes of the candidate: kept ones, or the fresh one at the member's own position. */
  function Candidate(
    gates: seq<Gate>, previous: Option<Generation>, policy: Policy, mapping: seq<Option<nat>>, states: seq<Desired>)
    : Generation
  {
    Generation(
      policy,
      seq(|states|, i requires 0 <= i < |states| =>
        var reused := Reusable(gates, previous, policy, mapping, states, i);
        if reused.Some? then reused.value else |gates| + i),
      states)
  }

  function WithFresh(
    gates: seq<Gate>, previous: Option<Generation>, policy: Policy, mapping: seq<Option<nat>>, states: seq<Desired>)
    : seq<Gate>
  {
    gates + seq(|states|, i requires 0 <= i < |states| =>
      FreshGate(Reusable(gates, previous, policy, mapping, states, i), states[i]))
  }

  /** Whatever the mapping says, the candidate follows its intent and no existing gate moves. */
  lemma CandidateFollowsIntent(
    gates: seq<Gate>, previous: Option<Generation>, policy: Policy, mapping: seq<Option<nat>>, states: seq<Desired>)
    ensures var gates' := WithFresh(gates, previous, policy, mapping, states);
            && gates <= gates'
            && FollowsIntent(gates', Candidate(gates, previous, policy, mapping, states))
  {
    var gates' := WithFresh(gates, previous, policy, mapping, states);
    var next := Candidate(gates, previous, policy, mapping, states);
    forall i | 0 <= i < |states|
      ensures next.nodes[i] < |gates'| && (Open(gates'[next.nodes[i]]) <==> states[i] == Serving)
    {
      var reused := Reusable(gates, previous, policy, mapping, states, i);
      if reused.None? {
        assert gates'[|gates| + i] == FreshGate(reused, states[i]);
      }
    }
  }

  /**
   * Member `i` goes on as member `j` of the previous generation: same policy, mapped to it,
   * and that node already admits exactly what member `i` should.
   */
  predicate GoesOnAs(
    gates: seq<Gate>, previous: Option<Generation>, policy: Policy, mapping: seq<Option<nat>>, states: seq<Desired>,
    i: nat, j: nat)
    requires previous.Some? ==> Known(gates, previous.value)
  {
    && previous.Some? && previous.value.policy == policy
    && i < |states| && i < |mapping| && mapping[i] == Some(j) && j < |previous.value.nodes|
    && (Open(gates[previous.value.nodes[j]]) <==> states[i] == Serving)
  }

  /**
   * Member `i` of the candidate: one that goes on keeps its own old node, any other gets a new
   * node to itself, unused and open exactly when it should serve.
   */
  ghost predicate IsMember(
    gates: seq<Gate>, previous: Option<Generation>, policy: Policy, mapping: seq<Option<nat>>, states: seq<Desired>,
    i: nat, nodes: seq<nat>, gates': seq<Gate>)
    requires i < |states| == |nodes| && (previous.Some? ==> Known(gates, previous.value))
  {
    && (forall j: nat :: GoesOnAs(gates, previous, policy, mapping, states, i, j) ==> nodes[i] == previous.value.nodes[j])
    && ((forall j: nat :: !GoesOnAs(gates, previous, policy, mapping, states, i, j)) ==>
          && |gates| <= nodes[i] < |gates'|
          && gates'[nodes[i]] == Gate(states[i] != Serving, false, 0)
          && (forall k :: 0 <= k < |nodes| && k != i ==> nodes[k] != nodes[i]))
  }

  /** `next` is the candidate the mapping asks for, and no existing gate moves. */
  ghost predicate IsCandidate(
    gates: seq<Gate>, previous: Option<Generation>, policy: Policy, mapping: seq<Option<nat>>, states: seq<Desired>,
    next: Generation, gates': seq<Gate>)
    requires previous.Some? ==> Known(gates, previous.value)
  {
    && next.policy == policy && next.states == states && |next.nodes| == |states|
    && gates <= gates'
    && (forall i: nat :: i < |states| ==> IsMember(gates, previous, policy, mapping, states, i, next.nodes, gates'))
  }

  lemma ReusableExactly(
    gates: seq<Gate>, previous: Option<Generation>, policy: Policy, mapping: seq<Option<nat>>, states: seq<Desired>,
    i: nat)
    requires i < |states| && (previous.Some? ==> Known(gates, previous.value))
    ensures var reused := Reusable(gates, previous, policy, mapping, states, i);
            && (reused.Some? ==>
                  && reused.value < |gates|
                  && GoesOnAs(gates, previous, policy, mapping, states, i, mapping[i].value)
                  && reused.value == previous.value.nodes[mapping[i].value])
            && (reused.None? ==> forall j: nat :: !GoesOnAs(gates, previous, policy, mapping, states, i, j))
  {
  }

  lemma CandidateMember(
    gates: seq<Gate>, previous: Option<Generation>, policy: Policy, mapping: seq<Option<nat>>, states: seq<Desired>,
    i: nat)
    requires i < |states| && (previous.Some? ==> Known(gates, previous.value))
    ensures IsMember(gates, previous, policy, mapping, states, i,
                     Candidate(gates, previous, policy, mapping, states).nodes,
                     WithFresh(gates, previous, policy, mapping, states))
  {
    var nodes := Candidate(gates, previous, policy, mapping, states).nodes;
    ReusableExactly(gates, previous, policy, mapping, states, i);
    if Reusable(gates, previous, policy, mapping, states, i).None? {
      forall k: nat | k < |states| && k != i
        ensures nodes[k] != nodes[i]
      {
        ReusableExactly(gates, previous, policy, mapping, states, k);
      }
    }
  }

  /** A member goes on exactly where the mapping, the policy and its old gate allow it. */
  lemma CandidateIsExact(
    gates: seq<Gate>, previous: Option<Generation>, policy: Policy, mapping: seq<Option<nat>>, states: seq<Desired>)
    requires previous.Some? ==> Known(gates, previous.value)
    ensures IsCandidate(gates, previous, policy, mapping, states,
                        Candidate(gates, previous, policy, mapping, states),
                        WithFresh(gates, previous, policy, mapping, states))
  {
    forall i: nat | i < |states| {
      CandidateMember(gates, previous, policy, mapping, states, i);
    }
  }

  /** No two members share a node. */
  ghost predicate Distinct(nodes: seq<nat>) {
    forall i, j :: 0 <= i < j < |nodes| ==> nodes[i] != nodes[j]
  }

  /** No two members are mapped to the same old one. */
  ghost predicate NoRepeats(mapping: seq<Option<nat>>) {
    forall i, j :: 0 <= i < j < |mapping| && mapping[i].Some? ==> mapping[i] != mapping[j]
  }

  /** A mapping without repeats over distinct nodes gives distinct nodes. */
  lemma CandidateIsDistinct(
    gates: seq<Gate>, previous: Option<Generation>, policy: Policy, mapping: seq<Option<nat>>, states: seq<Desired>,
    next: Generation, gates': seq<Gate>)
    requires previous.Some? ==> Known(gates, previous.value) && Distinct(previous.value.nodes)
    requires NoRepeats(mapping) && IsCandidate(gates, previous, policy, mapping, states, next, gates')
    ensures Distinct(next.nodes)
  {
    forall i: nat, k: nat | i < k < |states|
      ensures next.nodes[i] != next.nodes[k]
    {
      assert IsMember(gates, previous, policy, mapping, states, i, next.nodes, gates');
      assert IsMember(gates, previous, policy, mapping, states, k, next.nodes, gates');
      if a: nat, b: nat :|
        GoesOnAs(gates, previous, policy, mapping, states, i, a) && GoesOnAs(gates, previous, policy, mapping, states, k, b) {
        assert a != b;
      }
    }
  }

  /** Every member mapped to itself, with unchanged intent and policy: the same nodes again. */
  lemma UnchangedKeepsNodes(gates: seq<Gate>, previous: Generation, mapping: seq<Option<nat>>, next: Generation, gates': seq<Gate>)
    requires FollowsIntent(gates, previous) && |mapping| == |previous.nodes|
    requires forall i :: 0 <= i < |mapping| ==> mapping[i] == Some(i)
    requires IsCandidate(gates, Some(previous), previous.policy, mapping, previous.states, next, gates')
    ensures next == previous
    ensures forall index: nat, node: nat :: !IsRetirement(previous, Some(next), index, node)
  {
    forall i: nat | i < |previous.nodes|
      ensures next.nodes[i] == previous.nodes[i]
    {
      assert IsMember(gates, Some(previous), previous.policy, mapping, previous.states, i, next.nodes, gates');
      assert GoesOnAs(gates, Some(previous), previous.policy, mapping, previous.states, i, i);
    }
  }

  /** A node of the candidate that is not new is one of its predecessor's. */
  lemma CandidateNodes(
    gates: seq<Gate>, previous: Option<Generation>, policy: Policy, mapping: seq<Option<nat>>, states: seq<Desired>,
    node: nat)
    requires previous.Some? ==> Known(gates, previous.value)
    requires node in Candidate(gates, previous, policy, mapping, states).nodes && node < |gates|
    ensures previous.Some? && node in previous.value.nodes
  {
  }

  /** Positions and nodes of the old generation that the successor, if any, does not contain. */
  predicate IsRetirement(outgoing: Generation, successor: Option<Generation>, index: nat, node: nat) {
    && index < |outgoing.nodes|
    && outgoing.nodes[index] == node
    && (successor.None? || node !in successor.value.nodes)
  }

  /** The table of all nodes, changed in place. */
  class Fleet {
    var gates: seq<Gate>

    constructor ()
      ensures gates == []
    {
      gates := [];
    }

    method WithMemberStates(
      policy: Policy, previous: Option<Generation>, mapping: seq<Option<nat>>, states: seq<Desired>)
      returns (next: Generation)
      requires previous.Some? ==> |mapping| == |states| && Known(gates, previous.value)
      modifies this
      ensures gates == WithFresh(old(gates), previous, policy, mapping, states)
      ensures next == Candidate(old(gates), previous, policy, mapping, states)
      ensures IsCandidate(old(gates), previous, policy, mapping, states, next, gates)
    {
      var compatible := previous.Some? && previous.value.policy == policy;
      var created := seq(|states|, _ => OPEN);
      var first := |gates|;
      var nodes: seq<nat> := seq(|states|, i requires 0 <= i < |states| => first + i);
      for index := 0 to |states|
        invariant gates == old(gates) && |created| == |nodes| == |states|
        invariant forall k :: 0 <= k < index ==>
          && created[k] == FreshGate(Reusable(gates, previous, policy, mapping, states, k), states[k])
          && nodes[k] == Candidate(gates, previous, policy, mapping, states).nodes[k]
        invariant forall k :: index <= k < |states| ==> created[k] == OPEN && nodes[k] == |gates| + k
      {
        var wantedOpen := states[index] == Serving;
        var reused := None;
        if compatible && mapping[index].Some? && mapping[index].value < |previous.value.nodes| {
          var node := previous.value.nodes[mapping[index].value];
          if Open(gates[node]) == wantedOpen {
            reused := Some(node);
          }
        }
        assert reused == Reusable(gates, previous, policy, mapping, states, index);
        if reused.Some? {
          nodes := nodes[index := reused.value];
        } else if !wantedOpen {
          created := created[index := Retired(created[index])];
        }
      }
      gates := gates + created;
      next := Generation(policy, nodes, states);
      CandidateIsExact(old(gates), previous, policy, mapping, states);
    }

    /** Collects what publication has to retire, without retiring it. */
    method Retirements(outgoing: Generation, successor: Option<Generation>) returns (records: seq<(nat, nat)>)
      ensures forall index: nat, node: nat :: (index, node) in records <==> IsRetirement(outgoing, successor, index, node)
    {
      records := [];
      for index := 0 to |outgoing.nodes|
        invariant forall i: nat, node: nat ::
          (i, node) in records <==> i < index && IsRetirement(outgoing, successor, i, node)
      {
        var node := outgoing.nodes[index];
        if successor.None? || node !in successor.value.nodes {
          records := records + [(index, node)];
        }
      }
    }
  }

  // ------------------------------------------------------------------
  // Runs
  // ------------------------------------------------------------------

  datatype Change =
    | Idle
    | Prepared(candidate: Generation)
    | Publishing(candidate: Generation, retiring: set<nat>)

  /**
   * `served` holds every node a published generation ever contained. Attempts
   * have counted themselves in and not yet confirmed the node's health.
   */
  datatype State = State(
    gates: seq<Gate>,
    current: Generation,
    change: Change,
    attempts: multiset<nat>,
    leases: multiset<nat>,
    served: set<nat>)

  datatype Event =
    | Build(policy: Policy, mapping: seq<Option<nat>>, states: seq<Desired>)
    | Discard
    | Begin
    | Retire(node: nat)
    | Publish
    | Try(node: nat)
    | Confirm(node: nat)
    | GiveUp(node: nat)
    | Finish(node: nat)

  function Start(policy: Policy, states: seq<Desired>): State {
    var first := Candidate([], None, policy, [], states);
    State(WithFresh([], None, policy, [], states), first, Idle, multiset{}, multiset{}, NodesOf(first))
  }

  function NodesOf(g: Generation): set<nat> {
    set node | node in g.nodes
  }

  predicate Enabled(s: State, e: Event) {
    match e
    case Build(_, mapping, states) => s.change.Idle? && |mapping| == |states|
    case Discard => s.change.Prepared?
    case Begin => s.change.Prepared?
    case Retire(node) => s.change.Publishing? && node in s.change.retiring && node < |s.gates|
    case Publish => s.change.Publishing? && s.change.retiring == {}
    case Try(node) => node < |s.gates| && node in s.served && Open(s.gates[node]) && s.gates[node].count < COUNT
    case Confirm(node) => node in s.attempts
    case GiveUp(node) => node in s.attempts && node < |s.gates| && s.gates[node].count > 0
    case Finish(node) => node in s.leases && node < |s.gates| && s.gates[node].count > 0
  }

  function Counted(gates: seq<Gate>, node: nat, delta: int): seq<Gate>
    requires node < |gates| && gates[node].count + delta >= 0
  {
    gates[node := gates[node].(count := gates[node].count + delta)]
  }

  function Apply(s: State, e: Event): State
    requires Enabled(s, e)
  {
    match e
    case Build(policy, mapping, states) =>
      s.(gates := WithFresh(s.gates, Some(s.current), policy, mapping, states),
         change := Prepared(Candidate(s.gates, Some(s.current), policy, mapping, states)))
    case Discard => s.(change := Idle)
    case Begin => s.(change := Publishing(s.change.candidate, NodesOf(s.current) - NodesOf(s.change.candidate)))
    case Retire(node) =>
      s.(gates := s.gates[node := Retired(s.gates[node])],
         change := s.change.(retiring := s.change.retiring - {node}))
    case Publish =>
      s.(current := s.change.candidate, change := Idle, served := s.served + NodesOf(s.change.candidate))
    case Try(node) => s.(gates := Counted(s.gates, node, 1), attempts := s.attempts + multiset{node})
    case Confirm(node) => s.(attempts := s.attempts - multiset{node}, leases := s.leases + multiset{node})
    case GiveUp(node) => s.(gates := Counted(s.gates, node, -1), attempts := s.attempts - multiset{node})
    case Finish(node) => s.(gates := Counted(s.gates, node, -1), leases := s.leases - multiset{node})
  }

  /** What a publication retires is what the collected records name. */
  lemma RetirementsAreTheRest(outgoing: Generation, successor: Generation, node: nat)
    ensures node in NodesOf(outgoing) - NodesOf(successor) <==>
            exists index :: IsRetirement(outgoing, Some(successor), index, node)
  {
    if node in NodesOf(outgoing) - NodesOf(successor) {
      var index: nat :| index < |outgoing.nodes| && outgoing.nodes[index] == node;
      assert IsRetirement(outgoing, Some(successor), index, node);
    }
  }

  predicate Next(s: State, e: Event, s': State) {
    Enabled(s, e) && s' == Apply(s, e)
  }

  ghost predicate IsRun(states: seq<State>, events: seq<Event>) {
    && |states| == |events| + 1
    && (exists policy, intent :: states[0] == Start(policy, intent))
    && forall n {:trigger events[n]} :: 0 <= n < |events| ==> Next(states[n], events[n], states[n + 1])
  }

  // ------------------------------------------------------------------
  // Invariant
  // ------------------------------------------------------------------

  /** A node some published generation contained and the current one does not. */
  predicate Superseded(s: State, node: nat) {
    node in s.served && node !in s.current.nodes
  }

  ghost predicate CountsHold(gates: seq<Gate>, attempts: multiset<nat>, leases: multiset<nat>) {
    && (forall n :: 0 <= n < |gates| ==> gates[n].count == attempts[n] + leases[n])
    && (forall n :: n in attempts || n in leases ==> n < |gates|)
  }

  ghost predicate CountsKeep(s: State) {
    CountsHold(s.gates, s.attempts, s.leases)
  }

  ghost predicate ServedHold(s: State) {
    && (forall n :: n in s.served ==> n < |s.gates|)
    && (forall n :: n in s.current.nodes ==> n in s.served)
    && (forall n :: n in s.served && n !in s.current.nodes ==> s.gates[n].retired)
  }

  /** During publication a node leaves either the set still to retire or the set of open ones. */
  ghost predicate ChangeHold(s: State) {
    match s.change
    case Idle => FollowsIntent(s.gates, s.current)
    case Prepared(candidate) =>
      && FollowsIntent(s.gates, s.current)
      && FollowsIntent(s.gates, candidate)
      && FreshOrShared(s, candidate)
    case Publishing(candidate, retiring) =>
      && Known(s.gates, s.current)
      && FollowsIntent(s.gates, candidate)
      && FreshOrShared(s, candidate)
      && (forall n :: n in retiring ==> n in s.current.nodes && n !in candidate.nodes)
      && (forall n :: n in s.current.nodes && n !in candidate.nodes && n !in retiring ==> s.gates[n].retired)
  }

  ghost predicate FreshOrShared(s: State, candidate: Generation) {
    forall n :: n in candidate.nodes && n in s.served ==> n in s.current.nodes
  }

  ghost predicate Inv(s: State) {
    CountsKeep(s) && ServedHold(s) && ChangeHold(s)
  }

  /** `gates` is `was` with counts moved, gates closed and entries added. */
  ghost predicate OnlyCloses(was: seq<Gate>, gates: seq<Gate>) {
    && |was| <= |gates|
    && forall n :: 0 <= n < |was| ==> was[n].retired ==> gates[n].retired
  }

  lemma StartHolds(policy: Policy, states: seq<Desired>)
    ensures Inv(Start(policy, states))
  {
  }

  /** A count moves on one gate; nothing else about any gate changes. */
  lemma CountedKeeps(gates: seq<Gate>, node: nat, delta: int, g: Generation)
    requires node < |gates| && gates[node].count + delta >= 0
    ensures var gates' := Counted(gates, node, delta);
            && |gates'| == |gates|
            && (forall n :: 0 <= n < |gates| ==> gates'[n].retired == gates[n].retired)
            && (FollowsIntent(gates, g) ==> FollowsIntent(gates', g))
  {
    var gates' := Counted(gates, node, delta);
    assert forall n :: 0 <= n < |gates| ==> Open(gates'[n]) == Open(gates[n]);
  }

  lemma TryOrLeaveKeeps(s: State, e: Event)
    requires Inv(s) && Enabled(s, e) && (e.Try? || e.GiveUp? || e.Finish?)
    ensures ServedHold(Apply(s, e)) && ChangeHold(Apply(s, e))
  {
    var delta := if e.Try? then 1 else -1;
    CountedKeeps(s.gates, e.node, delta, s.current);
    if !s.change.Idle? {
      CountedKeeps(s.gates, e.node, delta, s.change.candidate);
    }
  }

  lemma BuildKeepsCounts(s: State, policy: Policy, mapping: seq<Option<nat>>, states: seq<Desired>)
    requires CountsKeep(s)
    ensures CountsHold(WithFresh(s.gates, Some(s.current), policy, mapping, states), s.attempts, s.leases)
  {
  }

  lemma AttemptCounts(gates: seq<Gate>, attempts: multiset<nat>, leases: multiset<nat>, node: nat)
    requires CountsHold(gates, attempts, leases) && node < |gates|
    ensures CountsHold(Counted(gates, node, 1), attempts + multiset{node}, leases)
    ensures node in attempts ==> gates[node].count > 0 && CountsHold(Counted(gates, node, -1), attempts - multiset{node}, leases)
    ensures node in leases ==> gates[node].count > 0 && CountsHold(Counted(gates, node, -1), attempts, leases - multiset{node})
  {
  }

  lemma CountsKept(s: State, e: Event)
    requires Inv(s) && Enabled(s, e)
    ensures CountsKeep(Apply(s, e))
  {
    match e
    case Build(policy, mapping, states) => BuildKeepsCounts(s, policy, mapping, states);
    case Try(node) => AttemptCounts(s.gates, s.attempts, s.leases, node);
    case GiveUp(node) => AttemptCounts(s.gates, s.attempts, s.leases, node);
    case Finish(node) => AttemptCounts(s.gates, s.attempts, s.leases, node);
    case _ =>
  }

  lemma BuildKeeps(s: State, e: Event)
    requires Inv(s) && Enabled(s, e) && e.Build?
    ensures ServedHold(Apply(s, e)) && ChangeHold(Apply(s, e))
  {
    var s' := Apply(s, e);
    CandidateFollowsIntent(s.gates, Some(s.current), e.policy, e.mapping, e.states);
    forall n | n in s'.change.candidate.nodes && n in s.served
      ensures n in s.current.nodes
    {
      CandidateNodes(s.gates, Some(s.current), e.policy, e.mapping, e.states, n);
    }
  }

  lemma RetireKeeps(s: State, e: Event)
    requires Inv(s) && Enabled(s, e) && e.Retire?
    ensures ServedHold(Apply(s, e)) && ChangeHold(Apply(s, e))
  {
  }

  lemma PublishKeeps(s: State, e: Event)
    requires Inv(s) && Enabled(s, e) && (e.Publish? || e.Begin? || e.Discard? || e.Confirm?)
    ensures ServedHold(Apply(s, e)) && ChangeHold(Apply(s, e))
  {
  }

  lemma StepKeeps(s: State, e: Event)
    requires Inv(s) && Enabled(s, e)
    ensures Inv(Apply(s, e))
  {
    CountsKept(s, e);
    match e
    case Build(_, _, _) => BuildKeeps(s, e);
    case Retire(_) => RetireKeeps(s, e);
    case Try(_) => TryOrLeaveKeeps(s, e);
    case GiveUp(_) => TryOrLeaveKeeps(s, e);
    case Finish(_) => TryOrLeaveKeeps(s, e);
    case _ => PublishKeeps(s, e);
  }

  lemma {:induction false} RunInv(states: seq<State>, events: seq<Event>, n: nat)
    requires IsRun(states, events) && n < |states|
    ensures Inv(states[n])
  {
    if n == 0 {
      var policy, intent :| states[0] == Start(policy, intent);
      StartHolds(policy, intent);
    } else {
      RunInv(states, events, n - 1);
      assert Next(states[n - 1], events[n - 1], states[n]);
      StepKeeps(states[n - 1], events[n - 1]);
    }
  }

  // ------------------------------------------------------------------
  // Theorems
  // ------------------------------------------------------------------

  /**
   * Outside a publication, gate `i` of the current generation is open exactly
   * when member `i` should serve; during one, the same is already true of the
   * generation about to appear.
   */
  lemma GatesFollowIntent(states: seq<State>, events: seq<Event>, n: nat)
    requires IsRun(states, events) && n < |states|
    ensures !states[n].change.Publishing? ==> FollowsIntent(states[n].gates, states[n].current)
    ensures !states[n].change.Idle? ==> FollowsIntent(states[n].gates, states[n].change.candidate)
  {
    RunInv(states, events, n);
  }

  /** Each node's count is the number of requests holding it, and releasing never underflows. */
  lemma CountsAreLeases(states: seq<State>, events: seq<Event>, n: nat, node: nat)
    requires IsRun(states, events) && n < |states| && node < |states[n].gates|
    ensures states[n].gates[node].count == states[n].attempts[node] + states[n].leases[node]
    ensures node in states[n].attempts ==> Enabled(states[n], GiveUp(node))
    ensures node in states[n].leases ==> Enabled(states[n], Finish(node))
  {
    RunInv(states, events, n);
  }

  /** Building or dropping a candidate changes no existing gate and no published generation. */
  lemma CandidatesChangeNothing(states: seq<State>, events: seq<Event>, n: nat)
    requires IsRun(states, events) && n < |events| && (events[n].Build? || events[n].Discard?)
    ensures states[n].gates <= states[n + 1].gates
    ensures states[n + 1].current == states[n].current && states[n + 1].served == states[n].served
  {
    assert Next(states[n], events[n], states[n + 1]);
  }

  lemma OneStepOnlyCloses(s: State, e: Event)
    requires Inv(s) && Enabled(s, e)
    ensures OnlyCloses(s.gates, Apply(s, e).gates)
  {
    if e.Try? || e.GiveUp? || e.Finish? {
      CountedKeeps(s.gates, e.node, if e.Try? then 1 else -1, s.current);
    }
  }

  /** A retired node stays retired for the rest of the run. */
  lemma {:induction false} RetiredStaysRetired(states: seq<State>, events: seq<Event>, m: nat, n: nat)
    requires IsRun(states, events) && m <= n < |states|
    ensures OnlyCloses(states[m].gates, states[n].gates)
    decreases n - m
  {
    if m < n {
      RetiredStaysRetired(states, events, m, n - 1);
      RunInv(states, events, n - 1);
      assert Next(states[n - 1], events[n - 1], states[n]);
      OneStepOnlyCloses(states[n - 1], events[n - 1]);
    }
  }

  /** `node` is out of service in `s'`, and carries no more requests than in `s`. */
  predicate DrainsSince(s: State, s': State, node: nat) {
    && Superseded(s', node)
    && node < |s.gates| && node < |s'.gates|
    && s'.gates[node].retired
    && s'.gates[node].count <= s.gates[node].count
  }

  lemma SupersededIsRetired(s: State, node: nat)
    requires Inv(s) && Superseded(s, node)
    ensures DrainsSince(s, s, node)
  {
  }

  lemma SupersededStep(s: State, e: Event, s': State, node: nat)
    requires Inv(s) && Next(s, e, s') && Superseded(s, node)
    ensures DrainsSince(s, s', node)
  {
    SupersededIsRetired(s, node);
    if e.Build? {
      assert s'.gates[node] == s.gates[node];
    } else if e.Publish? {
      assert node !in s.change.candidate.nodes;
    } else if e.Try? {
      assert e.node != node;
    }
  }

  /** A node left out of a published generation never serves again: its load only drains. */
  lemma {:induction false} SupersededDrains(states: seq<State>, events: seq<Event>, m: nat, n: nat, node: nat)
    requires IsRun(states, events) && m <= n < |states| && Superseded(states[m], node)
    ensures DrainsSince(states[m], states[n], node)
    decreases n - m
  {
    if m == n {
      RunInv(states, events, n);
      SupersededIsRetired(states[n], node);
    } else {
      var s, e, s' := states[n - 1], events[n - 1], states[n];
      SupersededDrains(states, events, m, n - 1, node);
      RunInv(states, events, n - 1);
      assert Next(s, e, s');
      SupersededStep(s, e, s', node);
    }
  }

  // ------------------------------------------------------------------
  // What a publication makes of the request it was built for
  // ------------------------------------------------------------------

  /** Step `b` builds `next` on the generation that is still the current one in state `n`. */
  ghost predicate BuiltAt(states: seq<State>, events: seq<Event>, b: nat, n: nat, next: Generation) {
    && b < n < |states| && n <= |events| && events[b].Build?
    && Known(states[b].gates, states[b].current) && states[b].current == states[n].current
    && IsCandidate(states[b].gates, Some(states[b].current), events[b].policy, events[b].mapping, events[b].states,
                   next, states[b + 1].gates)
  }

  lemma CandidateStep(s: State, e: Event, s': State)
    requires Inv(s) && Next(s, e, s') && !s'.change.Idle?
    ensures s'.current == s.current
    ensures e.Build? ==>
      && Known(s.gates, s.current)
      && IsCandidate(s.gates, Some(s.current), e.policy, e.mapping, e.states, s'.change.candidate, s'.gates)
    ensures !e.Build? ==> !s.change.Idle? && s'.change.candidate == s.change.candidate
  {
    if e.Build? {
      CandidateIsExact(s.gates, Some(s.current), e.policy, e.mapping, e.states);
    }
  }

  /** A candidate under way is the one its own build asked for. */
  lemma {:induction false} CandidateOrigin(states: seq<State>, events: seq<Event>, n: nat) returns (b: nat)
    requires IsRun(states, events) && n < |states| && !states[n].change.Idle?
    ensures BuiltAt(states, events, b, n, states[n].change.candidate)
  {
    assert n > 0;
    RunInv(states, events, n - 1);
    assert Next(states[n - 1], events[n - 1], states[n]);
    CandidateStep(states[n - 1], events[n - 1], states[n]);
    if events[n - 1].Build? {
      b := n - 1;
    } else {
      b := CandidateOrigin(states, events, n - 1);
    }
  }

  /** What is published is what was asked for, on the generation it replaces, and admits as intended. */
  lemma PublishedAsBuilt(states: seq<State>, events: seq<Event>, n: nat) returns (b: nat)
    requires IsRun(states, events) && n < |events| && events[n] == Publish
    ensures BuiltAt(states, events, b, n, states[n + 1].current)
    ensures forall i :: 0 <= i < |events[b].states| ==>
      var node := states[n + 1].current.nodes[i];
      node < |states[n + 1].gates| && (Open(states[n + 1].gates[node]) <==> events[b].states[i] == Serving)
  {
    assert Next(states[n], events[n], states[n + 1]);
    b := CandidateOrigin(states, events, n);
    GatesFollowIntent(states, events, n + 1);
  }

  /** Where no request maps two members to one, no two members ever share a node. */
  lemma {:induction false} MembersStayDistinct(states: seq<State>, events: seq<Event>, n: nat)
    requires IsRun(states, events) && n < |states|
    requires forall m {:trigger events[m]} :: 0 <= m < n && events[m].Build? ==> NoRepeats(events[m].mapping)
    ensures Distinct(states[n].current.nodes)
  {
    if n == 0 {
      var policy, intent :| states[0] == Start(policy, intent);
    } else {
      MembersStayDistinct(states, events, n - 1);
      assert Next(states[n - 1], events[n - 1], states[n]);
      if events[n - 1] == Publish {
        var b := PublishedAsBuilt(states, events, n - 1);
        var e, s := events[b], states[b];
        CandidateIsDistinct(s.gates, Some(s.current), e.policy, e.mapping, e.states, states[n].current, states[b + 1].gates);
      }
    }
  }

  /** A request that changes nothing builds the current generation again and retires nothing. */
  lemma UnchangedRetiresNothing(states: seq<State>, events: seq<Event>, n: nat)
    requires IsRun(states, events) && n < |events| && events[n].Build?
    requires var g := states[n].current;
      && events[n].policy == g.policy && events[n].states == g.states
      && forall i :: 0 <= i < |events[n].mapping| ==> events[n].mapping[i] == Some(i)
    ensures states[n + 1].change == Prepared(states[n].current)
    ensures forall i :: 0 <= i < |states[n].gates| ==> states[n + 1].gates[i] == states[n].gates[i]
  {
    RunInv(states, events, n);
    assert Next(states[n], events[n], states[n + 1]);
    var s, e := states[n], events[n];
    CandidateIsExact(s.gates, Some(s.current), e.policy, e.mapping, e.states);
    UnchangedKeepsNodes(s.gates, s.current, e.mapping, states[n + 1].change.candidate, states[n + 1].gates);
  }
}
