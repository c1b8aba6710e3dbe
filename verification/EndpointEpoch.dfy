/**
 * Endpoint epochs of one balanced node. Name resolution, probes and leased
 * requests run concurrently and may be about different generations of the
 * endpoint behind the node; the node keeps evidence about the newest one only.
 */
module EndpointEpoch {
  import opened Wrappers
  import opened NodeHealth
  import opened MemberGate

  datatype NodeState = NodeState(epoch: nat, health: Health)

  // ------------------------------------------------------------------
  // One step of a node
  // ------------------------------------------------------------------

  /** A newer epoch replaces the health of the older endpoint by that of an untouched one. */
  function Advanced(p: Policy, n: NodeState, epoch: nat): NodeState {
    if n.epoch < epoch then NodeState(epoch, Untouched(p)) else n
  }

  function Probed(p: Policy, n: NodeState, epoch: nat, kind: Kind): NodeState {
    if p.active.None? || epoch < n.epoch then n
    else
      var current := Advanced(p, n, epoch);
      current.(health := Effect(p, current.health, Probe(kind)))
  }

  function Reported(p: Policy, n: NodeState, epoch: nat, r: Report): NodeState {
    if n.epoch == epoch then n.(health := Effect(p, n.health, r)) else n
  }

  /** The count or record a leased request's outcome leads to once it has been seen. */
  function Outcome(p: Policy, kind: Kind, now: nat): Report {
    if p.passive.Some? then Counted(kind)
    else Recorded(kind.HttpResponse? && kind.status < 500, now)
  }

  /**
   * Which result of a leased request leads to which counter: with a passive policy the listed
   * statuses, transport failures and timeouts are counted by class; with a cooldown policy alone
   * every answer below 500 clears the failures and everything else adds one.
   */
  lemma OutcomeMeans(p: Policy, h: Health, kind: Kind, now: nat)
    ensures var h' := Effect(p, h, Outcome(p, kind, now));
      && (p.passive.Some? ==>
            && h'.passiveHttp == h.passiveHttp
                 + (if kind.HttpResponse? && kind.status in p.passive.value.unhealthyStatuses then 1 else 0)
            && h'.passiveTcp == h.passiveTcp + (if kind == TransportFailure then 1 else 0)
            && h'.passiveTimeouts == h.passiveTimeouts + (if kind == Timeout then 1 else 0)
            && h'.failures == h.failures && h'.unavailableUntil == h.unavailableUntil)
      && (p.passive.None? && p.health.Some? ==>
            && h'.failures == (if kind.HttpResponse? && kind.status <= 499 then 0 else h.failures + 1)
            && h'.unavailableUntil ==
                 (if kind.HttpResponse? && kind.status <= 499 then 0
                  else if h.failures + 1 >= p.health.value.threshold then now + p.health.value.cooldown
                  else h.unavailableUntil))
      && (p.passive.None? && p.health.None? ==> h' == h)
  {
  }

  class Node {
    const policy: Policy
    const gate: MemberAdmission
    var epoch: nat
    var health: Health

    function State(): NodeState
      reads this
    {
      NodeState(epoch, health)
    }

    constructor (p: Policy)
      ensures policy == p && State() == NodeState(0, Untouched(p))
      ensures fresh(gate) && gate.Valid() && gate.State() == OPEN
    {
      policy, epoch := p, 0;
      gate := new MemberAdmission.Serving();
      var checking := p.active.Some? && p.active.value.initial == Checking;
      health := Health(None, 0, 0, checking, checking, false, false, 0, 0, 0, 0, 0, 0, 0);
    }

    /** Whether evidence about `e` may be applied, after resetting the node if `e` is newer. */
    method EnsureEpoch(e: nat) returns (current: bool)
      modifies this
      ensures State() == Advanced(policy, old(State()), e)
      ensures current == (epoch == e) == (old(epoch) <= e)
    {
      if epoch > e {
        return false;
      }
      if epoch == e {
        return true;
      }
      var checking := policy.active.Some? && policy.active.value.initial == Checking;
      health := health.(
        failures := 0, unavailableUntil := 0, activeUnhealthy := checking, initialCheckPending := checking,
        probeSeen := false, observation := None, passiveUnhealthy := false, activeSuccesses := 0,
        activeHttp := 0, activeTcp := 0, activeTimeouts := 0, passiveHttp := 0, passiveTcp := 0,
        passiveTimeouts := 0);
      epoch := e;
      return true;
    }

    method ObserveEpoch(e: nat) returns (current: bool)
      modifies this
      ensures State() == Advanced(policy, old(State()), e)
      ensures current == (epoch == e)
    {
      if epoch == e {
        return true;
      }
      if epoch > e {
        return false;
      }
      current := EnsureEpoch(e);
    }

    method RecordActiveStatusFor(e: nat, status: nat)
      modifies this
      ensures State() == Probed(policy, old(State()), e, HttpResponse(status))
      ensures policy.active.Some? && old(epoch) == e ==>
                var a := policy.active.value;
                && (status in a.healthyStatuses ==>
                      health.activeSuccesses == old(health.activeSuccesses) + 1 && health.activeHttp == 0)
                && (status !in a.healthyStatuses && status in a.unhealthyStatuses ==>
                      health.activeSuccesses == 0 && health.activeHttp == old(health.activeHttp) + 1)
                && (status !in a.healthyStatuses && status !in a.unhealthyStatuses ==>
                      && health.activeHttp == old(health.activeHttp)
                      && health.activeSuccesses == if a.initial == Checking then 0 else old(health.activeSuccesses))
    {
      if policy.active.None? {
        return;
      }
      var active := policy.active.value;
      var current := EnsureEpoch(e);
      if !current {
        return;
      }
      health := health.(observation := Some(Observation(ActiveProbe, HttpResponse(status))), probeSeen := true);
      if status in active.healthyStatuses {
        health := health.(
          activeHttp := 0, activeTcp := 0, activeTimeouts := 0, activeSuccesses := health.activeSuccesses + 1);
        if health.activeSuccesses >= active.successes {
          health := health.(
            activeUnhealthy := false, passiveUnhealthy := false, passiveHttp := 0, passiveTcp := 0,
            passiveTimeouts := 0, initialCheckPending := false);
        }
      } else if status in active.unhealthyStatuses {
        health := health.(activeSuccesses := 0, activeHttp := health.activeHttp + 1);
        if health.activeHttp >= active.httpFailures {
          health := health.(activeUnhealthy := true);
        }
      } else if active.initial == Checking {
        health := health.(activeSuccesses := 0);
      }
    }

    method RecordActiveTransportFailureFor(e: nat)
      modifies this
      ensures State() == Probed(policy, old(State()), e, TransportFailure)
    {
      if policy.active.None? {
        return;
      }
      var current := EnsureEpoch(e);
      if !current {
        return;
      }
      health := health.(
        observation := Some(Observation(ActiveProbe, TransportFailure)), probeSeen := true,
        activeSuccesses := 0, activeTcp := health.activeTcp + 1);
      if health.activeTcp >= policy.active.value.tcpFailures {
        health := health.(activeUnhealthy := true);
      }
    }

    method RecordActiveTimeoutFor(e: nat)
      modifies this
      ensures State() == Probed(policy, old(State()), e, Timeout)
    {
      if policy.active.None? {
        return;
      }
      var current := EnsureEpoch(e);
      if !current {
        return;
      }
      health := health.(
        observation := Some(Observation(ActiveProbe, Timeout)), probeSeen := true, activeSuccesses := 0,
        activeTimeouts := health.activeTimeouts + 1);
      if health.activeTimeouts >= policy.active.value.timeouts {
        health := health.(activeUnhealthy := true);
      }
    }

    /** Cooldown bookkeeping for a lease taken at `e`. */
    method Record(e: nat, success: bool, now: nat)
      modifies this
      ensures State() == Reported(policy, old(State()), e, Recorded(success, now))
    {
      if policy.health.None? || epoch != e {
        return;
      }
      if success {
        health := health.(failures := 0, unavailableUntil := 0);
      } else {
        health := health.(failures := health.failures + 1);
        if health.failures >= policy.health.value.threshold {
          health := health.(unavailableUntil := now + policy.health.value.cooldown);
        }
      }
    }

    method See(e: nat, kind: Kind)
      modifies this
      ensures State() == Reported(policy, old(State()), e, Seen(kind))
    {
      if epoch == e {
        health := health.(observation := Some(Observation(Passive, kind)));
      }
    }

    method RecordHttpStatus(e: nat, status: nat, now: nat)
      modifies this
      ensures var kind := HttpResponse(status);
              State() == Reported(policy, Reported(policy, old(State()), e, Seen(kind)), e, Outcome(policy, kind, now))
      ensures old(epoch) != e ==> State() == old(State())
      ensures old(epoch) == e && policy.passive.Some? ==>
                && health.passiveHttp == old(health.passiveHttp) + (if status in policy.passive.value.unhealthyStatuses then 1 else 0)
                && health.failures == old(health.failures)
      ensures old(epoch) == e && policy.passive.None? && policy.health.Some? ==>
                && health.failures == (if status <= 499 then 0 else old(health.failures) + 1)
                && (status <= 499 ==> health.unavailableUntil == 0)
                && (status >= 500 && health.failures >= policy.health.value.threshold ==>
                      health.unavailableUntil == now + policy.health.value.cooldown)
    {
      See(e, HttpResponse(status));
      if policy.passive.Some? {
        if epoch == e && status in policy.passive.value.unhealthyStatuses {
          health := health.(passiveHttp := health.passiveHttp + 1);
          if health.passiveHttp >= policy.passive.value.httpFailures {
            health := health.(passiveUnhealthy := true);
          }
        }
      } else {
        Record(e, status < 500, now);
      }
    }

    method RecordTransportFailure(e: nat, now: nat)
      modifies this
      ensures State() == Reported(policy, Reported(policy, old(State()), e, Seen(TransportFailure)), e,
                                  Outcome(policy, TransportFailure, now))
      ensures old(epoch) == e && policy.passive.Some? ==> health.passiveTcp == old(health.passiveTcp) + 1
      ensures old(epoch) == e && policy.passive.None? && policy.health.Some? ==> health.failures == old(health.failures) + 1
    {
      See(e, TransportFailure);
      if policy.passive.Some? {
        if epoch == e {
          health := health.(passiveTcp := health.passiveTcp + 1);
          if health.passiveTcp >= policy.passive.value.tcpFailures {
            health := health.(passiveUnhealthy := true);
          }
        }
      } else {
        Record(e, false, now);
      }
    }

    method RecordTimeout(e: nat, now: nat)
      modifies this
      ensures State() == Reported(policy, Reported(policy, old(State()), e, Seen(Timeout)), e,
                                  Outcome(policy, Timeout, now))
      ensures old(epoch) == e && policy.passive.Some? ==> health.passiveTimeouts == old(health.passiveTimeouts) + 1
      ensures old(epoch) == e && policy.passive.None? && policy.health.Some? ==> health.failures == old(health.failures) + 1
    {
      See(e, Timeout);
      if policy.passive.Some? {
        if epoch == e {
          health := health.(passiveTimeouts := health.passiveTimeouts + 1);
          if health.passiveTimeouts >= policy.passive.value.timeouts {
            health := health.(passiveUnhealthy := true);
          }
        }
      } else {
        Record(e, false, now);
      }
    }

    /** The node may be selected: its admission gate is open and its health allows it. */
    method AvailableNow(now: nat) returns (available: bool)
      requires gate.Valid()
      ensures available <==> Open(gate.State()) && Available(policy, State().health, now)
    {
      var open := gate.IsOpen();
      available :=
        && open
        && !health.initialCheckPending
        && !health.activeUnhealthy
        && !health.passiveUnhealthy
        && (policy.health.None? || health.unavailableUntil <= now);
    }
  }

  // ------------------------------------------------------------------
  // Runs
  // ------------------------------------------------------------------

  /**
   * Everything that happens to a node, each event in one locked step. A leased
   * request reports its result in two: it is seen, then counted or recorded.
   */
  datatype Event =
    | Resolve(epoch: nat)
    | ProbeEnds(epoch: nat, kind: Kind)
    | Acquire(epoch: nat, now: nat)
    | Saw(epoch: nat, kind: Kind)
    | Settled(epoch: nat, kind: Kind, now: nat)
    | Close

  /** `leased` holds the epochs at which leases were ever handed out; `open` is the admission gate. */
  datatype State = State(node: NodeState, leased: set<nat>, open: bool)

  function Start(p: Policy): State {
    State(NodeState(0, Untouched(p)), {}, true)
  }

  predicate IsAvailable(p: Policy, s: State, now: nat) {
    s.open && Available(p, s.node.health, now)
  }

  /** Leases are handed out at the node's epoch while it is available, and only a lease reports back. */
  predicate Enabled(p: Policy, s: State, e: Event) {
    match e
    case Acquire(epoch, now) => s.node.epoch == epoch && IsAvailable(p, s, now)
    case Saw(epoch, _) => epoch in s.leased
    case Settled(epoch, _, _) => epoch in s.leased
    case _ => true
  }

  function Apply(p: Policy, s: State, e: Event): State {
    match e
    case Resolve(epoch) => s.(node := Advanced(p, s.node, epoch))
    case ProbeEnds(epoch, kind) => s.(node := Probed(p, s.node, epoch, kind))
    case Acquire(epoch, _) => s.(leased := s.leased + {epoch})
    case Saw(epoch, kind) => s.(node := Reported(p, s.node, epoch, Seen(kind)))
    case Settled(epoch, kind, now) => s.(node := Reported(p, s.node, epoch, Outcome(p, kind, now)))
    case Close => s.(open := false)
  }

  function Final(p: Policy, events: seq<Event>): State {
    if events == [] then Start(p)
    else Apply(p, Final(p, events[..|events| - 1]), events[|events| - 1])
  }

  ghost predicate IsRun(p: Policy, events: seq<Event>) {
    events != [] ==>
      && IsRun(p, events[..|events| - 1])
      && Enabled(p, Final(p, events[..|events| - 1]), events[|events| - 1])
  }

  /** What an event tells about the endpoint of `epoch`. */
  function About(p: Policy, e: Event, epoch: nat): seq<Report> {
    match e
    case ProbeEnds(at, kind) => if at == epoch then [Probe(kind)] else []
    case Saw(at, kind) => if at == epoch then [Seen(kind)] else []
    case Settled(at, kind, now) => if at == epoch then [Outcome(p, kind, now)] else []
    case _ => []
  }

  /** Only the reports about one epoch, in order. */
  function Reports(p: Policy, events: seq<Event>, epoch: nat): seq<Report> {
    if events == [] then []
    else Reports(p, events[..|events| - 1], epoch) + About(p, events[|events| - 1], epoch)
  }

  /** The event carries an epoch the node has to follow. */
  predicate Announces(p: Policy, e: Event) {
    e.Resolve? || (e.ProbeEnds? && p.active.Some?)
  }

  // ------------------------------------------------------------------
  // Theorems
  // ------------------------------------------------------------------

  /** The node is at the newest epoch anyone announced, and every lease is at or before it. */
  lemma {:induction false} EpochIsNewest(p: Policy, events: seq<Event>)
    requires IsRun(p, events)
    ensures var s := Final(p, events);
            && (forall i :: 0 <= i < |events| && Announces(p, events[i]) ==> events[i].epoch <= s.node.epoch)
            && (s.node.epoch == 0
                || exists i :: 0 <= i < |events| && Announces(p, events[i]) && events[i].epoch == s.node.epoch)
            && (forall e :: e in s.leased ==> e <= s.node.epoch)
  {
    if events != [] {
      var before := events[..|events| - 1];
      EpochIsNewest(p, before);
      assert forall i :: 0 <= i < |before| ==> events[i] == before[i];
      assert Final(p, events).node.epoch >= Final(p, before).node.epoch;
    }
  }

  /** The epoch never goes back along a run. */
  lemma {:induction false} EpochNeverDecreases(p: Policy, events: seq<Event>, n: nat)
    requires n <= |events|
    ensures Final(p, events[..n]).node.epoch <= Final(p, events).node.epoch
  {
    if n == |events| {
      assert events[..n] == events;
    } else {
      var before := events[..|events| - 1];
      EpochNeverDecreases(p, before, n);
      assert before[..n] == events[..n];
    }
  }

  lemma {:induction false} NothingAboutTheFuture(p: Policy, events: seq<Event>, epoch: nat)
    requires IsRun(p, events) && Final(p, events).node.epoch < epoch
    ensures forall r :: r in Reports(p, events, epoch) ==> r.Probe? && p.active.None?
  {
    if events != [] {
      var before := events[..|events| - 1];
      var last := events[|events| - 1];
      EpochIsNewest(p, before);
      EpochIsNewest(p, events);
      NothingAboutTheFuture(p, before, epoch);
      assert Announces(p, last) ==> last.epoch <= Final(p, events).node.epoch;
    }
  }

  lemma {:induction false} IdleReports(p: Policy, reports: seq<Report>)
    requires forall r :: r in reports ==> r.Probe?
    requires p.active.None?
    ensures After(p, reports) == Untouched(p)
  {
    if reports != [] {
      IdleReports(p, reports[..|reports| - 1]);
    }
  }

  lemma FreshEpochIsUntouched(p: Policy, events: seq<Event>, epoch: nat)
    requires IsRun(p, events) && Final(p, events).node.epoch < epoch
    ensures After(p, Reports(p, events, epoch)) == Untouched(p)
  {
    NothingAboutTheFuture(p, events, epoch);
    var reports := Reports(p, events, epoch);
    if reports != [] {
      assert reports[0] in reports;
      IdleReports(p, reports);
    }
  }

  lemma AfterOne(p: Policy, reports: seq<Report>, r: Report)
    ensures After(p, reports + [r]) == Effect(p, After(p, reports), r)
  {
    assert (reports + [r])[..|reports|] == reports;
  }

  /** A step starts from the old health, or from none in a new epoch, and applies what it tells about the epoch. */
  lemma StepIsReport(p: Policy, s: State, e: Event)
    ensures var node := Apply(p, s, e).node;
            var base := if node.epoch == s.node.epoch then s.node.health else Untouched(p);
            node.health == if About(p, e, node.epoch) == [] then base else Effect(p, base, About(p, e, node.epoch)[0])
  {
  }

  /**
   * After any run the node's health is that of a fresh node which saw only the
   * reports about the current epoch.
   */
  lemma {:induction false} HealthIsReplay(p: Policy, events: seq<Event>)
    requires IsRun(p, events)
    ensures var s := Final(p, events);
            s.node.health == After(p, Reports(p, events, s.node.epoch))
  {
    if events != [] {
      var before := events[..|events| - 1];
      var last := events[|events| - 1];
      var epoch := Final(p, events).node.epoch;
      var reports := Reports(p, before, epoch);
      HealthIsReplay(p, before);
      StepIsReport(p, Final(p, before), last);
      if epoch != Final(p, before).node.epoch {
        EpochNeverDecreases(p, events, |before|);
        FreshEpochIsUntouched(p, before, epoch);
      }
      if About(p, last, epoch) == [] {
        assert Reports(p, events, epoch) == reports;
      } else {
        var r := About(p, last, epoch)[0];
        assert Reports(p, events, epoch) == reports + [r];
        AfterOne(p, reports, r);
      }
    }
  }

  /**
   * A node that starts in Checking is available only after the required number
   * of consecutive healthy probes of its current endpoint.
   */
  lemma CheckingNeedsProbes(p: Policy, events: seq<Event>, now: nat)
    requires IsRun(p, events) && IsPolicy(p)
    requires p.active.Some? && p.active.value.initial == Checking
    requires IsAvailable(p, Final(p, events), now)
    ensures HadRun(p.active.value, Relevant(p.active.value, Reports(p, events, Final(p, events).node.epoch)))
  {
    HealthIsReplay(p, events);
    PendingMeans(p, Reports(p, events, Final(p, events).node.epoch));
  }

  lemma {:induction false} OpenUntilClosed(p: Policy, events: seq<Event>)
    ensures Final(p, events).open <==> Close !in events
  {
    if events != [] {
      var before := events[..|events| - 1];
      OpenUntilClosed(p, before);
      assert events == before + [events[|events| - 1]];
    }
  }

  /**
   * Availability, for every configuration, is decided by the gate and by the
   * reports about the current epoch, and by nothing else.
   */
  lemma AvailableExactly(p: Policy, events: seq<Event>, now: nat)
    requires IsRun(p, events) && IsPolicy(p)
    ensures var s := Final(p, events);
            IsAvailable(p, s, now) <==> Close !in events && Deserved(p, Reports(p, events, s.node.epoch), now)
  {
    OpenUntilClosed(p, events);
    HealthIsReplay(p, events);
    AvailableIsDeserved(p, Reports(p, events, Final(p, events).node.epoch), now);
  }
}
