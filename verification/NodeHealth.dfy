/**
 * The health of one balanced node. Probes and request feedback carry the epoch
 * of the endpoint they were made against; a newer epoch resets everything the
 * node knows. The first half says what one report does to the health fields,
 * the second what the fields mean in terms of the whole history of reports.
 */
module NodeHealth {
  import opened Wrappers

  datatype Initial = Healthy | Checking

  datatype ActivePolicy = ActivePolicy(
    initial: Initial,
    healthyStatuses: set<nat>,
    unhealthyStatuses: set<nat>,
    successes: nat,
    httpFailures: nat,
    tcpFailures: nat,
    timeouts: nat)

  datatype PassivePolicy = PassivePolicy(
    unhealthyStatuses: set<nat>,
    httpFailures: nat,
    tcpFailures: nat,
    timeouts: nat)

  datatype CooldownPolicy = CooldownPolicy(threshold: nat, cooldown: nat)

  datatype Policy = Policy(
    health: Option<CooldownPolicy>,
    active: Option<ActivePolicy>,
    passive: Option<PassivePolicy>)

  /** What validation demands: one way of judging health, and thresholds that can be reached. */
  predicate IsPolicy(p: Policy) {
    && (p.health.Some? ==> p.health.value.threshold >= 1)
    && (p.active.Some? ==> p.health.None? && p.active.value.successes >= 1)
    && (p.passive.Some? ==> p.active.Some? && p.health.None?)
  }

  datatype Source = ActiveProbe | Passive
  datatype Kind = HttpResponse(status: nat) | TransportFailure | Timeout

  datatype Observation = Observation(source: Source, kind: Kind)

  datatype Health = Health(
    observation: Option<Observation>,
    failures: nat,
    unavailableUntil: nat,
    activeUnhealthy: bool,
    initialCheckPending: bool,
    probeSeen: bool,
    passiveUnhealthy: bool,
    activeSuccesses: nat,
    activeHttp: nat,
    activeTcp: nat,
    activeTimeouts: nat,
    passiveHttp: nat,
    passiveTcp: nat,
    passiveTimeouts: nat)

  /**
   * One locked update of a node. Request feedback is two of them, which other
   * threads may separate: the observation, then the count it leads to.
   */
  datatype Report =
    | Probe(kind: Kind)
    | Seen(kind: Kind)
    | Counted(kind: Kind)
    | Recorded(success: bool, now: nat)

  // ------------------------------------------------------------------
  // What one report does
  // ------------------------------------------------------------------

  predicate StartsChecking(p: Policy) {
    p.active.Some? && p.active.value.initial == Checking
  }

  function Untouched(p: Policy): Health {
    Health(None, 0, 0, StartsChecking(p), StartsChecking(p), false, false, 0, 0, 0, 0, 0, 0, 0)
  }

  function ProbeHealthy(a: ActivePolicy, h: Health): Health {
    var cleared := h.(activeHttp := 0, activeTcp := 0, activeTimeouts := 0, activeSuccesses := h.activeSuccesses + 1);
    if cleared.activeSuccesses >= a.successes then
      cleared.(
        activeUnhealthy := false, passiveUnhealthy := false, initialCheckPending := false,
        passiveHttp := 0, passiveTcp := 0, passiveTimeouts := 0)
    else
      cleared
  }

  function ProbeFailed(a: ActivePolicy, h: Health, kind: Kind): Health {
    match kind
    case HttpResponse(_) =>
      h.(activeSuccesses := 0, activeHttp := h.activeHttp + 1,
         activeUnhealthy := h.activeUnhealthy || h.activeHttp + 1 >= a.httpFailures)
    case TransportFailure =>
      h.(activeSuccesses := 0, activeTcp := h.activeTcp + 1,
         activeUnhealthy := h.activeUnhealthy || h.activeTcp + 1 >= a.tcpFailures)
    case Timeout =>
      h.(activeSuccesses := 0, activeTimeouts := h.activeTimeouts + 1,
         activeUnhealthy := h.activeUnhealthy || h.activeTimeouts + 1 >= a.timeouts)
  }

  function ProbeNeutral(a: ActivePolicy, h: Health): Health {
    if a.initial == Checking then h.(activeSuccesses := 0) else h
  }

  predicate IsHealthy(a: ActivePolicy, kind: Kind) {
    kind.HttpResponse? && kind.status in a.healthyStatuses
  }

  /** Every transport failure and timeout fails; a status fails when listed, unless it is listed as healthy. */
  predicate IsFailure(a: ActivePolicy, kind: Kind) {
    !IsHealthy(a, kind) && (kind.HttpResponse? ==> kind.status in a.unhealthyStatuses)
  }

  function ProbeEffect(a: ActivePolicy, h: Health, kind: Kind): Health {
    var seen := h.(observation := Some(Observation(ActiveProbe, kind)), probeSeen := true);
    if IsHealthy(a, kind) then ProbeHealthy(a, seen)
    else if IsFailure(a, kind) then ProbeFailed(a, seen, kind)
    else ProbeNeutral(a, seen)
  }

  function CountedEffect(p: PassivePolicy, h: Health, kind: Kind): Health {
    match kind
    case HttpResponse(status) =>
      if status !in p.unhealthyStatuses then h
      else
        h.(passiveHttp := h.passiveHttp + 1,
           passiveUnhealthy := h.passiveUnhealthy || h.passiveHttp + 1 >= p.httpFailures)
    case TransportFailure =>
      h.(passiveTcp := h.passiveTcp + 1,
         passiveUnhealthy := h.passiveUnhealthy || h.passiveTcp + 1 >= p.tcpFailures)
    case Timeout =>
      h.(passiveTimeouts := h.passiveTimeouts + 1,
         passiveUnhealthy := h.passiveUnhealthy || h.passiveTimeouts + 1 >= p.timeouts)
  }

  function RecordedEffect(c: CooldownPolicy, h: Health, success: bool, now: nat): Health {
    if success then h.(failures := 0, unavailableUntil := 0)
    else
      h.(failures := h.failures + 1,
         unavailableUntil := if h.failures + 1 >= c.threshold then now + c.cooldown else h.unavailableUntil)
  }

  /** A report without the policy it needs changes nothing. */
  function Effect(p: Policy, h: Health, r: Report): Health {
    match r
    case Probe(kind) => if p.active.Some? then ProbeEffect(p.active.value, h, kind) else h
    case Seen(kind) => h.(observation := Some(Observation(Passive, kind)))
    case Counted(kind) => if p.passive.Some? then CountedEffect(p.passive.value, h, kind) else h
    case Recorded(success, now) => if p.health.Some? then RecordedEffect(p.health.value, h, success, now) else h
  }

  predicate Available(p: Policy, h: Health, now: nat) {
    && !h.initialCheckPending
    && !h.activeUnhealthy
    && !h.passiveUnhealthy
    && (p.health.None? || h.unavailableUntil <= now)
  }

  /** The health of a fresh node after a history of reports. */
  function After(p: Policy, history: seq<Report>): Health {
    if history == [] then Untouched(p)
    else Effect(p, After(p, history[..|history| - 1]), history[|history| - 1])
  }

  // ------------------------------------------------------------------
  // What the fields mean
  // ------------------------------------------------------------------

  /**
   * The probes that bear on the run of healthy ones, oldest first. A neutral
   * status counts, and so breaks the run, only under Checking.
   */
  function Relevant(a: ActivePolicy, history: seq<Report>): (probes: seq<Kind>)
    ensures |probes| <= |history|
  {
    if history == [] then []
    else
      var before := Relevant(a, history[..|history| - 1]);
      var last := history[|history| - 1];
      if last.Probe? && (a.initial == Checking || IsHealthy(a, last.kind) || IsFailure(a, last.kind))
      then before + [last.kind]
      else before
  }

  predicate AllHealthy(a: ActivePolicy, probes: seq<Kind>) {
    forall i :: 0 <= i < |probes| ==> IsHealthy(a, probes[i])
  }

  /** `run` is the length of the longest healthy suffix of the probes. */
  predicate IsTrailingRun(a: ActivePolicy, probes: seq<Kind>, run: nat) {
    && run <= |probes|
    && AllHealthy(a, probes[|probes| - run..])
    && (run < |probes| ==> !IsHealthy(a, probes[|probes| - run - 1]))
  }

  /** Somewhere in the history the required number of consecutive probes was healthy. */
  predicate HadRun(a: ActivePolicy, probes: seq<Kind>) {
    exists start :: 0 <= start <= |probes| - a.successes && HealthyWindow(a, probes, start)
  }

  predicate HealthyWindow(a: ActivePolicy, probes: seq<Kind>, start: int)
    requires 0 <= start <= |probes| - a.successes
  {
    AllHealthy(a, probes[start..start + a.successes])
  }

  /** The success counter is exactly the current run of healthy probes. */
  lemma {:induction false} SuccessesAreTheRun(p: Policy, history: seq<Report>)
    requires p.active.Some?
    ensures IsTrailingRun(p.active.value, Relevant(p.active.value, history), After(p, history).activeSuccesses)
  {
    if history != [] {
      var a := p.active.value;
      var before := history[..|history| - 1];
      var last := history[|history| - 1];
      SuccessesAreTheRun(p, before);
      SuccessStep(p, After(p, before), last);
      if last.Probe? {
        ExtendRun(a, Relevant(a, before), After(p, before).activeSuccesses, last.kind);
      }
    }
  }

  lemma ExtendRun(a: ActivePolicy, probes: seq<Kind>, run: nat, kind: Kind)
    requires IsTrailingRun(a, probes, run)
    ensures IsHealthy(a, kind) ==> IsTrailingRun(a, probes + [kind], run + 1)
    ensures !IsHealthy(a, kind) ==> IsTrailingRun(a, probes + [kind], 0)
  {
    var longer := probes + [kind];
    assert longer[|longer| - (run + 1)..] == probes[|probes| - run..] + [kind];
  }

  lemma SuccessStep(p: Policy, h: Health, r: Report)
    requires p.active.Some?
    ensures var a := p.active.value;
            Effect(p, h, r).activeSuccesses ==
              if r.Probe? && IsHealthy(a, r.kind) then h.activeSuccesses + 1
              else if r.Probe? && (a.initial == Checking || IsFailure(a, r.kind)) then 0
              else h.activeSuccesses
  {
  }

  /** A window that ends at the newest probe exists exactly when the current run is long enough. */
  lemma RunReachesEnd(a: ActivePolicy, probes: seq<Kind>, run: nat)
    requires IsTrailingRun(a, probes, run)
    ensures a.successes <= run <==>
            a.successes <= |probes| && HealthyWindow(a, probes, |probes| - a.successes)
  {
    if a.successes <= run {
      assert probes[|probes| - a.successes..] == probes[|probes| - run..][run - a.successes..];
    } else if a.successes <= |probes| {
      assert probes[|probes| - a.successes..][a.successes - run - 1] == probes[|probes| - run - 1];
    }
  }

  /** A new probe adds no window except one that ends with it. */
  lemma WindowsExtend(a: ActivePolicy, probes: seq<Kind>, kind: Kind)
    ensures HadRun(a, probes + [kind]) <==>
            HadRun(a, probes)
            || (a.successes <= |probes| + 1 && HealthyWindow(a, probes + [kind], |probes| + 1 - a.successes))
  {
    var longer := probes + [kind];
    forall start | 0 <= start <= |probes| - a.successes
      ensures HealthyWindow(a, longer, start) == HealthyWindow(a, probes, start)
    {
      assert longer[start..start + a.successes] == probes[start..start + a.successes];
    }
  }

  /**
   * A node that starts in Checking stays pending exactly as long as no run of
   * the required length has been seen; any other node is never pending.
   */
  lemma {:induction false} PendingMeans(p: Policy, history: seq<Report>)
    requires p.active.Some? && p.active.value.successes >= 1
    ensures After(p, history).initialCheckPending
            <==> p.active.value.initial == Checking && !HadRun(p.active.value, Relevant(p.active.value, history))
  {
    var a := p.active.value;
    if history != [] {
      var before := history[..|history| - 1];
      var last := history[|history| - 1];
      var probes := Relevant(a, before);
      PendingMeans(p, before);
      PendingStep(p, After(p, before), last);
      if Relevant(a, history) != probes {
        WindowsExtend(a, probes, last.kind);
        SuccessesAreTheRun(p, history);
        RunReachesEnd(a, Relevant(a, history), After(p, history).activeSuccesses);
        SuccessStep(p, After(p, before), last);
      }
    }
  }

  lemma PendingStep(p: Policy, h: Health, r: Report)
    requires p.active.Some?
    ensures var a := p.active.value;
            Effect(p, h, r).initialCheckPending ==
              (h.initialCheckPending && !(r.Probe? && IsHealthy(a, r.kind) && h.activeSuccesses + 1 >= a.successes))
  {
  }

  /** What a report does to a latched verdict. */
  datatype Mark = Trips | Recovers | Neither

  /** The verdict is up when it was tripped, or up from the start, and nothing recovered it since. */
  predicate Raised(initially: bool, marks: seq<Mark>) {
    || (initially && forall m :: 0 <= m < |marks| ==> marks[m] != Recovers)
    || (exists n :: 0 <= n < |marks| && marks[n] == Trips && NoneRecovers(marks, n + 1))
  }

  predicate NoneRecovers(marks: seq<Mark>, from: nat) {
    forall m :: from <= m < |marks| ==> marks[m] != Recovers
  }

  lemma RaisedStep(initially: bool, marks: seq<Mark>, mark: Mark)
    ensures Raised(initially, marks + [mark]) ==
            (mark == Trips || (mark == Neither && Raised(initially, marks)))
  {
    var longer := marks + [mark];
    assert longer[|marks|] == mark;
    forall n | 0 <= n < |marks|
      ensures longer[n] == marks[n]
      ensures NoneRecovers(longer, n + 1) == (NoneRecovers(marks, n + 1) && mark != Recovers)
    {
      if NoneRecovers(longer, n + 1) {
        forall m | n + 1 <= m < |marks|
          ensures marks[m] != Recovers
        {
          assert longer[m] != Recovers;
        }
      }
    }
    if mark == Trips {
      assert NoneRecovers(longer, |marks| + 1);
    }
  }

  /** What a report does to a count. */
  datatype Tick = Adds | Clears | Keeps

  /** Position `i` adds, and nothing clears after it. */
  predicate Stands(ticks: seq<Tick>, i: nat) {
    i < |ticks| && ticks[i] == Adds && (forall j :: i < j < |ticks| ==> ticks[j] != Clears)
  }

  function Standing(ticks: seq<Tick>): set<nat> {
    set i | 0 <= i < |ticks| && Stands(ticks, i)
  }

  function Tally(ticks: seq<Tick>): nat {
    |Standing(ticks)|
  }

  lemma StandsStep(ticks: seq<Tick>, tick: Tick, i: nat)
    ensures Stands(ticks + [tick], i) <==>
            (i == |ticks| && tick == Adds) || (tick != Clears && Stands(ticks, i))
  {
    var longer := ticks + [tick];
    assert longer[|ticks|] == tick;
    assert forall j :: 0 <= j < |ticks| ==> longer[j] == ticks[j];
  }

  lemma TallyStep(ticks: seq<Tick>, tick: Tick)
    ensures Tally(ticks + [tick]) ==
            (match tick case Adds => Tally(ticks) + 1 case Clears => 0 case Keeps => Tally(ticks))
  {
    forall i: nat
      ensures i in Standing(ticks + [tick]) <==>
              (i == |ticks| && tick == Adds) || (tick != Clears && i in Standing(ticks))
    {
      StandsStep(ticks, tick, i);
    }
    match tick
    case Adds => assert Standing(ticks + [tick]) == Standing(ticks) + {|ticks|};
    case Clears => assert Standing(ticks + [tick]) == {};
    case Keeps => assert Standing(ticks + [tick]) == Standing(ticks);
  }

  function FailureTick(a: ActivePolicy, r: Report, kind: Kind): Tick {
    if r.Probe? && IsHealthy(a, r.kind) then Clears
    else if r.Probe? && IsFailure(a, r.kind) && SameClass(r.kind, kind) then Adds
    else Keeps
  }

  /** How many failed probes of one class have no healthy probe after them. */
  function FailedSince(a: ActivePolicy, history: seq<Report>, kind: Kind): nat {
    Tally(seq(|history|, i requires 0 <= i < |history| => FailureTick(a, history[i], kind)))
  }

  lemma FailedSinceStep(a: ActivePolicy, history: seq<Report>, kind: Kind)
    requires history != []
    ensures FailedSince(a, history, kind) ==
            (match FailureTick(a, history[|history| - 1], kind)
             case Adds => FailedSince(a, history[..|history| - 1], kind) + 1
             case Clears => 0
             case Keeps => FailedSince(a, history[..|history| - 1], kind))
  {
    var before := history[..|history| - 1];
    var ticks := seq(|before|, i requires 0 <= i < |before| => FailureTick(a, before[i], kind));
    var tick := FailureTick(a, history[|history| - 1], kind);
    assert seq(|history|, i requires 0 <= i < |history| => FailureTick(a, history[i], kind)) == ticks + [tick];
    TallyStep(ticks, tick);
  }

  predicate SameClass(x: Kind, y: Kind) {
    x.HttpResponse? == y.HttpResponse? && x.Timeout? == y.Timeout?
  }

  function Limit(kind: Kind, http: nat, tcp: nat, timeouts: nat): nat {
    match kind
    case HttpResponse(_) => http
    case TransportFailure => tcp
    case Timeout => timeouts
  }

  /** The newest report completes a run of the required length. */
  predicate RecoversNow(a: ActivePolicy, history: seq<Report>)
    requires history != []
  {
    var probes := Relevant(a, history);
    var last := history[|history| - 1];
    && last.Probe? && IsHealthy(a, last.kind)
    && a.successes <= |probes| && HealthyWindow(a, probes, |probes| - a.successes)
  }

  function ActiveMark(a: ActivePolicy, history: seq<Report>): Mark
    requires history != []
  {
    var last := history[|history| - 1];
    if RecoversNow(a, history) then Recovers
    else if last.Probe? && IsFailure(a, last.kind)
         && FailedSince(a, history, last.kind) >= Limit(last.kind, a.httpFailures, a.tcpFailures, a.timeouts) then Trips
    else Neither
  }

  function ActiveMarks(a: ActivePolicy, history: seq<Report>): (marks: seq<Mark>)
    ensures |marks| == |history|
  {
    seq(|history|, i requires 0 <= i < |history| => ActiveMark(a, history[..i + 1]))
  }

  lemma ActiveMarksStep(a: ActivePolicy, history: seq<Report>)
    requires history != []
    ensures ActiveMarks(a, history) == ActiveMarks(a, history[..|history| - 1]) + [ActiveMark(a, history)]
  {
    var before := history[..|history| - 1];
    assert history[..|history|] == history;
    forall i | 0 <= i < |before|
      ensures ActiveMarks(a, history)[i] == ActiveMarks(a, before)[i]
    {
      assert history[..i + 1] == before[..i + 1];
    }
  }

  lemma {:induction false} FailuresAreCounted(p: Policy, history: seq<Report>)
    requires p.active.Some?
    ensures var h := After(p, history);
            forall kind :: FailedSince(p.active.value, history, kind) ==
                           Limit(kind, h.activeHttp, h.activeTcp, h.activeTimeouts)
  {
    if history != [] {
      var before := history[..|history| - 1];
      FailuresAreCounted(p, before);
      FailureStep(p, After(p, before), history[|history| - 1]);
      forall kind
        ensures FailedSince(p.active.value, history, kind) ==
                Limit(kind, After(p, history).activeHttp, After(p, history).activeTcp, After(p, history).activeTimeouts)
      {
        FailedSinceStep(p.active.value, history, kind);
      }
    }
  }

  lemma FailureStep(p: Policy, h: Health, r: Report)
    requires p.active.Some?
    ensures var a, h' := p.active.value, Effect(p, h, r);
            forall kind :: Limit(kind, h'.activeHttp, h'.activeTcp, h'.activeTimeouts) ==
              if r.Probe? && IsHealthy(a, r.kind) then 0
              else Limit(kind, h.activeHttp, h.activeTcp, h.activeTimeouts)
                   + if r.Probe? && IsFailure(a, r.kind) && SameClass(r.kind, kind) then 1 else 0
  {
  }

  /**
   * A node is actively unhealthy exactly when failed probes of one class
   * reached their limit without a healthy probe among them, or it started in
   * Checking, and no run of the required length has come since.
   */
  lemma {:induction false} UnhealthyMeans(p: Policy, history: seq<Report>)
    requires p.active.Some?
    ensures After(p, history).activeUnhealthy
            <==> Raised(p.active.value.initial == Checking, ActiveMarks(p.active.value, history))
  {
    var a := p.active.value;
    if history != [] {
      var before := history[..|history| - 1];
      var last := history[|history| - 1];
      UnhealthyMeans(p, before);
      ActiveMarksStep(a, history);
      RaisedStep(a.initial == Checking, ActiveMarks(a, before), ActiveMark(a, history));
      RecoveryIsTheRun(p, history);
      FailuresAreCounted(p, history);
      UnhealthyStep(p, After(p, before), last);
    }
  }

  lemma RecoveryIsTheRun(p: Policy, history: seq<Report>)
    requires p.active.Some? && history != []
    ensures var last := history[|history| - 1];
            RecoversNow(p.active.value, history) <==>
            last.Probe? && IsHealthy(p.active.value, last.kind)
            && After(p, history).activeSuccesses >= p.active.value.successes
  {
    SuccessesAreTheRun(p, history);
    RunReachesEnd(p.active.value, Relevant(p.active.value, history), After(p, history).activeSuccesses);
  }

  lemma UnhealthyStep(p: Policy, h: Health, r: Report)
    requires p.active.Some?
    ensures var a, h' := p.active.value, Effect(p, h, r);
            h'.activeUnhealthy ==
              if r.Probe? && IsHealthy(a, r.kind) then h.activeUnhealthy && h'.activeSuccesses < a.successes
              else h.activeUnhealthy
                   || (r.Probe? && IsFailure(a, r.kind)
                       && Limit(r.kind, h'.activeHttp, h'.activeTcp, h'.activeTimeouts)
                          >= Limit(r.kind, a.httpFailures, a.tcpFailures, a.timeouts))
  {
  }

  function CountTick(a: ActivePolicy, q: PassivePolicy, history: seq<Report>, kind: Kind): Tick
    requires history != []
  {
    var last := history[|history| - 1];
    if RecoversNow(a, history) then Clears
    else if IsCounted(q, last) && SameClass(last.kind, kind) then Adds
    else Keeps
  }

  function CountTicks(a: ActivePolicy, q: PassivePolicy, history: seq<Report>, kind: Kind): seq<Tick> {
    seq(|history|, i requires 0 <= i < |history| => CountTick(a, q, history[..i + 1], kind))
  }

  /** How many counted request failures of one class have no recovery after them. */
  function CountedSince(a: ActivePolicy, q: PassivePolicy, history: seq<Report>, kind: Kind): nat {
    Tally(CountTicks(a, q, history, kind))
  }

  lemma CountedSinceStep(a: ActivePolicy, q: PassivePolicy, history: seq<Report>, kind: Kind)
    requires history != []
    ensures CountedSince(a, q, history, kind) ==
            (match CountTick(a, q, history, kind)
             case Adds => CountedSince(a, q, history[..|history| - 1], kind) + 1
             case Clears => 0
             case Keeps => CountedSince(a, q, history[..|history| - 1], kind))
  {
    var before := history[..|history| - 1];
    assert history[..|history|] == history;
    forall i | 0 <= i < |before|
      ensures CountTicks(a, q, history, kind)[i] == CountTicks(a, q, before, kind)[i]
    {
      assert history[..i + 1] == before[..i + 1];
    }
    assert CountTicks(a, q, history, kind) == CountTicks(a, q, before, kind) + [CountTick(a, q, history, kind)];
    TallyStep(CountTicks(a, q, before, kind), CountTick(a, q, history, kind));
  }

  predicate IsCounted(q: PassivePolicy, r: Report) {
    r.Counted? && (r.kind.HttpResponse? ==> r.kind.status in q.unhealthyStatuses)
  }

  function PassiveMark(a: ActivePolicy, q: PassivePolicy, history: seq<Report>): Mark
    requires history != []
  {
    var last := history[|history| - 1];
    if RecoversNow(a, history) then Recovers
    else if IsCounted(q, last)
         && CountedSince(a, q, history, last.kind) >= Limit(last.kind, q.httpFailures, q.tcpFailures, q.timeouts) then Trips
    else Neither
  }

  function PassiveMarks(a: ActivePolicy, q: PassivePolicy, history: seq<Report>): (marks: seq<Mark>)
    ensures |marks| == |history|
  {
    seq(|history|, i requires 0 <= i < |history| => PassiveMark(a, q, history[..i + 1]))
  }

  lemma PassiveMarksStep(a: ActivePolicy, q: PassivePolicy, history: seq<Report>)
    requires history != []
    ensures PassiveMarks(a, q, history) == PassiveMarks(a, q, history[..|history| - 1]) + [PassiveMark(a, q, history)]
  {
    var before := history[..|history| - 1];
    assert history[..|history|] == history;
    forall i | 0 <= i < |before|
      ensures PassiveMarks(a, q, history)[i] == PassiveMarks(a, q, before)[i]
    {
      assert history[..i + 1] == before[..i + 1];
    }
  }

  lemma {:induction false} RequestsAreCounted(p: Policy, history: seq<Report>)
    requires p.active.Some? && p.passive.Some?
    ensures var h := After(p, history);
            forall kind :: CountedSince(p.active.value, p.passive.value, history, kind) ==
                           Limit(kind, h.passiveHttp, h.passiveTcp, h.passiveTimeouts)
  {
    if history != [] {
      var before := history[..|history| - 1];
      RequestsAreCounted(p, before);
      RecoveryIsTheRun(p, history);
      PassiveCountStep(p, After(p, before), history[|history| - 1]);
      forall kind
        ensures CountedSince(p.active.value, p.passive.value, history, kind) ==
                Limit(kind, After(p, history).passiveHttp, After(p, history).passiveTcp, After(p, history).passiveTimeouts)
      {
        CountedSinceStep(p.active.value, p.passive.value, history, kind);
      }
    }
  }

  predicate Completes(a: ActivePolicy, h: Health, r: Report) {
    r.Probe? && IsHealthy(a, r.kind) && h.activeSuccesses >= a.successes
  }

  lemma PassiveCountStep(p: Policy, h: Health, r: Report)
    requires p.active.Some? && p.passive.Some?
    ensures var h' := Effect(p, h, r);
            forall kind :: Limit(kind, h'.passiveHttp, h'.passiveTcp, h'.passiveTimeouts) ==
              if Completes(p.active.value, h', r) then 0
              else Limit(kind, h.passiveHttp, h.passiveTcp, h.passiveTimeouts)
                   + if IsCounted(p.passive.value, r) && SameClass(r.kind, kind) then 1 else 0
  {
  }

  lemma PassiveFlagStep(p: Policy, h: Health, r: Report)
    requires p.active.Some? && p.passive.Some?
    ensures var q, h' := p.passive.value, Effect(p, h, r);
            h'.passiveUnhealthy ==
              (!Completes(p.active.value, h', r)
               && (h.passiveUnhealthy
                   || (IsCounted(q, r)
                       && Limit(r.kind, h'.passiveHttp, h'.passiveTcp, h'.passiveTimeouts)
                          >= Limit(r.kind, q.httpFailures, q.tcpFailures, q.timeouts))))
  {
  }

  /**
   * A node is passively unhealthy exactly when request failures of one class
   * reached their limit and no run of healthy probes has come since. Healthy
   * responses neither clear the verdict nor interrupt the count.
   */
  lemma {:induction false} PassiveUnhealthyMeans(p: Policy, history: seq<Report>)
    requires p.active.Some? && p.passive.Some?
    ensures After(p, history).passiveUnhealthy
            <==> Raised(false, PassiveMarks(p.active.value, p.passive.value, history))
  {
    if history != [] {
      var a, q := p.active.value, p.passive.value;
      var before := history[..|history| - 1];
      PassiveUnhealthyMeans(p, before);
      PassiveMarksStep(a, q, history);
      RaisedStep(false, PassiveMarks(a, q, before), PassiveMark(a, q, history));
      RecoveryIsTheRun(p, history);
      RequestsAreCounted(p, history);
      PassiveFlagStep(p, After(p, before), history[|history| - 1]);
    }
  }

  function RecordTick(r: Report): Tick {
    if !r.Recorded? then Keeps else if r.success then Clears else Adds
  }

  function RecordTicks(history: seq<Report>): seq<Tick> {
    seq(|history|, i requires 0 <= i < |history| => RecordTick(history[i]))
  }

  /** How many requests recorded as failed have no success after them. */
  function FailureRun(history: seq<Report>): nat {
    Tally(RecordTicks(history))
  }

  predicate IsLastFailure(history: seq<Report>, i: nat) {
    && i < |history| && RecordTick(history[i]) == Adds
    && (forall j :: i < j < |history| ==> RecordTick(history[j]) != Adds)
  }

  /** The cooldown runs from the last recorded failure, and only once enough failures stand. */
  predicate CoolsUntil(c: CooldownPolicy, history: seq<Report>, until: nat) {
    if FailureRun(history) < c.threshold then until == 0
    else exists i :: 0 <= i < |history| && IsLastFailure(history, i) && until == history[i].now + c.cooldown
  }

  lemma {:induction false} CooldownMeans(p: Policy, history: seq<Report>)
    requires p.health.Some? && p.health.value.threshold >= 1
    ensures After(p, history).failures == FailureRun(history)
    ensures CoolsUntil(p.health.value, history, After(p, history).unavailableUntil)
  {
    if history == [] {
      assert RecordTicks(history) == [];
      assert Standing([]) == {};
    } else {
      var before, last := history[..|history| - 1], history[|history| - 1];
      assert before + [last] == history;
      CooldownMeans(p, before);
      CooldownStep(p, After(p, before), last);
      assert RecordTicks(history) == RecordTicks(before) + [RecordTick(last)];
      TallyStep(RecordTicks(before), RecordTick(last));
      CoolingStep(p.health.value, before, last, After(p, before).unavailableUntil);
    }
  }

  lemma CoolingStep(c: CooldownPolicy, history: seq<Report>, r: Report, until: nat)
    requires c.threshold >= 1 && CoolsUntil(c, history, until)
    requires FailureRun(history + [r]) ==
             (match RecordTick(r) case Adds => FailureRun(history) + 1 case Clears => 0 case Keeps => FailureRun(history))
    ensures CoolsUntil(c, history + [r],
              if RecordTick(r) == Clears then 0
              else if RecordTick(r) == Adds && FailureRun(history) + 1 >= c.threshold then r.now + c.cooldown
              else until)
  {
    var longer := history + [r];
    assert longer[|history|] == r;
    assert forall i :: 0 <= i < |history| ==> longer[i] == history[i];
    if RecordTick(r) == Adds {
      assert IsLastFailure(longer, |history|);
    } else if RecordTick(r) == Keeps && FailureRun(history) >= c.threshold {
      var i :| 0 <= i < |history| && IsLastFailure(history, i) && until == history[i].now + c.cooldown;
      assert IsLastFailure(longer, i);
    }
  }

  lemma CooldownStep(p: Policy, h: Health, r: Report)
    requires p.health.Some?
    ensures var c, h' := p.health.value, Effect(p, h, r);
            if r.Recorded? && r.success then h'.failures == 0 == h'.unavailableUntil
            else if r.Recorded? then
              && h'.failures == h.failures + 1
              && h'.unavailableUntil == if h'.failures >= c.threshold then r.now + c.cooldown else h.unavailableUntil
            else h'.failures == h.failures && h'.unavailableUntil == h.unavailableUntil
  {
  }

  /** A request's outcome and the result of a configured probe are evidence. */
  predicate Observes(p: Policy, r: Report) {
    r.Seen? || (r.Probe? && p.active.Some?)
  }

  predicate IsLastObservation(p: Policy, history: seq<Report>, i: nat) {
    && i < |history| && Observes(p, history[i])
    && (forall j :: i < j < |history| ==> !Observes(p, history[j]))
  }

  /** `seen` is the last observation of the history, if there is one. */
  ghost predicate IsEvidence(p: Policy, history: seq<Report>, seen: Option<Observation>) {
    && (seen.None? ==> forall i :: 0 <= i < |history| ==> !Observes(p, history[i]))
    && (seen.Some? ==> exists i :: 0 <= i < |history| && IsLastObservation(p, history, i)
                                   && seen.value == ObservationOf(history[i]))
  }

  function ObservationOf(r: Report): Observation
    requires r.Probe? || r.Seen?
  {
    Observation(if r.Probe? then ActiveProbe else Passive, r.kind)
  }

  lemma EvidenceGrows(p: Policy, history: seq<Report>, r: Report, seen: Option<Observation>)
    requires IsEvidence(p, history, seen)
    ensures IsEvidence(p, history + [r], if Observes(p, r) then Some(ObservationOf(r)) else seen)
  {
    var longer := history + [r];
    assert longer[|history|] == r;
    assert forall i :: 0 <= i < |history| ==> longer[i] == history[i];
    if Observes(p, r) {
      assert IsLastObservation(p, longer, |history|);
    } else if seen.Some? {
      var i :| 0 <= i < |history| && IsLastObservation(p, history, i) && seen.value == ObservationOf(history[i]);
      assert IsLastObservation(p, longer, i);
    }
  }

  /** The reported evidence is the last observation, and a probe counts as seen once one was made. */
  lemma {:induction false} EvidenceMeans(p: Policy, history: seq<Report>)
    ensures IsEvidence(p, history, After(p, history).observation)
    ensures After(p, history).probeSeen <==> p.active.Some? && exists i :: 0 <= i < |history| && history[i].Probe?
  {
    if history != [] {
      var before, last := history[..|history| - 1], history[|history| - 1];
      EvidenceMeans(p, before);
      ObservationStep(p, After(p, before), last);
      ProbeSeenStep(p, After(p, before), last);
      EvidenceGrows(p, before, last, After(p, before).observation);
      assert before + [last] == history;
      assert forall i :: 0 <= i < |before| ==> history[i] == before[i];
    }
  }

  lemma ProbeSeenStep(p: Policy, h: Health, r: Report)
    ensures Effect(p, h, r).probeSeen == (h.probeSeen || (r.Probe? && p.active.Some?))
  {
  }

  lemma ObservationStep(p: Policy, h: Health, r: Report)
    ensures Effect(p, h, r).observation == if Observes(p, r) then Some(ObservationOf(r)) else h.observation
  {
  }

  /** A verdict nobody configured is never given. */
  lemma {:induction false} UnconfiguredMeans(p: Policy, history: seq<Report>)
    ensures p.active.None? ==> !After(p, history).activeUnhealthy && !After(p, history).initialCheckPending
    ensures p.passive.None? ==> !After(p, history).passiveUnhealthy
  {
    if history != [] {
      var before := history[..|history| - 1];
      UnconfiguredMeans(p, before);
      UnconfiguredStep(p, After(p, before), history[|history| - 1]);
    }
  }

  lemma UnconfiguredStep(p: Policy, h: Health, r: Report)
    ensures var h' := Effect(p, h, r);
            && (p.active.None? ==> h'.activeUnhealthy == h.activeUnhealthy && h'.initialCheckPending == h.initialCheckPending)
            && (p.passive.None? ==> (h'.passiveUnhealthy ==> h.passiveUnhealthy))
  {
  }

  /** Availability in terms of everything reported: probes, request outcomes and their times. */
  ghost predicate Deserved(p: Policy, history: seq<Report>, now: nat) {
    && (p.active.Some? ==>
          && (p.active.value.initial == Checking ==> HadRun(p.active.value, Relevant(p.active.value, history)))
          && !Raised(p.active.value.initial == Checking, ActiveMarks(p.active.value, history)))
    && (p.active.Some? && p.passive.Some? ==>
          !Raised(false, PassiveMarks(p.active.value, p.passive.value, history)))
    && (p.health.Some? && FailureRun(history) >= p.health.value.threshold ==>
          forall i :: 0 <= i < |history| && IsLastFailure(history, i) ==>
            history[i].now + p.health.value.cooldown <= now)
  }

  /** The fields of a node make it available exactly when its history deserves it. */
  lemma AvailableIsDeserved(p: Policy, history: seq<Report>, now: nat)
    requires IsPolicy(p)
    ensures Available(p, After(p, history), now) <==> Deserved(p, history, now)
  {
    UnconfiguredMeans(p, history);
    if p.active.Some? {
      PendingMeans(p, history);
      UnhealthyMeans(p, history);
      if p.passive.Some? {
        PassiveUnhealthyMeans(p, history);
      }
    }
    if p.health.Some? {
      CooldownMeans(p, history);
    }
  }
}
