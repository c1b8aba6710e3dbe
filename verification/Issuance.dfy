/**
 * Certificate issuance attempts. Material the CA has issued but that could not
 * be published is kept, so that a broken destination does not turn into one
 * order after another. Clocks, files and the CA are inputs of each attempt.
 */
module Issuance {
  import opened Wrappers

  type Domains = seq<nat>

  /**
   * Issued material. `expires` counts seconds from the epoch: the issuer hands
   * out only certificates it has validated, and those expire in the future.
   */
  datatype Material = Material(id: nat, domains: Domains, expires: nat)

  datatype Settings = Settings(domains: Domains, renewBefore: nat)

  datatype Order = Failed | Cancelled | Issued(material: Material)

  /**
   * What one attempt meets. `restored` is the expiry of the bundle on disk, if
   * it is valid for the configured domains.
   */
  datatype World = World(
    lockFree: bool,
    restored: Option<nat>,
    checkedAt: nat,
    reconsideredAt: nat,
    published: bool,
    destinationOk: bool,
    order: Order)

  /** What an observer sees. */
  datatype Event =
    | Ordered
    | Received(material: Material)
    | Published(material: Material)
    | Superseded(material: Material, expires: nat, renewBefore: nat, now: nat)
    | Discarded(material: Material, settings: Settings, now: nat)

  function Minus(a: nat, b: nat): nat {
    if a < b then 0 else a - b
  }

  /** Outside the renewal window. */
  predicate Fresh(expires: nat, renewBefore: nat, now: nat) {
    Minus(expires, renewBefore) > now
  }

  predicate Usable(m: Material, settings: Settings, now: nat) {
    m.domains == settings.domains && Fresh(m.expires, settings.renewBefore, now)
  }

  predicate Current(settings: Settings, w: World) {
    w.restored.Some? && Fresh(w.restored.value, settings.renewBefore, w.checkedAt)
  }

  // ------------------------------------------------------------------
  // One attempt
  // ------------------------------------------------------------------

  datatype Outcome = Outcome(pending: Option<Material>, log: seq<Event>, ok: bool)

  /** Ordering new material once nothing usable is pending. */
  function OrderNew(log: seq<Event>, w: World): Outcome {
    if !w.destinationOk then Outcome(None, log, false)
    else
      var ordered := log + [Ordered];
      match w.order
      case Failed => Outcome(None, ordered, false)
      case Cancelled => Outcome(None, ordered, true)
      case Issued(m) =>
        var received := ordered + [Received(m)];
        if w.published then Outcome(None, received + [Published(m)], true)
        else Outcome(Some(m), received, false)
  }

  function Attempt(pending: Option<Material>, log: seq<Event>, settings: Settings, w: World): Outcome {
    if !w.lockFree then Outcome(pending, log, false)
    else if Current(settings, w) then
      Outcome(
        None,
        if pending.None? then log
        else log + [Superseded(pending.value, w.restored.value, settings.renewBefore, w.checkedAt)],
        true)
    else if pending.None? then OrderNew(log, w)
    else if !Usable(pending.value, settings, w.reconsideredAt) then
      OrderNew(log + [Discarded(pending.value, settings, w.reconsideredAt)], w)
    else if w.published then Outcome(None, log + [Published(pending.value)], true)
    else Outcome(pending, log, false)
  }

  class Runtime {
    var pending: Option<Material>
    var expires: Option<nat>
    ghost var log: seq<Event>

    constructor ()
      ensures pending == None && log == []
    {
      pending, expires, log := None, None, [];
    }

    /** The bundle on disk decides what the status reports. */
    method Restore(w: World)
      modifies this`expires
      ensures expires == w.restored
    {
      expires := w.restored;
    }

    /** Takes the pending material out; what is no longer worth publishing is dropped. */
    method TakePending(settings: Settings, now: nat) returns (taken: Option<Material>)
      modifies this`pending, this`log
      ensures pending == None
      ensures taken ==
              if old(pending).Some? && Usable(old(pending).value, settings, now) then old(pending) else None
      ensures log ==
              if old(pending).Some? && taken.None? then old(log) + [Discarded(old(pending).value, settings, now)]
              else old(log)
    {
      taken := pending;
      pending := None;
      if taken.Some?
         && !(taken.value.domains == settings.domains && Minus(taken.value.expires, settings.renewBefore) > now) {
        log := log + [Discarded(taken.value, settings, now)];
        taken := None;
      }
    }

    method AttemptWith(settings: Settings, w: World) returns (ok: bool)
      modifies this
      ensures Outcome(pending, log, ok) == Attempt(old(pending), old(log), settings, w)
      ensures expires ==
              if !w.lockFree then old(expires)
              else if w.published && InHand(old(pending), settings, w).Some? then
                Some(InHand(old(pending), settings, w).value.expires)
              else w.restored
    {
      if !w.lockFree {
        return false;
      }
      Restore(w);
      if expires.Some? && Minus(expires.value, settings.renewBefore) > w.checkedAt {
        if pending.Some? {
          log := log + [Superseded(pending.value, expires.value, settings.renewBefore, w.checkedAt)];
        }
        pending := None;
        return true;
      }
      var taken := TakePending(settings, w.reconsideredAt);
      if taken.Some? {
        if !w.published {
          pending := taken;
          return false;
        }
        Publish(taken.value);
        return true;
      }
      ok := OrderAndPublish(w);
    }

    /** Published material is what the status reports from then on. */
    method Publish(m: Material)
      modifies this`log, this`expires
      ensures log == old(log) + [Published(m)] && expires == Some(m.expires)
    {
      log := log + [Published(m)];
      expires := Some(m.expires);
    }

    method OrderAndPublish(w: World) returns (ok: bool)
      requires pending == None
      modifies this
      ensures Outcome(pending, log, ok) == OrderNew(old(log), w)
      ensures expires ==
              if w.destinationOk && w.order.Issued? && w.published then Some(w.order.material.expires) else old(expires)
    {
      if !w.destinationOk {
        return false;
      }
      log := log + [Ordered];
      match w.order
      case Failed =>
        return false;
      case Cancelled =>
        return true;
      case Issued(m) =>
        log := log + [Received(m)];
        pending := Some(m);
        if !w.published {
          return false;
        }
        Publish(m);
        pending := None;
        return true;
    }
  }

  // ------------------------------------------------------------------
  // Runs of attempts
  // ------------------------------------------------------------------

  /** The material somebody has paid an order for and that has come to nothing yet. */
  function Outstanding(log: seq<Event>): Option<Material> {
    if log == [] then None
    else
      match log[|log| - 1]
      case Ordered => Outstanding(log[..|log| - 1])
      case Received(m) => Some(m)
      case _ => None
  }

  predicate Resolves(e: Event, m: Material) {
    !e.Ordered? && !e.Received? && e.material == m
  }

  /** An event is admissible after a log. */
  predicate Follows(log: seq<Event>, e: Event) {
    if e.Ordered? || e.Received? then Outstanding(log) == None
    else Outstanding(log) == Some(e.material)
  }

  /** Nothing is ordered while material is outstanding, and what is outstanding is what gets resolved. */
  predicate Orderly(log: seq<Event>) {
    forall n :: 0 <= n < |log| ==> Follows(log[..n], log[n])
  }

  /** The reason given for an end of material is true. */
  predicate Justified(e: Event) {
    match e
    case Superseded(_, expires, renewBefore, now) => Fresh(expires, renewBefore, now)
    case Discarded(m, settings, now) => m.domains != settings.domains || !Fresh(m.expires, settings.renewBefore, now)
    case _ => true
  }

  lemma OrderlyOne(log: seq<Event>, e: Event)
    requires Orderly(log) && Follows(log, e)
    ensures Orderly(log + [e])
    ensures Outstanding(log + [e]) ==
            (match e case Ordered => Outstanding(log) case Received(m) => Some(m) case _ => None)
  {
    var longer := log + [e];
    forall n | 0 <= n < |longer|
      ensures Follows(longer[..n], longer[n])
    {
      if n < |log| {
        assert longer[..n] == log[..n];
      } else {
        assert longer[..n] == log;
      }
    }
    assert longer[..|longer| - 1] == log;
  }

  /** The log accounts for the pending material, in order and with true reasons. */
  predicate Accounted(pending: Option<Material>, log: seq<Event>) {
    && Orderly(log)
    && Outstanding(log) == pending
    && (forall n :: 0 <= n < |log| ==> Justified(log[n]))
  }

  lemma AccountedOne(pending: Option<Material>, log: seq<Event>, e: Event)
    requires Accounted(pending, log) && Follows(log, e) && Justified(e)
    ensures e.Ordered? ==> Accounted(pending, log + [e])
    ensures e.Received? ==> Accounted(Some(e.material), log + [e])
    ensures !e.Ordered? && !e.Received? ==> Accounted(None, log + [e])
  {
    OrderlyOne(log, e);
  }

  lemma OrderAccounted(log: seq<Event>, w: World)
    requires Accounted(None, log)
    ensures var outcome := OrderNew(log, w); Accounted(outcome.pending, outcome.log)
  {
    if w.destinationOk {
      var ordered := log + [Ordered];
      AccountedOne(None, log, Ordered);
      if w.order.Issued? {
        var m := w.order.material;
        AccountedOne(None, ordered, Received(m));
        AccountedOne(Some(m), ordered + [Received(m)], Published(m));
      }
    }
  }

  lemma AttemptAccounted(pending: Option<Material>, log: seq<Event>, settings: Settings, w: World)
    requires Accounted(pending, log)
    ensures var outcome := Attempt(pending, log, settings, w); Accounted(outcome.pending, outcome.log)
  {
    if w.lockFree {
      if pending.None? {
        OrderAccounted(log, w);
      } else {
        var m := pending.value;
        if Current(settings, w) {
          AccountedOne(pending, log, Superseded(m, w.restored.value, settings.renewBefore, w.checkedAt));
        } else if Usable(m, settings, w.reconsideredAt) {
          AccountedOne(pending, log, Published(m));
        } else {
          var discarded := Discarded(m, settings, w.reconsideredAt);
          AccountedOne(pending, log, discarded);
          OrderAccounted(log + [discarded], w);
        }
      }
    }
  }

  /** Any number of attempts, each with its own settings and circumstances. */
  function Run(attempts: seq<(Settings, World)>): Outcome {
    if attempts == [] then Outcome(None, [], true)
    else
      var before := Run(attempts[..|attempts| - 1]);
      var (settings, w) := attempts[|attempts| - 1];
      Attempt(before.pending, before.log, settings, w)
  }

  lemma {:induction false} RunAccounted(attempts: seq<(Settings, World)>)
    ensures Accounted(Run(attempts).pending, Run(attempts).log)
  {
    if attempts != [] {
      var before := Run(attempts[..|attempts| - 1]);
      RunAccounted(attempts[..|attempts| - 1]);
      var (settings, w) := attempts[|attempts| - 1];
      AttemptAccounted(before.pending, before.log, settings, w);
    }
  }

  lemma ResolvedNext(log: seq<Event>, i: nat)
    requires Orderly(log) && i + 1 < |log| && log[i].Received? && !log[i + 1].Received?
    ensures !log[i + 1].Ordered? && Resolves(log[i + 1], log[i].material)
  {
    var before := log[..i + 1];
    assert before[|before| - 1] == log[i];
    assert Outstanding(before) == Some(log[i].material);
    assert Follows(before, log[i + 1]);
  }

  lemma NotReceivedTwice(log: seq<Event>, i: nat)
    requires Orderly(log) && i + 1 < |log| && log[i].Received?
    ensures !log[i + 1].Received?
  {
    var before := log[..i + 1];
    assert before[|before| - 1] == log[i];
    assert Follows(before, log[i + 1]);
  }

  /**
   * Between receiving material and the next order, that material was published,
   * gave way to a current bundle, or was discarded because the domains changed
   * or it entered the renewal window.
   */
  lemma NoOrderWhileOutstanding(attempts: seq<(Settings, World)>, i: nat, j: nat)
    requires i < j < |Run(attempts).log|
    requires Run(attempts).log[i].Received? && Run(attempts).log[j].Ordered?
    ensures var log := Run(attempts).log;
            exists k :: i < k < j && Resolves(log[k], log[i].material) && Justified(log[k])
  {
    RunAccounted(attempts);
    var log := Run(attempts).log;
    NotReceivedTwice(log, i);
    ResolvedNext(log, i);
    assert Justified(log[i + 1]);
  }

  lemma RunAppend(attempts: seq<(Settings, World)>, settings: Settings, w: World)
    ensures var before := Run(attempts);
            Run(attempts + [(settings, w)]) == Attempt(before.pending, before.log, settings, w)
  {
    var longer := attempts + [(settings, w)];
    assert longer[..|longer| - 1] == attempts;
  }

  /** However often publication fails, usable material is kept and no further order is placed. */
  lemma {:induction false} FailuresDoNotOrder(
    attempts: seq<(Settings, World)>, more: seq<(Settings, World)>, m: Material)
    requires Run(attempts).pending == Some(m)
    requires forall a :: a in more ==> !Current(a.0, a.1) && Usable(m, a.0, a.1.reconsideredAt) && !a.1.published
    ensures Run(attempts + more).pending == Some(m) && Run(attempts + more).log == Run(attempts).log
    decreases |more|
  {
    if more == [] {
      assert attempts + more == attempts;
    } else {
      var before, last := more[..|more| - 1], more[|more| - 1];
      FailuresDoNotOrder(attempts, before, m);
      assert last in more;
      RunAppend(attempts + before, last.0, last.1);
      assert attempts + more == attempts + before + [(last.0, last.1)];
    }
  }

  // ------------------------------------------------------------------
  // What one attempt does, exactly
  // ------------------------------------------------------------------

  /** Outside the renewal window means: more than `renewBefore` seconds of life left. */
  lemma FreshMeans(expires: nat, renewBefore: nat, now: nat)
    ensures Fresh(expires, renewBefore, now) <==> expires > now + renewBefore
  {
  }

  /** A bundle on disk outlives the renewal window. */
  predicate HasCurrentBundle(settings: Settings, w: World) {
    w.restored.Some? && w.restored.value > w.checkedAt + settings.renewBefore
  }

  /** Pending material covers the configured domains and outlives the renewal window. */
  predicate HasUsable(pending: Option<Material>, settings: Settings, w: World) {
    && pending.Some? && pending.value.domains == settings.domains
    && pending.value.expires > w.reconsideredAt + settings.renewBefore
  }

  /** The attempt gets as far as needing material. */
  predicate NeedsMaterial(settings: Settings, w: World) {
    w.lockFree && !HasCurrentBundle(settings, w)
  }

  /** The attempt has to place an order. */
  predicate MustOrder(pending: Option<Material>, settings: Settings, w: World) {
    NeedsMaterial(settings, w) && !HasUsable(pending, settings, w) && w.destinationOk
  }

  /** The material the attempt tries to publish, if any. */
  function InHand(pending: Option<Material>, settings: Settings, w: World): Option<Material> {
    if NeedsMaterial(settings, w) && HasUsable(pending, settings, w) then pending
    else if MustOrder(pending, settings, w) && w.order.Issued? then Some(w.order.material)
    else None
  }

  /** What becomes of the pending material before anything is published: it gives way, or is dropped. */
  function Dismissed(pending: Option<Material>, settings: Settings, w: World): seq<Event> {
    if !w.lockFree || pending.None? then []
    else if HasCurrentBundle(settings, w) then
      [Superseded(pending.value, w.restored.value, settings.renewBefore, w.checkedAt)]
    else if HasUsable(pending, settings, w) then []
    else [Discarded(pending.value, settings, w.reconsideredAt)]
  }

  /** What an observer sees of one attempt. */
  function Deeds(pending: Option<Material>, settings: Settings, w: World): seq<Event> {
    Dismissed(pending, settings, w)
    + (if MustOrder(pending, settings, w) then [Ordered] else [])
    + (if MustOrder(pending, settings, w) && w.order.Issued? then [Received(w.order.material)] else [])
    + (if w.published && InHand(pending, settings, w).Some? then [Published(InHand(pending, settings, w).value)] else [])
  }

  lemma CurrentExactly(settings: Settings, w: World)
    ensures Current(settings, w) <==> HasCurrentBundle(settings, w)
  {
    if w.restored.Some? {
      FreshMeans(w.restored.value, settings.renewBefore, w.checkedAt);
    }
  }

  lemma UsableExactly(pending: Option<Material>, settings: Settings, w: World)
    ensures pending.Some? && Usable(pending.value, settings, w.reconsideredAt) <==> HasUsable(pending, settings, w)
  {
    if pending.Some? {
      FreshMeans(pending.value.expires, settings.renewBefore, w.reconsideredAt);
    }
  }

  lemma AttemptLogs(pending: Option<Material>, log: seq<Event>, settings: Settings, w: World)
    ensures Attempt(pending, log, settings, w).log == log + Deeds(pending, settings, w)
  {
    CurrentExactly(settings, w);
    UsableExactly(pending, settings, w);
  }

  /**
   * One attempt after any history: what is logged, what stays pending and
   * whether it reports success.
   */
  lemma AttemptIsExact(attempts: seq<(Settings, World)>, settings: Settings, w: World)
    ensures var pending, after := Run(attempts).pending, Run(attempts + [(settings, w)]);
      && after.log == Run(attempts).log + Deeds(pending, settings, w)
      && (after.pending ==
            if !w.lockFree then pending else if w.published then None else InHand(pending, settings, w))
      && (after.ok <==>
            && w.lockFree
            && (|| HasCurrentBundle(settings, w)
                || (InHand(pending, settings, w).Some? && w.published)
                || (MustOrder(pending, settings, w) && w.order == Cancelled)))
  {
    RunAppend(attempts, settings, w);
    AttemptLogs(Run(attempts).pending, Run(attempts).log, settings, w);
    CurrentExactly(settings, w);
    UsableExactly(Run(attempts).pending, settings, w);
  }

  lemma DeedsMean(pending: Option<Material>, settings: Settings, w: World)
    ensures Ordered in Deeds(pending, settings, w) <==> MustOrder(pending, settings, w)
    ensures HasCurrentBundle(settings, w) ==> forall e :: e in Deeds(pending, settings, w) ==> e.Superseded?
  {
  }

  /** An order is placed exactly when it has to be, and a current bundle settles everything. */
  lemma OrdersExactlyWhenNeeded(attempts: seq<(Settings, World)>, settings: Settings, w: World)
    ensures var before, after := Run(attempts), Run(attempts + [(settings, w)]);
      && before.log <= after.log
      && (Ordered in after.log[|before.log|..] <==> MustOrder(before.pending, settings, w))
      && (w.lockFree && HasCurrentBundle(settings, w) ==>
            && after.ok && after.pending == None
            && forall e :: e in after.log[|before.log|..] ==> e.Superseded?)
  {
    AttemptIsExact(attempts, settings, w);
    var before, after := Run(attempts), Run(attempts + [(settings, w)]);
    var deeds := Deeds(before.pending, settings, w);
    DeedsMean(before.pending, settings, w);
    assert after.log == before.log + deeds;
    assert after.log[|before.log|..] == deeds;
  }

  // ------------------------------------------------------------------
  // Conservation
  // ------------------------------------------------------------------

  function Count(log: seq<Event>, p: Event -> bool): nat {
    if log == [] then 0 else Count(log[..|log| - 1], p) + if p(log[|log| - 1]) then 1 else 0
  }

  predicate Ends(e: Event) {
    e.Published? || e.Superseded? || e.Discarded?
  }

  lemma {:induction false} OrderlyBalances(log: seq<Event>)
    requires Orderly(log)
    ensures Count(log, (e: Event) => e.Received?) ==
            Count(log, Ends) + if Outstanding(log).Some? then 1 else 0
  {
    if log != [] {
      var before, e := log[..|log| - 1], log[|log| - 1];
      assert forall n :: 0 <= n < |before| ==> before[..n] == log[..n];
      OrderlyBalances(before);
      assert Follows(before, e);
    }
  }

  /** Every material received is pending or has come to exactly one end: published, superseded or discarded. */
  lemma MaterialIsConserved(attempts: seq<(Settings, World)>)
    ensures var after := Run(attempts);
      Count(after.log, (e: Event) => e.Received?) == Count(after.log, Ends) + if after.pending.Some? then 1 else 0
  {
    RunAccounted(attempts);
    OrderlyBalances(Run(attempts).log);
  }
}
