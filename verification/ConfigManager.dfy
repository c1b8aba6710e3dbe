/**
 * One instance's configuration manager: how it judges a document of the shared
 * authority, how it prepares a write and what the outcome of its compare-and-swap
 * makes it do. All of it runs under the instance's writer lock.
 */
module ConfigManager {
  import opened Wrappers

  type Epoch = string

  const MAX_GENERATION: nat := 0xFFFF_FFFF
  const MAX_REVISION: nat := 0xFFFF_FFFF_FFFF_FFFF

  /** A configuration document; `body` stands for everything the protocol does not look into. */
  datatype Config = Config(revision: nat, floor: nat, cache: Option<nat>, body: string)
  datatype Stored = Stored(epoch: Epoch, config: Config)

  /** What this instance answers for a document: can it read, prepare and publish it, and does a route then fail closed? */
  datatype Local = Local(compatible: bool, prepares: bool, commits: bool, failsClosed: bool)

  datatype Reason = Invalid | AuthorityChanged | Rollback | Divergence | Stale | Unpreparable
  datatype Judgement = Agreed | Activated | Refused(reason: Reason) | NotPublished

  datatype Instance = Instance(
    active: Config,
    epoch: Option<Epoch>,
    stopping: bool,
    withdrawing: bool,
    ready: bool,
    failsClosed: bool,
    failure: Option<Reason>)

  function Max(a: nat, b: nat): nat { if a < b then b else a }

  function Generation(c: Config): nat {
    if c.cache.Some? then c.cache.value else 0
  }

  // ------------------------------------------------------------------
  // Judging a stored document
  // ------------------------------------------------------------------

  function Judge(m: Instance, stored: Stored, local: Local): Judgement {
    var first := m.epoch.None?;
    var config := stored.config;
    if !local.compatible then Refused(Invalid)
    else if m.epoch.Some? && m.epoch.value != stored.epoch then Refused(AuthorityChanged)
    else if !first && config.revision < m.active.revision then Refused(Rollback)
    else if config == m.active then Agreed
    else if !first && config.revision == m.active.revision then Refused(Divergence)
    else if m.stopping then Refused(Stale)
    else if !local.prepares then Refused(Unpreparable)
    else if !local.commits then NotPublished
    else Activated
  }

  /** The authority is confirmed: readiness returns unless the instance is frozen, withdrawing or failing closed. */
  function Confirmed(m: Instance, epoch: Epoch): Instance {
    m.(epoch := if m.epoch.None? then Some(epoch) else m.epoch,
       failure := None,
       ready := m.ready || (!m.stopping && !m.withdrawing && !m.failsClosed))
  }

  function Reconciled(m: Instance, stored: Stored, local: Local): Instance {
    match Judge(m, stored, local)
    case Agreed => Confirmed(m, stored.epoch)
    case Activated =>
      var c := Confirmed(m.(active := stored.config, failsClosed := local.failsClosed), stored.epoch);
      c.(ready := c.ready && !local.failsClosed)
    case Refused(reason) => m.(failure := Some(reason), ready := false)
    case NotPublished => m
  }

  /** A losing write judges the durable document the conflict carries; another epoch is refused before it is read. */
  function Conflicted(m: Instance, epoch: Epoch, current: Stored, local: Local): Instance {
    if current.epoch != epoch then m.(failure := Some(AuthorityChanged), ready := false)
    else Reconciled(m, current, local)
  }

  /** The document continues what the instance follows: a later revision of its epoch, or anything if it follows none. */
  predicate Continues(m: Instance, stored: Stored) {
    m.epoch.Some? ==> m.epoch.value == stored.epoch && stored.config.revision > m.active.revision
  }

  /** The instance must refuse the document for this reason. */
  predicate Grounds(m: Instance, stored: Stored, local: Local, reason: Reason) {
    var same := m.epoch == Some(stored.epoch);
    match reason
    case Invalid => !local.compatible
    case AuthorityChanged => local.compatible && m.epoch.Some? && !same
    case Rollback => local.compatible && same && stored.config.revision < m.active.revision
    case Divergence =>
      local.compatible && same && stored.config.revision == m.active.revision && stored.config != m.active
    case Stale => local.compatible && Continues(m, stored) && stored.config != m.active && m.stopping
    case Unpreparable =>
      local.compatible && Continues(m, stored) && stored.config != m.active && !m.stopping && !local.prepares
  }

  /** The instance can and may take the document up. */
  predicate Adoptable(m: Instance, stored: Stored, local: Local) {
    && local.compatible && local.prepares && local.commits && !m.stopping
    && Continues(m, stored) && stored.config != m.active
  }

  /** Only the publication itself fails. */
  predicate Unpublishable(m: Instance, stored: Stored, local: Local) {
    && local.compatible && local.prepares && !local.commits && !m.stopping
    && Continues(m, stored) && stored.config != m.active
  }

  /** The document is the active one, and nothing speaks against its epoch. */
  predicate Agrees(m: Instance, stored: Stored, local: Local) {
    local.compatible && stored.config == m.active && (m.epoch.Some? ==> m.epoch.value == stored.epoch)
  }

  /** What the instance is after the judgement, field by field. */
  predicate IsReconciled(m: Instance, stored: Stored, local: Local, m': Instance) {
    var confirmed := Agrees(m, stored, local) || Adoptable(m, stored, local);
    && m'.active == (if Adoptable(m, stored, local) then stored.config else m.active)
    && m'.failsClosed == (if Adoptable(m, stored, local) then local.failsClosed else m.failsClosed)
    && m'.epoch == (if confirmed then Some(stored.epoch) else m.epoch)
    && (confirmed ==> m'.failure.None?)
    && (forall reason :: Grounds(m, stored, local, reason) ==> m'.failure == Some(reason) && !m'.ready)
    && (Unpublishable(m, stored, local) ==> m' == m)
    && (Agrees(m, stored, local) ==> (m'.ready <==> m.ready || (!m.stopping && !m.withdrawing && !m.failsClosed)))
    && (Adoptable(m, stored, local) ==> (m'.ready <==> (m.ready || !m.withdrawing) && !local.failsClosed))
    && m'.stopping == m.stopping && m'.withdrawing == m.withdrawing
  }

  /** A judgement names a reason exactly on its grounds, and takes up exactly what can and may be taken up. */
  predicate IsJudgement(m: Instance, stored: Stored, local: Local, judgement: Judgement) {
    && (judgement == Activated <==> Adoptable(m, stored, local))
    && (judgement == Agreed <==> Agrees(m, stored, local))
    && (forall reason :: judgement == Refused(reason) <==> Grounds(m, stored, local, reason))
    && (judgement == NotPublished <==> Unpublishable(m, stored, local))
  }

  lemma JudgedExactly(m: Instance, stored: Stored, local: Local)
    ensures IsJudgement(m, stored, local, Judge(m, stored, local))
    ensures IsReconciled(m, stored, local, Reconciled(m, stored, local))
  {
  }

  // ------------------------------------------------------------------
  // Preparing a write
  // ------------------------------------------------------------------

  function Floor(active: Config, config: Config): nat {
    Max(Max(active.floor, config.floor), Max(Generation(active), Generation(config)))
  }

  function Normalized(active: Config, config: Config): Config {
    config.(floor := Floor(active, config),
            cache := if config.cache.Some? then Some(Max(config.cache.value, Floor(active, config))) else None)
  }

  datatype Prepared = Ready(config: Config) | Draining | Behind | RevisionConflict | Exhausted | Rejected

  /** What the store answers when an instance asks for the latest document. */
  datatype Answer = NoAnswer | Unreadable | Latest(stored: Stored, local: Local)

  /** A write expects a revision this instance has not seen, or the instance has not attached yet. */
  predicate NeedsCatchUp(m: Instance, expected: nat) {
    m.active.revision < expected || m.epoch.None?
  }

  /** The instance after asking the store, where a write needs it. */
  function CaughtUp(m: Instance, expected: nat, answer: Answer): Instance {
    if !NeedsCatchUp(m, expected) || answer.NoAnswer? then m
    else if answer.Unreadable? then m.(failure := Some(Invalid), ready := false)
    else Reconciled(m, answer.stored, answer.local)
  }

  /** The write may go on: nothing had to be asked, or the answer was agreed with or taken up. */
  predicate CatchesUp(m: Instance, expected: nat, answer: Answer) {
    NeedsCatchUp(m, expected) ==>
      answer.Latest? && (Judge(m, answer.stored, answer.local).Agreed? || Judge(m, answer.stored, answer.local).Activated?)
  }

  /** The document a write would commit, or why there is none. */
  function Prepare(m: Instance, config: Config, expected: nat, local: Local): Prepared {
    if !local.compatible then Rejected
    else if m.stopping then Draining
    else if m.active.revision != expected then RevisionConflict
    else if expected >= MAX_REVISION then Exhausted
    else
      var next := Normalized(m.active, config).(revision := expected + 1);
      if next.floor > MAX_GENERATION || Generation(next) > MAX_GENERATION || !local.prepares then Rejected
      else Ready(next)
  }

  /** No floor and no generation of either document exceeds 32 bits. */
  predicate GenerationsFit(active: Config, config: Config) {
    && active.floor <= 0xFFFF_FFFF && Generation(active) <= 0xFFFF_FFFF
    && config.floor <= 0xFFFF_FFFF && Generation(config) <= 0xFFFF_FFFF
  }

  /** `next` commits `config` right after `active`: on the least floor that covers both, with the cache on it. */
  predicate IsSuccessor(active: Config, config: Config, next: Config) {
    && next.revision == active.revision + 1 && next.body == config.body
    && next.floor >= active.floor && next.floor >= Generation(active)
    && next.floor >= config.floor && next.floor >= Generation(config)
    && next.floor in {active.floor, config.floor, Generation(active), Generation(config)}
    && next.cache == if config.cache.Some? then Some(next.floor) else None
  }

  /** Each answer to a write is given exactly on its own condition, checked in this order. */
  lemma PreparedExactly(m: Instance, config: Config, expected: nat, local: Local)
    ensures var p := Prepare(m, config, expected, local);
      var admitted := local.compatible && !m.stopping && m.active.revision == expected;
      && (p == Draining <==> local.compatible && m.stopping)
      && (p == RevisionConflict <==> local.compatible && !m.stopping && m.active.revision != expected)
      && (p == Exhausted <==> admitted && expected >= 0xFFFF_FFFF_FFFF_FFFF)
      && (p.Ready? <==>
            admitted && expected < 0xFFFF_FFFF_FFFF_FFFF && GenerationsFit(m.active, config) && local.prepares)
      && (p.Ready? ==> IsSuccessor(m.active, config, p.config))
      && p != Behind
  {
  }

  // ------------------------------------------------------------------
  // The manager itself
  // ------------------------------------------------------------------

  class Manager {
    var active: Config
    var epoch: Option<Epoch>
    var stopping: bool
    var withdrawing: bool
    var ready: bool
    var failsClosed: bool
    var failure: Option<Reason>

    function View(): (m: Instance)
      reads this
    {
      Instance(active, epoch, stopping, withdrawing, ready, failsClosed, failure)
    }

    constructor (config: Config, epoch: Option<Epoch>)
      ensures View() == Instance(config, epoch, false, false, false, false, None)
    {
      active, failure := config, None;
      this.epoch := epoch;
      stopping, withdrawing, ready, failsClosed := false, false, false, false;
    }

    /** Readiness is withdrawn at once on an authority disagreement. */
    method StoreFailure(reason: Reason)
      modifies this`failure, this`ready
      ensures View() == old(View()).(failure := Some(reason), ready := false)
    {
      failure := Some(reason);
      ready := false;
    }

    method AttachEpoch(stored: Epoch)
      modifies this`epoch
      ensures View() == old(View()).(epoch := if old(epoch).None? then Some(stored) else old(epoch))
    {
      if epoch.None? {
        epoch := Some(stored);
      }
    }

    method StoreConfirmed()
      modifies this`failure, this`ready
      ensures View() == old(View()).(failure := None, ready := old(ready) || (!stopping && !withdrawing && !failsClosed))
    {
      failure := None;
      if !stopping && !withdrawing && !failsClosed {
        ready := true;
      }
    }

    method ReconcileStored(stored: Stored, local: Local) returns (judgement: Judgement)
      modifies this
      ensures judgement == Judge(old(View()), stored, local)
      ensures View() == Reconciled(old(View()), stored, local)
      ensures IsJudgement(old(View()), stored, local, judgement) && IsReconciled(old(View()), stored, local, View())
    {
      JudgedExactly(View(), stored, local);
      if !local.compatible {
        StoreFailure(Invalid);
        return Refused(Invalid);
      }
      if epoch.Some? && epoch.value != stored.epoch {
        StoreFailure(AuthorityChanged);
        return Refused(AuthorityChanged);
      }
      var first := epoch.None?;
      if !first && stored.config.revision < active.revision {
        StoreFailure(Rollback);
        return Refused(Rollback);
      }
      if stored.config == active {
        AttachEpoch(stored.epoch);
        StoreConfirmed();
        return Agreed;
      }
      if !first && stored.config.revision == active.revision {
        StoreFailure(Divergence);
        return Refused(Divergence);
      }
      if stopping {
        StoreFailure(Stale);
        return Refused(Stale);
      }
      if !local.prepares {
        StoreFailure(Unpreparable);
        return Refused(Unpreparable);
      }
      if !local.commits {
        return NotPublished;
      }
      active, failsClosed := stored.config, local.failsClosed;
      AttachEpoch(stored.epoch);
      StoreConfirmed();
      if failsClosed {
        ready := false;
      }
      return Activated;
    }

    /** Raise the incoming document's floor and generation to the highest this history has committed. */
    method NormalizeCacheGeneration(config: Config) returns (next: Config)
      ensures next == Normalized(active, config)
    {
      var floor := active.floor;
      if floor < config.floor { floor := config.floor; }
      if active.cache.Some? && floor < active.cache.value { floor := active.cache.value; }
      if config.cache.Some? && floor < config.cache.value { floor := config.cache.value; }
      next := config.(floor := floor);
      if next.cache.Some? && next.cache.value < floor {
        next := next.(cache := Some(floor));
      }
    }

    /** A write ahead of this instance, or of an unattached one, is resolved against the authority first. */
    method CatchUp(expected: nat, answer: Answer) returns (ok: bool)
      modifies this
      ensures View() == CaughtUp(old(View()), expected, answer)
      ensures ok == CatchesUp(old(View()), expected, answer)
      ensures old(epoch).Some? && old(active).revision >= expected ==> ok && View() == old(View())
      ensures old(epoch).None? || old(active).revision < expected ==>
        && (answer == NoAnswer ==> !ok && View() == old(View()))
        && (answer == Unreadable ==> !ok && failure == Some(Invalid) && !ready)
        && (answer.Latest? ==>
              && IsReconciled(old(View()), answer.stored, answer.local, View())
              && (ok <==> Agrees(old(View()), answer.stored, answer.local)
                          || Adoptable(old(View()), answer.stored, answer.local)))
      ensures ok ==> epoch.Some?
    {
      if active.revision < expected || epoch.None? {
        match answer
        case NoAnswer =>
          return false;
        case Unreadable =>
          StoreFailure(Invalid);
          return false;
        case Latest(stored, local) =>
          var judgement := ReconcileStored(stored, local);
          return judgement.Agreed? || judgement.Activated?;
      }
      return true;
    }

    /** The checks and edits a write makes before it reaches the store, after catching up with it where needed. */
    method PrepareApply(config: Config, expected: nat, local: Local, answer: Answer) returns (p: Prepared)
      modifies this
      ensures var stays := !local.compatible || old(stopping);
              View() == if stays then old(View()) else CaughtUp(old(View()), expected, answer)
      ensures p == if local.compatible && !old(stopping) && !CatchesUp(old(View()), expected, answer) then Behind
                   else Prepare(View(), config, expected, local)
      ensures old(epoch).Some? && old(active).revision >= expected ==> View() == old(View())
      ensures p.Ready? ==> epoch.Some? && active.revision == expected && IsSuccessor(active, config, p.config)
    {
      if !local.compatible {
        return Rejected;
      }
      if stopping {
        return Draining;
      }
      var ok := CatchUp(expected, answer);
      if !ok {
        return Behind;
      }
      PreparedExactly(View(), config, expected, local);
      if active.revision != expected {
        return RevisionConflict;
      }
      if expected >= MAX_REVISION {
        return Exhausted;
      }
      var next := NormalizeCacheGeneration(config);
      next := next.(revision := expected + 1);
      if next.floor > MAX_GENERATION || (next.cache.Some? && next.cache.value > MAX_GENERATION) || !local.prepares {
        return Rejected;
      }
      return Ready(next);
    }

    method ResolveConflict(writtenTo: Epoch, current: Stored, local: Local)
      modifies this
      ensures View() == Conflicted(old(View()), writtenTo, current, local)
    {
      if current.epoch != writtenTo {
        StoreFailure(AuthorityChanged);
      } else {
        var _ := ReconcileStored(current, local);
      }
    }

    /** A write the store has applied becomes the active document. */
    method Publish(config: Config, local: Local) returns (published: bool)
      modifies this`active, this`failsClosed, this`ready
      ensures published == local.commits
      ensures View() == Published(old(View()), config, local)
    {
      if !local.commits {
        return false;
      }
      active, failsClosed := config, local.failsClosed;
      if failsClosed {
        ready := false;
      }
      return true;
    }
  }

  function Published(m: Instance, config: Config, local: Local): Instance {
    if !local.commits then m
    else m.(active := config, failsClosed := local.failsClosed, ready := m.ready && !local.failsClosed)
  }

  // ------------------------------------------------------------------
  // What one decision means
  // ------------------------------------------------------------------

  /** A document that is taken up is a later one of the followed epoch, or the first one seen. */
  lemma ActivationMeans(m: Instance, stored: Stored, local: Local)
    ensures Reconciled(m, stored, local).active != m.active ==>
      && Reconciled(m, stored, local).active == stored.config
      && Reconciled(m, stored, local).epoch == Some(stored.epoch)
      && (m.epoch.Some? ==> m.epoch.value == stored.epoch && stored.config.revision > m.active.revision)
    ensures m.epoch.Some? ==> Reconciled(m, stored, local).epoch == m.epoch
    ensures m.epoch.None? && Reconciled(m, stored, local).epoch.Some? ==>
      Reconciled(m, stored, local).active == stored.config
  {
  }

  /**
   * A write that gets ready is attached and based on exactly the revision it
   * expects, one revision later, on a floor that covers its base.
   */
  lemma ReadyMeans(m: Instance, config: Config, expected: nat, local: Local, answer: Answer)
    requires CatchesUp(m, expected, answer)
    ensures var m', p := CaughtUp(m, expected, answer), Prepare(CaughtUp(m, expected, answer), config, expected, local);
      p.Ready? ==>
        && m'.epoch.Some? && (m.epoch.Some? ==> m'.epoch == m.epoch)
        && m'.active.revision == expected && p.config.revision == expected + 1
        && p.config.floor >= m'.active.floor && p.config.floor >= Generation(m'.active)
        && (p.config.cache.Some? ==> p.config.cache.value == p.config.floor)
  {
    if answer.Latest? {
      ActivationMeans(m, answer.stored, answer.local);
    }
    NormalizedFloor(CaughtUp(m, expected, answer).active, config);
  }

  /**
   * Readiness after a judgement: never after a disagreement, never while a route fails closed,
   * and gained only by a confirmation outside a freeze or withdrawal.
   */
  lemma ReadinessMeans(m: Instance, stored: Stored, local: Local)
    requires m.ready ==> !m.failsClosed
    ensures var r := Reconciled(m, stored, local);
      && (r.ready ==> !r.failsClosed && !Judge(m, stored, local).Refused?)
      && (r.ready && !m.ready ==> !m.stopping && !m.withdrawing && r.failure.None?)
      && (r.failure.Some? && r.failure != m.failure ==> !r.ready)
  {
  }

  /** The floor of a normalized document covers both documents, and a configured cache sits exactly on it. */
  lemma NormalizedFloor(active: Config, config: Config)
    ensures var next := Normalized(active, config);
      && next.floor >= active.floor && next.floor >= Generation(active)
      && next.floor >= config.floor && next.floor >= Generation(config)
      && (next.floor == active.floor || next.floor == config.floor
          || next.floor == Generation(active) || next.floor == Generation(config))
      && next.cache.Some? == config.cache.Some?
      && (next.cache.Some? ==> next.cache.value == next.floor)
      && next.revision == config.revision && next.body == config.body
  {
  }
}
