/**
 * The readiness flag. Any number of advertisers, withdrawers and other writers
 * interleave one atomic load, store or swap at a time.
 */
module Readiness {
  type Id = nat

  /** The sets hold the callers at each point between their first and last access. */
  datatype State = State(
    ready: bool,
    withdrawing: bool,
    stopping: bool,
    checked: set<Id>,      // advertiser saw no withdrawal, swap due
    swapped: set<Id>,      // advertiser raised the flag, re-check due
    revoking: set<Id>,     // advertiser saw a withdrawal on its re-check, lowering due
    announced: set<Id>,    // withdrawer announced itself, freeze due
    frozen: set<Id>)       // withdrawer froze writes, lowering due

  datatype Event =
    | Enter(i: Id, authorized: bool)
    | Raise(i: Id)
    | Reread(i: Id)
    | Revoke(i: Id)
    | Announce(i: Id)
    | Freeze(i: Id)
    | LowerLast(i: Id)
    | Lower
    | Resume
    | Unfreeze

  const INITIAL := State(false, false, false, {}, {}, {}, {}, {})

  function Busy(s: State): set<Id> {
    s.checked + s.swapped + s.revoking + s.announced + s.frozen
  }

  predicate Enabled(s: State, e: Event) {
    match e
    case Enter(i, _) => i !in Busy(s)
    case Raise(i) => i in s.checked
    case Reread(i) => i in s.swapped
    case Revoke(i) => i in s.revoking
    case Announce(i) => i !in Busy(s)
    case Freeze(i) => i in s.announced
    case LowerLast(i) => i in s.frozen
    case Lower => true
    case Resume => true
    case Unfreeze => true
  }

  function Apply(s: State, e: Event): State
    requires Enabled(s, e)
  {
    match e
    case Enter(i, authorized) => if s.withdrawing || !authorized then s else s.(checked := s.checked + {i})
    case Raise(i) => s.(ready := true, checked := s.checked - {i}, swapped := s.swapped + {i})
    case Reread(i) =>
      var s1 := s.(swapped := s.swapped - {i});
      if s.withdrawing then s1.(revoking := s.revoking + {i}) else s1
    case Revoke(i) => s.(ready := false, revoking := s.revoking - {i})
    case Announce(i) => s.(withdrawing := true, announced := s.announced + {i})
    case Freeze(i) => s.(stopping := true, announced := s.announced - {i}, frozen := s.frozen + {i})
    case LowerLast(i) => s.(ready := false, frozen := s.frozen - {i})
    case Lower => s.(ready := false)
    case Resume => s.(withdrawing := false)
    case Unfreeze => s.(stopping := false)
  }

  predicate Next(s: State, e: Event, s': State) {
    Enabled(s, e) && s' == Apply(s, e)
  }

  ghost predicate IsRun(states: seq<State>, events: seq<Event>) {
    && |states| == |events| + 1
    && states[0] == INITIAL
    && (forall n {:trigger events[n]} :: 0 <= n < |events| ==> Next(states[n], events[n], states[n + 1]))
  }

  /** No withdrawer is under way and no advertiser is between its swap and its final re-check. */
  predicate Settled(s: State) {
    s.swapped == {} && s.revoking == {} && s.announced == {} && s.frozen == {}
  }

  /** A raised flag under a withdrawal is still on somebody's list to be lowered. */
  predicate Inv(s: State) {
    s.withdrawing && s.ready ==> !Settled(s)
  }

  lemma StepKeeps(s: State, e: Event, s': State)
    requires Inv(s) && Next(s, e, s')
    ensures Inv(s')
    ensures s.withdrawing && e != Resume ==> s'.withdrawing
  {
  }

  lemma {:induction false} RunInv(states: seq<State>, events: seq<Event>, n: nat)
    requires IsRun(states, events) && n < |states|
    ensures Inv(states[n])
  {
    if n > 0 {
      RunInv(states, events, n - 1);
      StepKeeps(states[n - 1], events[n - 1], states[n]);
    }
  }

  lemma {:induction false} WithdrawalStands(states: seq<State>, events: seq<Event>, a: nat, b: nat)
    requires IsRun(states, events) && a <= b < |states| && states[a].withdrawing
    requires forall n :: a <= n < b ==> events[n] != Resume
    ensures states[b].withdrawing
    decreases b - a
  {
    if a < b {
      WithdrawalStands(states, events, a, b - 1);
      RunInv(states, events, b - 1);
      StepKeeps(states[b - 1], events[b - 1], states[b]);
    }
  }

  /** From an announced withdrawal until a resume, the flag is down in every settled state. */
  lemma WithdrawnStaysDown(states: seq<State>, events: seq<Event>, a: nat, b: nat)
    requires IsRun(states, events) && a <= b < |states| && states[a].withdrawing
    requires forall n :: a <= n < b ==> events[n] != Resume
    requires Settled(states[b])
    ensures !states[b].ready
  {
    WithdrawalStands(states, events, a, b);
    RunInv(states, events, b);
  }

  /** Steps from `s` on, without a resume among them. */
  ghost predicate Continues(s: State, states: seq<State>, events: seq<Event>) {
    && |states| == |events| + 1
    && states[0] == s
    && (forall n {:trigger events[n]} :: 0 <= n < |events| ==>
          events[n] != Resume && Next(states[n], events[n], states[n + 1]))
  }

  /** Under a withdrawal, with nobody left who has checked but not yet raised, the flag stays down. */
  lemma {:induction false} DownForGood(s: State, states: seq<State>, events: seq<Event>, n: nat)
    requires s.withdrawing && !s.ready && s.checked == {}
    requires Continues(s, states, events) && n < |states|
    ensures states[n].withdrawing && !states[n].ready && states[n].checked == {}
  {
    if n > 0 {
      DownForGood(s, states, events, n - 1);
      assert Next(states[n - 1], events[n - 1], states[n]);
    }
  }

  /** An advertiser that checked before the withdrawal can still raise the flag. */
  lemma CheckedRaises(s: State, i: Id)
    requires s.withdrawing && i in s.checked
    ensures Continues(s, [s, Apply(s, Raise(i))], [Raise(i)]) && Apply(s, Raise(i)).ready
  {
  }

  /**
   * Exactly when a lowered flag stays down: under a withdrawal, every
   * continuation without a resume keeps it down if and only if no advertiser
   * stands between its first check and its swap.
   */
  lemma StaysDownExactly(s: State)
    requires s.withdrawing && !s.ready
    ensures s.checked == {} <==>
      (forall states: seq<State>, events: seq<Event>, n :: Continues(s, states, events) && 0 <= n < |states| ==> !states[n].ready)
  {
    if s.checked == {} {
      forall states: seq<State>, events: seq<Event>, n | Continues(s, states, events) && 0 <= n < |states|
        ensures !states[n].ready
      {
        DownForGood(s, states, events, n);
      }
    } else {
      var i :| i in s.checked;
      CheckedRaises(s, i);
      var states := [s, Apply(s, Raise(i))];
      assert Continues(s, states, [Raise(i)]) && states[1].ready;
    }
  }

  /** Over a run: once withdrawn, lowered and past its last pending advertiser, the flag is down until a resume. */
  lemma DownUntilResume(states: seq<State>, events: seq<Event>, a: nat, b: nat)
    requires IsRun(states, events) && a <= b < |states|
    requires states[a].withdrawing && Settled(states[a]) && states[a].checked == {}
    requires forall n :: a <= n < b ==> events[n] != Resume
    ensures !states[b].ready
  {
    RunInv(states, events, a);
    var later, steps := states[a..b + 1], events[a..b];
    forall n | 0 <= n < |steps|
      ensures steps[n] != Resume && Next(later[n], steps[n], later[n + 1])
    {
      assert Next(states[a + n], events[a + n], states[a + n + 1]);
    }
    DownForGood(states[a], later, steps, b - a);
  }

  /** Such an advertiser can be there once a withdrawal has finished: the flag, lowered and settled, comes up again. */
  lemma LateAdvertiserRaises()
    ensures exists states: seq<State>, events: seq<Event> ::
      IsRun(states, events) && |states| == 6 && states[4].withdrawing && !states[4].ready && Settled(states[4])
      && states[5].withdrawing && states[5].ready
  {
    var events := [Enter(0, true), Announce(1), Freeze(1), LowerLast(1), Raise(0)];
    var s1 := Apply(INITIAL, events[0]);
    var s2 := Apply(s1, events[1]);
    var s3 := Apply(s2, events[2]);
    var s4 := Apply(s3, events[3]);
    var s5 := Apply(s4, events[4]);
    assert IsRun([INITIAL, s1, s2, s3, s4, s5], events);
  }

  /** Only an advertiser that was authorized and saw no withdrawal when it entered gets to raise the flag. */
  lemma {:induction false} RaisersWereAuthorized(states: seq<State>, events: seq<Event>, n: nat, i: Id) returns (a: nat)
    requires IsRun(states, events) && n < |states| && i in states[n].checked
    ensures a < n && events[a] == Enter(i, true) && !states[a].withdrawing
    ensures forall m :: a < m <= n ==> i in states[m].checked
  {
    assert n > 0;
    assert Next(states[n - 1], events[n - 1], states[n]);
    if i in states[n - 1].checked {
      a := RaisersWereAuthorized(states, events, n - 1, i);
    } else {
      a := n - 1;
    }
  }

  /** An authorized advertiser that no withdrawal meets makes the instance ready. */
  lemma UndisturbedAdvertiserRaises(s: State, i: Id) returns (s': State)
    requires !s.withdrawing && i !in Busy(s)
    ensures Enabled(s, Enter(i, true)) && Enabled(Apply(s, Enter(i, true)), Raise(i))
    ensures var s2 := Apply(Apply(s, Enter(i, true)), Raise(i)); Enabled(s2, Reread(i)) && s' == Apply(s2, Reread(i))
    ensures s'.ready && Busy(s') == Busy(s)
  {
    s' := Apply(Apply(Apply(s, Enter(i, true)), Raise(i)), Reread(i));
  }
}
