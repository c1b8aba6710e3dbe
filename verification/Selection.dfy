/**
 * Backend selection: weighted round robin by a shared cursor, and least
 * connections by cross multiplication, both over the backends that the caller's
 * predicate and their health admit.
 */
module Selection {
  import opened Wrappers

  const CURSOR_MODULUS: nat := 0x1_0000_0000_0000_0000

  datatype Mode = RoundRobin | LeastConnections

  // ------------------------------------------------------------------
  // Weights
  // ------------------------------------------------------------------

  function Weight(weights: seq<nat>, i: nat): nat {
    if i < |weights| then weights[i] else 1
  }

  /** The weights of the first `n` backends together. */
  function Prefix(weights: seq<nat>, n: nat): nat {
    if n == 0 then 0 else Prefix(weights, n - 1) + Weight(weights, n - 1)
  }

  /** Slot `slot` belongs to backend `i`. */
  predicate Owns(weights: seq<nat>, i: nat, slot: nat) {
    Prefix(weights, i) <= slot < Prefix(weights, i + 1)
  }

  lemma {:induction false} PrefixMonotone(weights: seq<nat>, m: nat, n: nat)
    requires m <= n
    ensures Prefix(weights, m) <= Prefix(weights, n)
    decreases n - m
  {
    if m < n {
      PrefixMonotone(weights, m, n - 1);
    }
  }

  /** A slot has one owner. */
  lemma OwnerIsUnique(weights: seq<nat>, i: nat, j: nat, slot: nat)
    requires Owns(weights, i, slot) && Owns(weights, j, slot)
    ensures i == j
  {
    if i < j {
      PrefixMonotone(weights, i + 1, j);
    } else if j < i {
      PrefixMonotone(weights, j + 1, i);
    }
  }

  lemma {:induction false} UnweightedPrefix(n: nat)
    ensures Prefix([], n) == n
  {
    if n > 0 {
      UnweightedPrefix(n - 1);
    }
  }

  // ------------------------------------------------------------------
  // Arithmetic
  // ------------------------------------------------------------------

  lemma MulAtLeast(n: nat, d: nat)
    requires d >= 1
    ensures n * d >= n
  {
    assert n * d == n + n * (d - 1);
  }

  /** Quotient and remainder are unique. */
  lemma DivModUnique(a: nat, n: nat, q: nat, r: nat)
    requires n > 0 && a == n * q + r && r < n
    ensures a / n == q && a % n == r
  {
    var q' := a / n;
    assert a == n * q' + a % n;
    if q' > q {
      MulAtLeast(n, q' - q);
    } else if q > q' {
      MulAtLeast(n, q - q');
    }
  }

  lemma ModShift(a: nat, n: nat)
    requires n > 0
    ensures (a + n) % n == a % n
  {
    assert a + n == n * (a / n + 1) + a % n;
    DivModUnique(a + n, n, a / n + 1, a % n);
  }

  // ------------------------------------------------------------------
  // Order and load
  // ------------------------------------------------------------------

  /** Position `k` of the scan that starts at `start` and wraps around. */
  function Scan(start: nat, k: nat, n: nat): nat
    requires start < n && k < n
  {
    if start + k < n then start + k else start + k - n
  }

  lemma ScanIsMod(start: nat, k: nat, n: nat)
    requires start < n && k < n
    ensures (start + k) % n == Scan(start, k, n)
  {
    if start + k < n {
      DivModUnique(start + k, n, 0, start + k);
    } else {
      DivModUnique(start + k, n, 1, start + k - n);
    }
  }

  /** `r` is the first eligible index of the scan. */
  ghost predicate FirstEligible(eligible: seq<bool>, start: nat, r: nat)
    requires start < |eligible|
  {
    var n := |eligible|;
    exists k {:trigger Scan(start, k, n)} :: 0 <= k < n && Scan(start, k, n) == r && eligible[r]
      && (forall m :: 0 <= m < k ==> !eligible[Scan(start, m, n)])
  }

  /** Backend `i` carries at most the load of `j` in proportion to its weight. */
  predicate AtMost(active: seq<nat>, weights: seq<nat>, i: nat, j: nat)
    requires i < |active| && j < |active|
  {
    active[i] * Weight(weights, j) <= active[j] * Weight(weights, i)
  }

  predicate Below(active: seq<nat>, weights: seq<nat>, i: nat, j: nat)
    requires i < |active| && j < |active|
  {
    active[i] * Weight(weights, j) < active[j] * Weight(weights, i)
  }

  /**
   * Of the first `upTo` backends scanned, the one at `k` carries the least load, and strictly
   * less than any eligible one scanned before it.
   */
  ghost predicate LeastAt(eligible: seq<bool>, active: seq<nat>, weights: seq<nat>, start: nat, upTo: nat, k: nat)
    requires start < |eligible| == |active| && k < upTo <= |active|
  {
    var n := |active|;
    var r := Scan(start, k, n);
    && eligible[r]
    && (forall m :: 0 <= m < upTo && eligible[Scan(start, m, n)] ==> AtMost(active, weights, r, Scan(start, m, n)))
    && (forall m :: 0 <= m < k && eligible[Scan(start, m, n)] ==> Below(active, weights, r, Scan(start, m, n)))
  }

  /** The first backend in scan order among those carrying the least load. */
  ghost predicate LeastLoaded(eligible: seq<bool>, active: seq<nat>, weights: seq<nat>, start: nat, r: nat)
    requires start < |eligible| == |active|
  {
    exists k :: 0 <= k < |active| && Scan(start, k, |active|) == r && LeastAt(eligible, active, weights, start, |active|, k)
  }

  lemma CancelFactor(a: nat, b: nat, w: nat)
    requires w > 0 && a * w < b * w
    ensures a < b
  {
  }

  /** A load strictly below another is strictly below everything that one does not exceed. */
  lemma BelowTransitive(a: nat, wa: nat, b: nat, wb: nat, c: nat, wc: nat)
    requires wa > 0 && wb > 0 && wc > 0
    requires a * wb < b * wa && b * wc <= c * wb
    ensures a * wc < c * wa
  {
    assert (a * wc) * wb < (c * wa) * wb by {
      assert (a * wc) * wb == (a * wb) * wc;
      assert (a * wb) * wc < (b * wa) * wc;
      assert (b * wa) * wc == (b * wc) * wa;
      assert (b * wc) * wa <= (c * wb) * wa;
      assert (c * wb) * wa == (c * wa) * wb;
    }
    CancelFactor(a * wc, c * wa, wb);
  }

  /** Every index is scanned. */
  lemma ScanCovers(start: nat, n: nat, j: nat) returns (k: nat)
    requires start < n && j < n
    ensures k < n && Scan(start, k, n) == j
  {
    k := if j >= start then j - start else j + n - start;
  }

  // ------------------------------------------------------------------
  // The selector
  // ------------------------------------------------------------------

  ghost predicate SomeEligible(eligible: seq<bool>) {
    exists i :: 0 <= i < |eligible| && eligible[i]
  }

  /** The first eligible backend of the scan that starts at the owner of the cursor's slot. */
  ghost predicate RoundRobinPick(eligible: seq<bool>, weights: seq<nat>, c: nat, r: nat) {
    var n := |eligible|;
    Prefix(weights, n) > 0 && exists selected ::
      0 <= selected < n && Owns(weights, selected, c % Prefix(weights, n)) && FirstEligible(eligible, selected, r)
  }

  class Selector {
    const mode: Mode
    const weights: seq<nat>
    const count: nat
    var cursor: nat

    ghost predicate Valid()
      reads this
    {
      && (weights == [] || |weights| == count)
      && (forall i :: 0 <= i < |weights| ==> 1 <= weights[i] <= 1000)
      && cursor < CURSOR_MODULUS
    }

    constructor (mode: Mode, weights: seq<nat>, count: nat)
      requires weights == [] || |weights| == count
      requires forall i :: 0 <= i < |weights| ==> 1 <= weights[i] <= 1000
      ensures Valid() && this.mode == mode && this.weights == weights && this.count == count && cursor == 0
    {
      this.mode, this.weights, this.count, cursor := mode, weights, count, 0;
    }

    method LeastFrom(eligible: seq<bool>, active: seq<nat>, start: nat) returns (best: Option<nat>)
      requires Valid() && |eligible| == |active| == count && start < count
      ensures best.None? <==> !SomeEligible(eligible)
      ensures best.Some? ==> LeastLoaded(eligible, active, weights, start, best.value)
    {
      best := None;
      ghost var at := 0;
      for offset := 0 to count
        invariant best.None? ==> forall m :: 0 <= m < offset ==> !eligible[Scan(start, m, count)]
        invariant best.Some? ==> at < offset && best.value == Scan(start, at, count)
        invariant best.Some? ==> LeastAt(eligible, active, weights, start, offset, at)
      {
        ScanIsMod(start, offset, count);
        var index := (start + offset) % count;
        if eligible[index] {
          if best.None? {
            best, at := Some(index), offset;
          } else if active[index] * Weight(weights, best.value) < active[best.value] * Weight(weights, index) {
            forall m | 0 <= m < offset && eligible[Scan(start, m, count)]
              ensures Below(active, weights, index, Scan(start, m, count))
            {
              var j := Scan(start, m, count);
              assert AtMost(active, weights, best.value, j);
              BelowTransitive(active[index], Weight(weights, index), active[best.value], Weight(weights, best.value),
                              active[j], Weight(weights, j));
            }
            best, at := Some(index), offset;
          }
        }
      }
      if SomeEligible(eligible) {
        ghost var i :| 0 <= i < |eligible| && eligible[i];
        ghost var k := ScanCovers(start, count, i);
      }
    }

    /** The owner of the slot the cursor points at, found by walking the weights. */
    method Weighted(slot: nat) returns (selected: nat)
      requires Valid() && slot < Prefix(weights, count)
      ensures selected < count && Owns(weights, selected, slot)
    {
      if weights == [] {
        UnweightedPrefix(slot);
        UnweightedPrefix(slot + 1);
        UnweightedPrefix(count);
        return slot;
      }
      var rest := slot;
      for index := 0 to count
        invariant rest == slot - Prefix(weights, index)
      {
        if rest < weights[index] {
          return index;
        }
        rest := rest - weights[index];
      }
      assert false;
    }

    method FirstFrom(eligible: seq<bool>, start: nat) returns (found: Option<nat>)
      requires |eligible| == count && start < count
      ensures found.None? <==> !SomeEligible(eligible)
      ensures found.Some? ==> FirstEligible(eligible, start, found.value)
    {
      for offset := 0 to count
        invariant forall m :: 0 <= m < offset ==> !eligible[Scan(start, m, count)]
      {
        ScanIsMod(start, offset, count);
        var index := (start + offset) % count;
        if eligible[index] {
          assert Scan(start, offset, count) == index;
          return Some(index);
        }
      }
      if SomeEligible(eligible) {
        ghost var i :| 0 <= i < |eligible| && eligible[i];
        ghost var k := ScanCovers(start, count, i);
      }
      return None;
    }

    /** One selection. `eligible` combines the caller's predicate with health, `active` is the current load. */
    method SelectWhere(eligible: seq<bool>, active: seq<nat>) returns (r: Option<nat>)
      requires Valid() && |eligible| == |active| == count
      modifies this`cursor
      ensures Valid() && cursor < 0x1_0000_0000_0000_0000
      ensures cursor == if count == 0 then old(cursor) else (old(cursor) + 1) % 0x1_0000_0000_0000_0000
      ensures r.None? <==> !SomeEligible(eligible)
      ensures r.Some? && mode == LeastConnections ==>
        LeastLoaded(eligible, active, weights, old(cursor) % count, r.value)
      ensures r.Some? && mode == RoundRobin ==>
        RoundRobinPick(eligible, weights, old(cursor), r.value)
    {
      if count == 0 {
        return None;
      }
      var at := cursor;
      cursor := (cursor + 1) % CURSOR_MODULUS;
      if mode == LeastConnections {
        r := LeastFrom(eligible, active, at % count);
        return;
      }
      assert Prefix(weights, count) > 0 by { PrefixMonotone(weights, 1, count); }
      var total := TotalWeight();
      var selected := Weighted(at % total);
      r := FirstFrom(eligible, selected);
    }

    method TotalWeight() returns (total: nat)
      requires Valid()
      ensures total == Prefix(weights, count)
    {
      if weights == [] {
        UnweightedPrefix(count);
        return count;
      }
      total := 0;
      for i := 0 to count
        invariant total == Prefix(weights, i)
      {
        total := total + weights[i];
      }
    }
  }

  // ------------------------------------------------------------------
  // Fairness
  // ------------------------------------------------------------------

  /** With every backend eligible, the pick at cursor `c`. */
  ghost predicate Picks(weights: seq<nat>, n: nat, c: nat, i: nat) {
    Prefix(weights, n) > 0 && i < n && Owns(weights, i, c % Prefix(weights, n))
  }

  /** With every backend eligible, round robin picks the owner of the cursor's slot. */
  lemma PickIsOwner(weights: seq<nat>, n: nat, c: nat, r: nat)
    requires n > 0 && Prefix(weights, n) > 0
    requires RoundRobinPick(seq(n, _ => true), weights, c, r)
    ensures Picks(weights, n, c, r)
  {
    var all := seq(n, _ => true);
    var selected :| 0 <= selected < n && Owns(weights, selected, c % Prefix(weights, n)) && FirstEligible(all, selected, r);
    assert all[Scan(selected, 0, n)];
  }

  /** How often backend `i` is picked at the cursors from `c` on, `len` of them. */
  ghost function Count(weights: seq<nat>, n: nat, c: nat, len: nat, i: nat): nat {
    if len == 0 then 0 else Count(weights, n, c, len - 1, i) + (if Picks(weights, n, c + len - 1, i) then 1 else 0)
  }

  lemma {:induction false} CountTail(weights: seq<nat>, n: nat, c: nat, len: nat, i: nat)
    requires len > 0
    ensures Count(weights, n, c, len, i) == (if Picks(weights, n, c, i) then 1 else 0) + Count(weights, n, c + 1, len - 1, i)
  {
    if len > 1 {
      CountTail(weights, n, c, len - 1, i);
    }
  }

  /** In the first turn backend `i` is picked at exactly its own slots. */
  lemma {:induction false} CountFromZero(weights: seq<nat>, n: nat, len: nat, i: nat)
    requires i < n && len <= Prefix(weights, n)
    ensures Count(weights, n, 0, len, i) ==
      if len <= Prefix(weights, i) then 0
      else if len <= Prefix(weights, i + 1) then len - Prefix(weights, i)
      else Weight(weights, i)
  {
    if len > 0 {
      CountFromZero(weights, n, len - 1, i);
      DivModUnique(len - 1, Prefix(weights, n), 0, len - 1);
      PrefixMonotone(weights, i, i + 1);
    }
  }

  lemma {:induction false} CountFromAny(weights: seq<nat>, n: nat, c: nat, i: nat)
    requires i < n && Prefix(weights, n) > 0
    ensures Count(weights, n, c, Prefix(weights, n), i) == Weight(weights, i)
  {
    var total := Prefix(weights, n);
    PrefixMonotone(weights, i + 1, n);
    if c == 0 {
      CountFromZero(weights, n, total, i);
    } else {
      CountFromAny(weights, n, c - 1, i);
      CountTail(weights, n, c - 1, total, i);
      ModShift(c - 1, total);
    }
  }

  /**
   * With every backend eligible, any turn of consecutive cursors picks each backend exactly as
   * often as its weight says.
   */
  lemma RoundRobinIsFair(weights: seq<nat>, n: nat, c: nat, i: nat)
    requires i < n && (weights == [] || |weights| == n) && (forall j :: 0 <= j < |weights| ==> weights[j] >= 1)
    ensures Count(weights, n, c, Prefix(weights, n), i) == Weight(weights, i)
  {
    PrefixMonotone(weights, i + 1, n);
    CountFromAny(weights, n, c, i);
  }

  /**
   * Consecutive selections with every backend eligible: `cursors` are the values
   * the shared cursor takes and `picks` what each selection returns.
   */
  ghost predicate AreSelections(weights: seq<nat>, n: nat, cursors: seq<nat>, picks: seq<nat>) {
    && |cursors| == |picks| + 1
    && (forall k {:trigger picks[k]} :: 0 <= k < |picks| ==>
          cursors[k + 1] == (cursors[k] + 1) % 0x1_0000_0000_0000_0000
          && RoundRobinPick(seq(n, _ => true), weights, cursors[k], picks[k]))
  }

  lemma {:induction false} CursorsAdvance(weights: seq<nat>, n: nat, cursors: seq<nat>, picks: seq<nat>, k: nat)
    requires AreSelections(weights, n, cursors, picks) && k < |picks|
    requires cursors[0] + |picks| <= 0x1_0000_0000_0000_0000
    ensures cursors[k] == cursors[0] + k
  {
    if k > 0 {
      CursorsAdvance(weights, n, cursors, picks, k - 1);
      assert RoundRobinPick(seq(n, _ => true), weights, cursors[k - 1], picks[k - 1]);
    }
  }

  lemma {:induction false} SelectionsAreCounted(
    weights: seq<nat>, n: nat, cursors: seq<nat>, picks: seq<nat>, len: nat, i: nat)
    requires n > 0 && Prefix(weights, n) > 0 && i < n && len <= |picks|
    requires AreSelections(weights, n, cursors, picks) && cursors[0] + |picks| <= 0x1_0000_0000_0000_0000
    ensures multiset(picks[..len])[i] == Count(weights, n, cursors[0], len, i)
  {
    if len > 0 {
      var k := len - 1;
      SelectionsAreCounted(weights, n, cursors, picks, k, i);
      CursorsAdvance(weights, n, cursors, picks, k);
      PickIsOwner(weights, n, cursors[k], picks[k]);
      if Picks(weights, n, cursors[k], i) {
        OwnerIsUnique(weights, i, picks[k], cursors[k] % Prefix(weights, n));
      }
      assert picks[..len] == picks[..k] + [picks[k]];
    }
  }

  /**
   * With every backend eligible, any `total_weight` consecutive selections whose
   * cursor does not wrap return each backend exactly as often as its weight says.
   */
  lemma SelectionsAreFair(weights: seq<nat>, n: nat, cursors: seq<nat>, picks: seq<nat>, i: nat)
    requires i < n && (weights == [] || |weights| == n) && (forall j :: 0 <= j < |weights| ==> weights[j] >= 1)
    requires |picks| == Prefix(weights, n) && AreSelections(weights, n, cursors, picks)
    requires cursors[0] + |picks| <= 0x1_0000_0000_0000_0000
    ensures multiset(picks)[i] == Weight(weights, i)
  {
    PrefixMonotone(weights, i + 1, n);
    RoundRobinIsFair(weights, n, cursors[0], i);
    SelectionsAreCounted(weights, n, cursors, picks, |picks|, i);
    assert picks[..|picks|] == picks;
  }
}
