/**
 * Admission of challenge requests: a connection permit and one token from a
 * bucket that refills with time. Instants are nanoseconds and may arrive out of
 * order; the bucket's own clock never goes back.
 */
module TokenBucket {
  const PERMITS: nat := 64
  const CAPACITY: nat := 100_000_000_000
  const COST: nat := 1_000_000_000
  const RATE: nat := 100

  datatype Bucket = Bucket(last: int, credit: nat)

  function Max(a: int, b: int): int {
    if a < b then b else a
  }

  function Min(a: int, b: int): int {
    if a < b then a else b
  }

  function Refilled(b: Bucket, now: int): Bucket
    requires b.credit <= CAPACITY
  {
    var clock := Max(now, b.last);
    Bucket(clock, Min(b.credit + (clock - b.last) * RATE, CAPACITY))
  }

  predicate Affords(b: Bucket, now: int)
    requires b.credit <= CAPACITY
  {
    Refilled(b, now).credit >= COST
  }

  /** The bucket after a call that held a permit. */
  function Charged(b: Bucket, now: int): (b': Bucket)
    requires b.credit <= CAPACITY
    ensures b'.credit <= CAPACITY
  {
    var r := Refilled(b, now);
    if r.credit >= COST then r.(credit := r.credit - COST) else r
  }

  class Admission {
    var connections: nat
    var bucket: Bucket
    ghost var held: nat

    ghost predicate Valid()
      reads this
    {
      connections + held == PERMITS && bucket.credit <= CAPACITY
    }

    constructor (now: int)
      ensures Valid() && held == 0 && bucket == Bucket(now, CAPACITY)
    {
      connections, bucket, held := PERMITS, Bucket(now, CAPACITY), 0;
    }

    /** Admission takes one permit and one token; a refusal takes neither. */
    method AdmitAt(now: int) returns (admitted: bool)
      requires Valid()
      modifies this
      ensures Valid()
      ensures admitted <==> old(held) < 64 && Affords(old(bucket), now)
      ensures bucket == if old(held) < 64 then Charged(old(bucket), now) else old(bucket)
      ensures held == if admitted then old(held) + 1 else old(held)
    {
      if connections == 0 {
        return false;
      }
      connections := connections - 1;
      var clock := if now < bucket.last then bucket.last else now;
      var credit := bucket.credit + (clock - bucket.last) * RATE;
      if credit > CAPACITY {
        credit := CAPACITY;
      }
      bucket := Bucket(clock, credit);
      if bucket.credit < COST {
        connections := connections + 1;
        return false;
      }
      bucket := bucket.(credit := bucket.credit - COST);
      held := held + 1;
      return true;
    }

    /** The response has been sent and its permit is given back. */
    method Release()
      requires Valid() && held > 0
      modifies this
      ensures Valid() && held == old(held) - 1 && bucket == old(bucket)
    {
      connections := connections + 1;
      held := held - 1;
    }
  }

  // ------------------------------------------------------------------
  // Sequences of calls
  // ------------------------------------------------------------------

  /** One call, and whether it found a connection permit. */
  datatype Call = Call(now: int, permit: bool)

  function After(b: Bucket, calls: seq<Call>): (b': Bucket)
    requires b.credit <= CAPACITY
    ensures b'.credit <= CAPACITY
  {
    if calls == [] then b
    else
      var before := After(b, calls[..|calls| - 1]);
      var call := calls[|calls| - 1];
      if call.permit then Charged(before, call.now) else before
  }

  predicate Admits(b: Bucket, calls: seq<Call>, i: nat)
    requires b.credit <= CAPACITY && i < |calls|
  {
    calls[i].permit && Affords(After(b, calls[..i]), calls[i].now)
  }

  /** Admissions among calls `i` to `j - 1`. */
  function Admitted(b: Bucket, calls: seq<Call>, i: nat, j: nat): nat
    requires b.credit <= CAPACITY && i <= j <= |calls|
    decreases j
  {
    if i == j then 0 else Admitted(b, calls, i, j - 1) + if Admits(b, calls, j - 1) then 1 else 0
  }

  /** The bucket's clock once `i` calls have been made. */
  function Clock(b: Bucket, calls: seq<Call>, i: nat): int
    requires b.credit <= CAPACITY && i <= |calls|
  {
    After(b, calls[..i]).last
  }

  lemma AfterStep(b: Bucket, calls: seq<Call>, j: nat)
    requires b.credit <= CAPACITY && 0 < j <= |calls|
    ensures var before, after := After(b, calls[..j - 1]), After(b, calls[..j]);
            && before.last <= after.last
            && after.credit + (if Admits(b, calls, j - 1) then COST else 0)
               <= before.credit + (after.last - before.last) * RATE
  {
    assert calls[..j][..j - 1] == calls[..j - 1];
  }

  /** Between two points, spending plus what is left never exceeds what was there plus the refill. */
  lemma {:induction false} CreditIsConserved(b: Bucket, calls: seq<Call>, i: nat, j: nat)
    requires b.credit <= CAPACITY && i <= j <= |calls|
    ensures Clock(b, calls, i) <= Clock(b, calls, j)
    ensures Admitted(b, calls, i, j) * COST + After(b, calls[..j]).credit
            <= After(b, calls[..i]).credit + (Clock(b, calls, j) - Clock(b, calls, i)) * RATE
    decreases j
  {
    if i < j {
      CreditIsConserved(b, calls, i, j - 1);
      AfterStep(b, calls, j);
    }
  }

  /**
   * Whatever instants the callers pass, admissions within a window of the
   * clock are bounded by one full bucket and the refill over the window.
   * Calls `i` to `j - 1` have their clocked times between the two ends.
   */
  lemma WindowBound(b: Bucket, calls: seq<Call>, i: nat, j: nat)
    requires b.credit <= CAPACITY && i < j <= |calls|
    ensures Admitted(b, calls, i, j) * 1_000_000_000
            <= 100_000_000_000 + (Clock(b, calls, j) - Clock(b, calls, i + 1)) * 100
  {
    CreditIsConserved(b, calls, i + 1, j);
    FirstCall(b, calls, i);
    AdmittedSplit(b, calls, i, j);
  }

  lemma FirstCall(b: Bucket, calls: seq<Call>, i: nat)
    requires b.credit <= CAPACITY && i < |calls|
    ensures After(b, calls[..i + 1]).credit + (if Admits(b, calls, i) then COST else 0) <= CAPACITY
  {
    assert calls[..i + 1][..i] == calls[..i];
  }

  lemma {:induction false} AdmittedSplit(b: Bucket, calls: seq<Call>, i: nat, j: nat)
    requires b.credit <= CAPACITY && i < j <= |calls|
    ensures Admitted(b, calls, i, j) == (if Admits(b, calls, i) then 1 else 0) + Admitted(b, calls, i + 1, j)
    decreases j
  {
    if i + 1 < j {
      AdmittedSplit(b, calls, i, j - 1);
    }
  }

  /** A full bucket is a burst of one hundred, at a single instant, and no more. */
  lemma {:induction false} BurstIsExact(b: Bucket, calls: seq<Call>, i: nat)
    requires b.credit == CAPACITY && i < |calls|
    requires forall k :: 0 <= k < |calls| ==> calls[k] == Call(b.last, true)
    ensures After(b, calls[..i]) == Bucket(b.last, if i <= 100 then CAPACITY - i * COST else 0)
    ensures Admits(b, calls, i) <==> i < 100
  {
    if i > 0 {
      BurstIsExact(b, calls, i - 1);
      assert calls[..i][..i - 1] == calls[..i - 1];
    }
  }

  // ------------------------------------------------------------------
  // Refusals
  // ------------------------------------------------------------------

  /** `a` is `b`, or `b` as refilled up to a later clock that still pays for nothing. */
  predicate AsGood(a: Bucket, b: Bucket)
    requires a.credit <= CAPACITY && b.credit <= CAPACITY
  {
    a == b || (b.last <= a.last && a.credit < COST && a == Refilled(b, a.last))
  }

  lemma AsGoodStep(a: Bucket, b: Bucket, now: int)
    requires a.credit <= CAPACITY && b.credit <= CAPACITY && AsGood(a, b)
    ensures Affords(a, now) <==> Affords(b, now)
    ensures AsGood(Charged(a, now), Charged(b, now))
  {
  }

  lemma {:induction false} AsGoodRun(a: Bucket, b: Bucket, calls: seq<Call>)
    requires a.credit <= CAPACITY && b.credit <= CAPACITY && AsGood(a, b)
    ensures AsGood(After(a, calls), After(b, calls))
  {
    if calls != [] {
      var before, call := calls[..|calls| - 1], calls[|calls| - 1];
      AsGoodRun(a, b, before);
      AsGoodStep(After(a, before), After(b, before), call.now);
    }
  }

  lemma {:induction false} AfterConcat(b: Bucket, first: seq<Call>, more: seq<Call>)
    requires b.credit <= CAPACITY
    ensures After(b, first + more) == After(After(b, first), more)
  {
    if more == [] {
      assert first + more == first;
    } else {
      var all := first + more;
      assert all[..|all| - 1] == first + more[..|more| - 1];
      AfterConcat(b, first, more[..|more| - 1]);
    }
  }

  lemma AdmitsLater(b: Bucket, first: seq<Call>, more: seq<Call>, i: nat)
    requires b.credit <= CAPACITY && i < |more|
    ensures Admits(b, first + more, |first| + i) <==> Admits(After(b, first), more, i)
  {
    assert (first + more)[..|first| + i] == first + more[..i];
    AfterConcat(b, first, more[..i]);
  }

  /**
   * A refusal costs nothing: leaving a refused call out of any sequence, at any
   * place, changes the fate of no later call, whatever instants they pass.
   */
  lemma RefusalIsFree(b: Bucket, before: seq<Call>, refused: Call, later: seq<Call>, i: nat)
    requires b.credit <= CAPACITY && i < |later|
    requires !Admits(b, before + [refused], |before|)
    ensures Admits(b, before + [refused] + later, |before| + 1 + i) <==> Admits(b, before + later, |before| + i)
  {
    var here, there := After(b, before), After(b, before + [refused]);
    assert (before + [refused])[..|before|] == before;
    AdmitsLater(b, before, later, i);
    AdmitsLater(b, before + [refused], later, i);
    AsGoodRun(there, here, later[..i]);
    AsGoodStep(After(there, later[..i]), After(here, later[..i]), later[i].now);
  }

  /** A call is paid for exactly when the credit and a hundredfold of the time since the last call reach one token. */
  lemma AffordsExactly(b: Bucket, now: int)
    requires b.credit <= CAPACITY
    ensures Affords(b, now) <==> b.credit + (if now > b.last then (now - b.last) * 100 else 0) >= 1_000_000_000
  {
  }

  /** Ten milliseconds of the clock pay for one admission, however empty the bucket is, and nothing less does. */
  lemma WaitIsExact(b: Bucket, now: int)
    requires b.credit <= CAPACITY
    ensures now - b.last >= 10_000_000 ==> Affords(b, now)
    ensures b.credit == 0 ==> (Affords(b, now) <==> now - b.last >= 10_000_000)
  {
    AffordsExactly(b, now);
  }

  /** One call every ten milliseconds is always admitted: one hundred a second, for ever. */
  lemma {:induction false} SteadyRateIsServed(b: Bucket, calls: seq<Call>, i: nat)
    requires b.credit <= CAPACITY && i < |calls|
    requires forall k :: 0 <= k < |calls| ==> calls[k] == Call(b.last + (k + 1) * 10_000_000, true)
    ensures After(b, calls[..i]).last == b.last + i * 10_000_000
    ensures Admits(b, calls, i)
  {
    if i > 0 {
      SteadyRateIsServed(b, calls, i - 1);
      assert calls[..i][..i - 1] == calls[..i - 1];
      assert calls[i - 1].now == b.last + i * 10_000_000;
    }
    assert calls[i].now == b.last + (i + 1) * 10_000_000;
    WaitIsExact(After(b, calls[..i]), calls[i].now);
  }
}
