/**
 * The admission word of one member: a request count in the low bits, a pending
 * flag and an irreversible retired flag in the top two, all changed by single
 * atomic updates.
 */
module MemberGate {
  const RETIRED: nat := 0x8000_0000_0000_0000
  const PENDING: nat := 0x4000_0000_0000_0000
  const COUNT: nat := PENDING - 1

  datatype Gate = Gate(retired: bool, pending: bool, count: nat)

  const OPEN := Gate(false, false, 0)
  const PREPARED := Gate(false, true, 0)

  predicate Open(g: Gate) {
    !g.retired && !g.pending
  }

  predicate IsWord(word: nat) {
    word < 2 * RETIRED
  }

  function Encode(g: Gate): nat {
    (if g.retired then RETIRED else 0) + (if g.pending then PENDING else 0) + g.count
  }

  /** What the bits of a word mean. */
  function Decode(word: nat): Gate {
    Gate(word / RETIRED % 2 == 1, word / PENDING % 2 == 1, word % PENDING)
  }

  /** Every word encodes one gate, and every gate whose count fits is one word. */
  lemma WordIsGate(word: nat, g: Gate)
    requires IsWord(word) && g.count <= COUNT
    ensures Encode(Decode(word)) == word
    ensures IsWord(Encode(g)) && Decode(Encode(g)) == g
  {
  }

  function Retired(g: Gate): Gate {
    g.(retired := true)
  }

  class MemberAdmission {
    var word: nat

    ghost predicate Valid()
      reads this
    {
      IsWord(word)
    }

    function State(): Gate
      reads this
    {
      Decode(word)
    }

    constructor Prepared()
      ensures Valid() && State() == PREPARED
    {
      word := PENDING;
    }

    constructor Serving()
      ensures Valid() && State() == OPEN
    {
      word := 0;
    }

    /** Only a prepared member that nobody uses and nobody retired becomes open. */
    method Activate() returns (activated: bool)
      requires Valid()
      modifies this
      ensures Valid()
      ensures activated <==> old(State()) == PREPARED
      ensures State() == if activated then OPEN else old(State())
    {
      activated := word == PENDING;
      if activated {
        word := 0;
      }
    }

    method Retire()
      requires Valid()
      modifies this
      ensures Valid() && State() == Retired(old(State()))
    {
      if word < RETIRED {
        word := word + RETIRED;
      }
    }

    method IsOpen() returns (open: bool)
      requires Valid()
      ensures open <==> Open(State())
      ensures open <==> word < 0x4000_0000_0000_0000
    {
      open := word / PENDING % 4 == 0;
    }

    /** Closing and counting share one word, so a closed member admits nobody. */
    method Acquire() returns (admitted: bool)
      requires Valid()
      modifies this
      ensures Valid()
      ensures admitted <==> Open(old(State())) && old(State()).count < COUNT
      ensures admitted <==> old(word) < 0x3FFF_FFFF_FFFF_FFFF
      ensures State() == if admitted then old(State()).(count := old(State()).count + 1) else old(State())
    {
      admitted := word / PENDING % 4 == 0 && word % PENDING < COUNT;
      if admitted {
        word := word + 1;
      }
    }

    method Release()
      requires Valid() && State().count > 0
      modifies this
      ensures Valid() && State() == old(State()).(count := old(State()).count - 1)
    {
      word := word - 1;
    }
  }
}
