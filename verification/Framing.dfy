/** Length framing: every component is preceded by its length in eight bytes, most significant first. */
module Framing {
  import opened Wrappers

  const U64: nat := 0x1_0000_0000_0000_0000

  function Power(k: nat): nat {
    if k == 0 then 1 else 256 * Power(k - 1)
  }

  function BigEndian(n: nat, k: nat): (b: seq<Byte>)
    ensures |b| == k
  {
    if k == 0 then [] else BigEndian(n / 256, k - 1) + [n % 256]
  }

  lemma {:induction false} BigEndianInjective(n: nat, m: nat, k: nat)
    requires n < Power(k) && m < Power(k)
    requires BigEndian(n, k) == BigEndian(m, k)
    ensures n == m
  {
    if k > 0 {
      var a, b := BigEndian(n, k), BigEndian(m, k);
      assert a[..k - 1] == BigEndian(n / 256, k - 1) && b[..k - 1] == BigEndian(m / 256, k - 1);
      assert a[k - 1] == n % 256 && b[k - 1] == m % 256;
      BigEndianInjective(n / 256, m / 256, k - 1);
    }
  }

  function Number(n: nat): (b: seq<Byte>)
    ensures |b| == 8
  {
    BigEndian(n, 8)
  }

  lemma NumberInjective(n: nat, m: nat)
    requires n < U64 && m < U64 && Number(n) == Number(m)
    ensures n == m
  {
    assert Power(8) == U64;
    BigEndianInjective(n, m, 8);
  }

  function Framed(value: seq<Byte>): seq<Byte> {
    Number(|value|) + value
  }

  /** All components, framed one after the other. */
  function Stream(items: seq<seq<Byte>>): seq<Byte> {
    if items == [] then [] else Framed(items[0]) + Stream(items[1..])
  }

  predicate Short(items: seq<seq<Byte>>) {
    forall i :: 0 <= i < |items| ==> |items[i]| < U64
  }

  /** A frame ends where its length says, so what follows it is determined. */
  lemma FramedPrefix(v: seq<Byte>, w: seq<Byte>, x: seq<Byte>, y: seq<Byte>)
    requires |v| < U64 && |w| < U64 && Framed(v) + x == Framed(w) + y
    ensures v == w && x == y
  {
    var a, b := Framed(v) + x, Framed(w) + y;
    assert a[..8] == Number(|v|) && b[..8] == Number(|w|);
    NumberInjective(|v|, |w|);
    assert a[8..8 + |v|] == v && b[8..8 + |v|] == w;
    assert a[8 + |v|..] == x && b[8 + |v|..] == y;
  }

  /** A stream is the framing of only one sequence of components. */
  lemma {:induction false} StreamInjective(a: seq<seq<Byte>>, b: seq<seq<Byte>>)
    requires Short(a) && Short(b) && Stream(a) == Stream(b)
    ensures a == b
  {
    if a == [] || b == [] {
      assert |Stream(a)| == |Stream(b)|;
    } else {
      FramedPrefix(a[0], b[0], Stream(a[1..]), Stream(b[1..]));
      StreamInjective(a[1..], b[1..]);
      assert a == [a[0]] + a[1..] && b == [b[0]] + b[1..];
    }
  }

  lemma {:induction false} StreamConcat(a: seq<seq<Byte>>, b: seq<seq<Byte>>)
    ensures Stream(a + b) == Stream(a) + Stream(b)
  {
    if a == [] {
      assert a + b == b;
    } else {
      assert (a + b)[1..] == a[1..] + b;
      StreamConcat(a[1..], b);
    }
  }

  lemma StreamOne(item: seq<Byte>)
    ensures Stream([item]) == Framed(item)
  {
    assert [item][1..] == [];
  }

  /** A running hash, seen as the bytes fed to it so far. */
  class Hasher {
    var input: seq<Byte>

    constructor ()
      ensures input == []
    {
      input := [];
    }

    method Update(bytes: seq<Byte>)
      modifies this
      ensures input == old(input) + bytes
    {
      input := input + bytes;
    }

    method FeedFramed(value: seq<Byte>)
      modifies this
      ensures input == old(input) + Framed(value)
    {
      Update(Number(|value|));
      Update(value);
    }

    /** Feeds components in order, each framed. */
    method FeedAll(items: seq<seq<Byte>>)
      modifies this
      ensures input == old(input) + Stream(items)
    {
      for i := 0 to |items|
        invariant input == old(input) + Stream(items[..i])
      {
        assert items[..i + 1] == items[..i] + [items[i]];
        StreamConcat(items[..i], [items[i]]);
        StreamOne(items[i]);
        FeedFramed(items[i]);
      }
      assert items[..|items|] == items;
    }
  }
}
