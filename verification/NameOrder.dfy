/** Byte strings in lexicographic order, and the one ascending list of a set of them. */
module NameOrder {
  import opened Wrappers

  type Name = seq<Byte>

  predicate Less(a: Name, b: Name) {
    b != [] && (a == [] || a[0] < b[0] || (a[0] == b[0] && Less(a[1..], b[1..])))
  }

  lemma {:induction false} LessIsTotal(a: Name, b: Name)
    ensures a == b || Less(a, b) || Less(b, a)
    ensures !(Less(a, b) && Less(b, a))
    ensures Less(a, b) ==> a != b
  {
    if a != [] && b != [] {
      LessIsTotal(a[1..], b[1..]);
      assert a == [a[0]] + a[1..] && b == [b[0]] + b[1..];
    }
  }

  lemma {:induction false} LessIsTransitive(a: Name, b: Name, c: Name)
    requires Less(a, b) && Less(b, c)
    ensures Less(a, c)
  {
    if a != [] && a[0] == b[0] == c[0] {
      LessIsTransitive(a[1..], b[1..], c[1..]);
    }
  }

  predicate Ascending(names: seq<Name>) {
    forall i, j :: 0 <= i < j < |names| ==> Less(names[i], names[j])
  }

  function Insert(name: Name, names: seq<Name>): seq<Name> {
    if names == [] || Less(name, names[0]) then [name] + names else [names[0]] + Insert(name, names[1..])
  }

  function Sort(names: seq<Name>): seq<Name> {
    if names == [] then [] else Insert(names[|names| - 1], Sort(names[..|names| - 1]))
  }

  lemma {:induction false} InsertKeeps(name: Name, names: seq<Name>)
    requires Ascending(names) && name !in names
    ensures Ascending(Insert(name, names))
    ensures forall n :: n in Insert(name, names) <==> n == name || n in names
  {
    if names != [] {
      var first, rest := names[0], names[1..];
      assert names == [first] + rest;
      LessIsTotal(name, first);
      if Less(name, first) {
        forall n | n in rest
          ensures Less(name, n)
        {
          LessIsTransitive(name, first, n);
        }
      } else {
        InsertKeeps(name, rest);
        forall n | n in Insert(name, rest)
          ensures Less(first, n)
        {
        }
      }
    }
  }

  predicate Distinct(names: seq<Name>) {
    forall i, j :: 0 <= i < j < |names| ==> names[i] != names[j]
  }

  /** Sorting distinct names gives an ascending list of the same names. */
  lemma {:induction false} SortSorts(names: seq<Name>)
    requires Distinct(names)
    ensures Ascending(Sort(names))
    ensures forall n :: n in Sort(names) <==> n in names
  {
    if names != [] {
      var before, last := names[..|names| - 1], names[|names| - 1];
      assert names == before + [last];
      SortSorts(before);
      InsertKeeps(last, Sort(before));
    }
  }

  /** A set of names has one ascending list. */
  lemma {:induction false} AscendingIsUnique(a: seq<Name>, b: seq<Name>)
    requires Ascending(a) && Ascending(b)
    requires forall n :: n in a <==> n in b
    ensures a == b
  {
    assert (a == [] || a[0] in b) && (b == [] || b[0] in a);
    if a != [] && b != [] {
      SameFirst(a, b);
      SameRest(a, b);
      AscendingIsUnique(a[1..], b[1..]);
      assert a == [a[0]] + a[1..] && b == [b[0]] + b[1..];
    }
  }

  lemma SameFirst(a: seq<Name>, b: seq<Name>)
    requires Ascending(a) && Ascending(b) && a != [] && b != []
    requires forall n :: n in a <==> n in b
    ensures a[0] == b[0]
  {
    assert a[0] in b && b[0] in a;
    LessIsTotal(a[0], b[0]);
  }

  lemma SameRest(a: seq<Name>, b: seq<Name>)
    requires Ascending(a) && Ascending(b) && a != [] && b != [] && a[0] == b[0]
    requires forall n :: n in a <==> n in b
    ensures forall n :: n in a[1..] <==> n in b[1..]
  {
    forall n
      ensures n in a[1..] <==> n in a && n != a[0]
      ensures n in b[1..] <==> n in b && n != b[0]
    {
      FirstIsOnce(a, n);
      FirstIsOnce(b, n);
    }
  }

  lemma FirstIsOnce(a: seq<Name>, n: Name)
    requires Ascending(a) && a != []
    ensures n in a[1..] <==> n in a && n != a[0]
  {
    assert a == [a[0]] + a[1..];
    if n in a[1..] {
      LessIsTotal(a[0], n);
    }
  }
}
