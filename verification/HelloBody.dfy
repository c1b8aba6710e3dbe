/**
 * The body of a ClientHello message (section 4.1.2 of RFC 8446) and its
 * server-name extension (section 3 of RFC 6066): an independent serialization,
 * and the bounded cursor parser that extracts one host name.
 */
module HelloBody {
  import opened Wrappers
  import opened Hostname

  // ------------------------------------------------------------------
  // Length-prefixed vectors
  // ------------------------------------------------------------------

  function U16(n: nat): seq<Byte>
    requires n < 0x1_0000
  {
    [n / 256, n % 256]
  }

  function Word(b: seq<Byte>): nat
    requires |b| >= 2
  {
    var high: nat, low: nat := b[0], b[1];
    high * 256 + low
  }

  function Vec8(v: seq<Byte>): seq<Byte>
    requires |v| < 0x100
  {
    [|v|] + v
  }

  function Vec16(v: seq<Byte>): seq<Byte>
    requires |v| < 0x1_0000
  {
    U16(|v|) + v
  }

  lemma Associative(a: seq<Byte>, b: seq<Byte>, c: seq<Byte>)
    ensures a + b + c == a + (b + c)
  {
  }

  /** The vector in front of `b`, and what follows it. */
  function Split8(b: seq<Byte>): Option<(seq<Byte>, seq<Byte>)> {
    if b == [] then None
    else
      var n: nat := b[0];
      if |b| < 1 + n then None else Some((b[1..1 + n], b[1 + n..]))
  }

  function Split16(b: seq<Byte>): Option<(seq<Byte>, seq<Byte>)> {
    if |b| < 2 || |b| < 2 + Word(b) then None else Some((b[2..2 + Word(b)], b[2 + Word(b)..]))
  }

  lemma Split8Exact(b: seq<Byte>, v: seq<Byte>, rest: seq<Byte>)
    ensures Split8(b) == Some((v, rest)) <==> |v| < 0x100 && b == Vec8(v) + rest
  {
    if Split8(b) == Some((v, rest)) {
      assert b == [b[0]] + v + rest;
    }
    if |v| < 0x100 && b == Vec8(v) + rest {
      assert b[0] == |v| && b[1..1 + |v|] == v && b[1 + |v|..] == rest;
    }
  }

  lemma Split16Exact(b: seq<Byte>, v: seq<Byte>, rest: seq<Byte>)
    ensures Split16(b) == Some((v, rest)) <==> |v| < 0x1_0000 && b == Vec16(v) + rest
  {
    if Split16(b) == Some((v, rest)) {
      assert U16(Word(b)) == [b[0], b[1]];
      assert b == [b[0], b[1]] + v + rest;
    }
    if |v| < 0x1_0000 && b == Vec16(v) + rest {
      assert b[0] == |v| / 256 && b[1] == |v| % 256;
      assert Word(b) == |v| && b[2..2 + |v|] == v && b[2 + |v|..] == rest;
    }
  }

  // ------------------------------------------------------------------
  // Structure and serialization
  // ------------------------------------------------------------------

  datatype Extension = Extension(kind: nat, body: seq<Byte>)

  datatype Name = Name(kind: Byte, text: seq<Byte>)

  /** Everything but the extensions' own structure; `extensions` are their bytes. */
  datatype Outline = Outline(
    version: seq<Byte>,
    random: seq<Byte>,
    session: seq<Byte>,
    ciphers: seq<Byte>,
    compressions: seq<Byte>,
    extensions: seq<Byte>)

  predicate IsOutline(o: Outline) {
    && |o.version| == 2
    && |o.random| == 32
    && |o.session| <= 32
    && 2 <= |o.ciphers| < 0x1_0000 && |o.ciphers| % 2 == 0
    && 1 <= |o.compressions| < 0x100
    && |o.extensions| < 0x1_0000
  }

  function HeadBytes(version: seq<Byte>, random: seq<Byte>, session: seq<Byte>): seq<Byte>
    requires |session| < 0x100
  {
    version + random + Vec8(session)
  }

  function SuiteBytes(ciphers: seq<Byte>, compressions: seq<Byte>): seq<Byte>
    requires |ciphers| < 0x1_0000 && |compressions| < 0x100
  {
    Vec16(ciphers) + Vec8(compressions)
  }

  function OutlineBytes(o: Outline): seq<Byte>
    requires IsOutline(o)
  {
    HeadBytes(o.version, o.random, o.session) + (SuiteBytes(o.ciphers, o.compressions) + Vec16(o.extensions))
  }

  predicate IsExtension(x: Extension) {
    x.kind < 0x1_0000 && |x.body| < 0x1_0000
  }

  predicate AreExtensions(xs: seq<Extension>) {
    forall i :: 0 <= i < |xs| ==> IsExtension(xs[i])
  }

  function OneExtension(x: Extension): seq<Byte>
    requires IsExtension(x)
  {
    U16(x.kind) + Vec16(x.body)
  }

  function ExtensionBytes(xs: seq<Extension>): seq<Byte>
    requires AreExtensions(xs)
  {
    if xs == [] then [] else OneExtension(xs[0]) + ExtensionBytes(xs[1..])
  }

  predicate IsName(name: Name) {
    1 <= |name.text| < 0x1_0000
  }

  predicate AreNames(names: seq<Name>) {
    forall i :: 0 <= i < |names| ==> IsName(names[i])
  }

  function OneName(name: Name): seq<Byte>
    requires IsName(name)
  {
    [name.kind] + Vec16(name.text)
  }

  function NameBytes(names: seq<Name>): seq<Byte>
    requires AreNames(names)
  {
    if names == [] then [] else OneName(names[0]) + NameBytes(names[1..])
  }

  predicate DistinctExtensions(xs: seq<Extension>) {
    forall i, j :: 0 <= i < j < |xs| ==> xs[i].kind != xs[j].kind
  }

  predicate DistinctNames(names: seq<Name>) {
    forall i, j :: 0 <= i < j < |names| ==> names[i].kind != names[j].kind
  }

  ghost predicate Acceptable(host: seq<Byte>, isAddress: seq<Byte> -> bool) {
    IsHostname(host) && !isAddress(host)
  }

  /** A server-name extension with one host name among names of different types. */
  ghost predicate ListsHost(body: seq<Byte>, names: seq<Name>, host: seq<Byte>, isAddress: seq<Byte> -> bool) {
    && AreNames(names) && DistinctNames(names)
    && |NameBytes(names)| < 0x1_0000 && body == Vec16(NameBytes(names))
    && Name(0, host) in names
    && Acceptable(host, isAddress)
  }

  /** `body` is the serialization of this hello, whose one server-name extension names `host`. */
  ghost predicate Serializes(
    body: seq<Byte>, o: Outline, xs: seq<Extension>, names: seq<Name>, host: seq<Byte>, isAddress: seq<Byte> -> bool) {
    && IsOutline(o) && body == OutlineBytes(o)
    && AreExtensions(xs) && DistinctExtensions(xs) && o.extensions == ExtensionBytes(xs)
    && exists i :: 0 <= i < |xs| && xs[i].kind == 0 && ListsHost(xs[i].body, names, host, isAddress)
  }

  // ------------------------------------------------------------------
  // Parsing, as functions
  // ------------------------------------------------------------------

  function SplitHead(b: seq<Byte>): Option<((seq<Byte>, seq<Byte>, seq<Byte>), seq<Byte>)> {
    if |b| < 34 then None
    else
      var session := Split8(b[34..]);
      if session.None? || |session.value.0| > 32 then None
      else Some(((b[..2], b[2..34], session.value.0), session.value.1))
  }

  function SplitSuites(b: seq<Byte>): Option<((seq<Byte>, seq<Byte>), seq<Byte>)> {
    var ciphers := Split16(b);
    if ciphers.None? || |ciphers.value.0| < 2 || |ciphers.value.0| % 2 != 0 then None
    else
      var compressions := Split8(ciphers.value.1);
      if compressions.None? || compressions.value.0 == [] then None
      else Some(((ciphers.value.0, compressions.value.0), compressions.value.1))
  }

  function ParseOutline(body: seq<Byte>): Option<Outline> {
    var head := SplitHead(body);
    if head.None? then None
    else
      var suites := SplitSuites(head.value.1);
      if suites.None? then None
      else
        var extensions := Split16(suites.value.1);
        if extensions.None? || extensions.value.1 != [] then None
        else
          var (version, random, session) := head.value.0;
          var (ciphers, compressions) := suites.value.0;
          Some(Outline(version, random, session, ciphers, compressions, extensions.value.0))
  }

  lemma HeadExact(b: seq<Byte>, version: seq<Byte>, random: seq<Byte>, session: seq<Byte>, rest: seq<Byte>)
    ensures SplitHead(b) == Some(((version, random, session), rest)) <==>
            |version| == 2 && |random| == 32 && |session| <= 32 && b == HeadBytes(version, random, session) + rest
  {
    if SplitHead(b) == Some(((version, random, session), rest)) {
      Split8Exact(b[34..], session, rest);
      assert b == b[..2] + b[2..34] + b[34..];
    }
    if |version| == 2 && |random| == 32 && |session| <= 32 && b == HeadBytes(version, random, session) + rest {
      assert b[..2] == version && b[2..34] == random && b[34..] == Vec8(session) + rest;
      Split8Exact(b[34..], session, rest);
    }
  }

  lemma SuitesSound(b: seq<Byte>, ciphers: seq<Byte>, compressions: seq<Byte>, rest: seq<Byte>)
    requires SplitSuites(b) == Some(((ciphers, compressions), rest))
    ensures 2 <= |ciphers| < 0x1_0000 && |ciphers| % 2 == 0 && 1 <= |compressions| < 0x100
    ensures b == SuiteBytes(ciphers, compressions) + rest
  {
    var tail := Split16(b).value.1;
    Split16Exact(b, ciphers, tail);
    Split8Exact(tail, compressions, rest);
    Associative(Vec16(ciphers), Vec8(compressions), rest);
  }

  lemma SuitesComplete(ciphers: seq<Byte>, compressions: seq<Byte>, rest: seq<Byte>)
    requires 2 <= |ciphers| < 0x1_0000 && |ciphers| % 2 == 0 && 1 <= |compressions| < 0x100
    ensures SplitSuites(SuiteBytes(ciphers, compressions) + rest) == Some(((ciphers, compressions), rest))
  {
    var b := SuiteBytes(ciphers, compressions) + rest;
    var tail := Vec8(compressions) + rest;
    Associative(Vec16(ciphers), Vec8(compressions), rest);
    Split16Exact(b, ciphers, tail);
    Split8Exact(tail, compressions, rest);
  }

  /** A body parses into one outline exactly when it is that outline's serialization. */
  lemma OutlineExact(body: seq<Byte>, o: Outline)
    ensures ParseOutline(body) == Some(o) <==> IsOutline(o) && body == OutlineBytes(o)
  {
    if ParseOutline(body) == Some(o) {
      var head := SplitHead(body).value;
      var suites := SplitSuites(head.1).value;
      HeadExact(body, o.version, o.random, o.session, head.1);
      SuitesSound(head.1, o.ciphers, o.compressions, suites.1);
      Split16Exact(suites.1, o.extensions, []);
      assert Vec16(o.extensions) + [] == Vec16(o.extensions);
    }
    if IsOutline(o) && body == OutlineBytes(o) {
      var tail := Vec16(o.extensions);
      var middle := SuiteBytes(o.ciphers, o.compressions) + tail;
      HeadExact(body, o.version, o.random, o.session, middle);
      SuitesComplete(o.ciphers, o.compressions, tail);
      assert tail + [] == tail;
      Split16Exact(tail, o.extensions, []);
    }
  }

  function SplitExtension(b: seq<Byte>): Option<(Extension, seq<Byte>)> {
    if |b| < 2 then None
    else
      var body := Split16(b[2..]);
      if body.None? then None else Some((Extension(Word(b), body.value.0), body.value.1))
  }

  lemma ExtensionExact(b: seq<Byte>, x: Extension, rest: seq<Byte>)
    ensures SplitExtension(b) == Some((x, rest)) <==> IsExtension(x) && b == OneExtension(x) + rest
  {
    if SplitExtension(b) == Some((x, rest)) {
      Split16Exact(b[2..], x.body, rest);
      assert U16(Word(b)) == b[..2];
      assert b == b[..2] + b[2..];
      Associative(U16(x.kind), Vec16(x.body), rest);
    }
    if IsExtension(x) && b == OneExtension(x) + rest {
      Associative(U16(x.kind), Vec16(x.body), rest);
      assert b[2..] == Vec16(x.body) + rest;
      assert Word(b) == Word(U16(x.kind));
      Split16Exact(b[2..], x.body, rest);
    }
  }

  function ParseExtensions(b: seq<Byte>): Option<seq<Extension>>
    decreases |b|
  {
    if b == [] then Some([])
    else
      var first := SplitExtension(b);
      if first.None? then None
      else
        var rest := ParseExtensions(first.value.1);
        if rest.None? then None else Some([first.value.0] + rest.value)
  }

  lemma {:induction false} ExtensionsSound(b: seq<Byte>)
    requires ParseExtensions(b).Some?
    ensures AreExtensions(ParseExtensions(b).value) && b == ExtensionBytes(ParseExtensions(b).value)
    decreases |b|
  {
    if b != [] {
      var xs := ParseExtensions(b).value;
      var first := SplitExtension(b).value;
      ExtensionExact(b, first.0, first.1);
      ExtensionsSound(first.1);
      assert xs[1..] == ParseExtensions(first.1).value;
    }
  }

  lemma {:induction false} ExtensionsComplete(xs: seq<Extension>)
    requires AreExtensions(xs)
    ensures ParseExtensions(ExtensionBytes(xs)) == Some(xs)
  {
    if xs != [] {
      var rest := ExtensionBytes(xs[1..]);
      ExtensionExact(OneExtension(xs[0]) + rest, xs[0], rest);
      ExtensionsComplete(xs[1..]);
      assert xs == [xs[0]] + xs[1..];
    }
  }

  function SplitName(b: seq<Byte>): Option<(Name, seq<Byte>)> {
    if b == [] then None
    else
      var text := Split16(b[1..]);
      if text.None? || text.value.0 == [] then None else Some((Name(b[0], text.value.0), text.value.1))
  }

  lemma NameExact(b: seq<Byte>, name: Name, rest: seq<Byte>)
    ensures SplitName(b) == Some((name, rest)) <==> IsName(name) && b == OneName(name) + rest
  {
    if SplitName(b) == Some((name, rest)) {
      Split16Exact(b[1..], name.text, rest);
      assert b == b[..1] + b[1..];
      Associative([name.kind], Vec16(name.text), rest);
    }
    if IsName(name) && b == OneName(name) + rest {
      Associative([name.kind], Vec16(name.text), rest);
      assert b[1..] == Vec16(name.text) + rest;
      Split16Exact(b[1..], name.text, rest);
    }
  }

  function ParseNames(b: seq<Byte>): Option<seq<Name>>
    decreases |b|
  {
    if b == [] then Some([])
    else
      var first := SplitName(b);
      if first.None? then None
      else
        var rest := ParseNames(first.value.1);
        if rest.None? then None else Some([first.value.0] + rest.value)
  }

  lemma {:induction false} NamesSound(b: seq<Byte>)
    requires ParseNames(b).Some?
    ensures AreNames(ParseNames(b).value) && b == NameBytes(ParseNames(b).value)
    decreases |b|
  {
    if b != [] {
      var names := ParseNames(b).value;
      var first := SplitName(b).value;
      NameExact(b, first.0, first.1);
      NamesSound(first.1);
      assert names[1..] == ParseNames(first.1).value;
    }
  }

  lemma {:induction false} NamesComplete(names: seq<Name>)
    requires AreNames(names)
    ensures ParseNames(NameBytes(names)) == Some(names)
  {
    if names != [] {
      var rest := NameBytes(names[1..]);
      NameExact(OneName(names[0]) + rest, names[0], rest);
      NamesComplete(names[1..]);
      assert names == [names[0]] + names[1..];
    }
  }

  function FindName(names: seq<Name>): Option<seq<Byte>> {
    if names == [] then None else if names[0].kind == 0 then Some(names[0].text) else FindName(names[1..])
  }

  function FindExtension(xs: seq<Extension>): Option<seq<Byte>> {
    if xs == [] then None else if xs[0].kind == 0 then Some(xs[0].body) else FindExtension(xs[1..])
  }

  ghost function ChooseName(names: seq<Name>, isAddress: seq<Byte> -> bool): Option<seq<Byte>> {
    var host := FindName(names);
    if DistinctNames(names) && host.Some? && Acceptable(host.value, isAddress) then Some(Lower(host.value)) else None
  }

  ghost function ServerName(body: seq<Byte>, isAddress: seq<Byte> -> bool): Option<seq<Byte>> {
    var list := Split16(body);
    if list.None? || list.value.1 != [] || list.value.0 == [] then None
    else NamesFrom([], list.value.0, isAddress)
  }

  /** The result once `names` have been read and `rest` is still to come. */
  ghost function NamesFrom(names: seq<Name>, rest: seq<Byte>, isAddress: seq<Byte> -> bool): Option<seq<Byte>> {
    var more := ParseNames(rest);
    if more.None? then None else ChooseName(names + more.value, isAddress)
  }

  ghost function ChooseExtension(xs: seq<Extension>, isAddress: seq<Byte> -> bool): Option<seq<Byte>> {
    var body := FindExtension(xs);
    if DistinctExtensions(xs) && body.Some? then ServerName(body.value, isAddress) else None
  }

  ghost function ExtensionsFrom(xs: seq<Extension>, rest: seq<Byte>, isAddress: seq<Byte> -> bool): Option<seq<Byte>> {
    var more := ParseExtensions(rest);
    if more.None? then None else ChooseExtension(xs + more.value, isAddress)
  }

  /** The name a ClientHello body asks for, if it is acceptable throughout. */
  ghost function NameIn(body: seq<Byte>, isAddress: seq<Byte> -> bool): Option<seq<Byte>> {
    var outline := ParseOutline(body);
    if outline.None? then None else ExtensionsFrom([], outline.value.extensions, isAddress)
  }

  // ------------------------------------------------------------------
  // Exactness
  // ------------------------------------------------------------------

  lemma {:induction false} FindNameExact(names: seq<Name>, host: seq<Byte>)
    requires DistinctNames(names)
    ensures FindName(names) == Some(host) <==> Name(0, host) in names
  {
    if names != [] && names[0].kind != 0 {
      FindNameExact(names[1..], host);
      assert names == [names[0]] + names[1..];
    }
  }

  lemma {:induction false} FindExtensionExact(xs: seq<Extension>, body: seq<Byte>)
    requires DistinctExtensions(xs)
    ensures FindExtension(xs) == Some(body) <==> Extension(0, body) in xs
  {
    if xs != [] && xs[0].kind != 0 {
      FindExtensionExact(xs[1..], body);
      assert xs == [xs[0]] + xs[1..];
    }
  }

  lemma ServerNameSound(body: seq<Byte>, isAddress: seq<Byte> -> bool) returns (names: seq<Name>, host: seq<Byte>)
    requires ServerName(body, isAddress).Some?
    ensures ListsHost(body, names, host, isAddress) && ServerName(body, isAddress) == Some(Lower(host))
  {
    var list := Split16(body).value.0;
    Split16Exact(body, list, []);
    NamesSound(list);
    names := ParseNames(list).value;
    assert [] + names == names;
    host := FindName(names).value;
    FindNameExact(names, host);
  }

  lemma ServerNameComplete(body: seq<Byte>, names: seq<Name>, host: seq<Byte>, isAddress: seq<Byte> -> bool)
    requires ListsHost(body, names, host, isAddress)
    ensures ServerName(body, isAddress) == Some(Lower(host))
  {
    var list := NameBytes(names);
    Split16Exact(body, list, []);
    assert body == Vec16(list) + [];
    NamesComplete(names);
    assert [] + names == names;
    FindNameExact(names, host);
  }

  /**
   * A body is accepted with a name exactly when it is the serialization of a
   * ClientHello that asks for one host name, and the name is that host in
   * lower case.
   */
  lemma NameIsExact(body: seq<Byte>, isAddress: seq<Byte> -> bool, name: seq<Byte>)
    ensures NameIn(body, isAddress) == Some(name) <==>
            exists o, xs, names, host :: Serializes(body, o, xs, names, host, isAddress) && name == Lower(host)
  {
    if NameIn(body, isAddress) == Some(name) {
      var o, xs, names, host := NameSound(body, isAddress);
    }
    if exists o, xs, names, host :: Serializes(body, o, xs, names, host, isAddress) && name == Lower(host) {
      var o, xs, names, host :| Serializes(body, o, xs, names, host, isAddress) && name == Lower(host);
      NameComplete(body, o, xs, names, host, isAddress);
    }
  }

  lemma NameSound(body: seq<Byte>, isAddress: seq<Byte> -> bool)
    returns (o: Outline, xs: seq<Extension>, names: seq<Name>, host: seq<Byte>)
    requires NameIn(body, isAddress).Some?
    ensures Serializes(body, o, xs, names, host, isAddress) && NameIn(body, isAddress) == Some(Lower(host))
  {
    o := ParseOutline(body).value;
    OutlineExact(body, o);
    ExtensionsSound(o.extensions);
    xs := ParseExtensions(o.extensions).value;
    assert [] + xs == xs;
    var value := FindExtension(xs).value;
    FindExtensionExact(xs, value);
    names, host := ServerNameSound(value, isAddress);
  }

  lemma NameComplete(
    body: seq<Byte>, o: Outline, xs: seq<Extension>, names: seq<Name>, host: seq<Byte>, isAddress: seq<Byte> -> bool)
    requires Serializes(body, o, xs, names, host, isAddress)
    ensures NameIn(body, isAddress) == Some(Lower(host))
  {
    OutlineExact(body, o);
    ExtensionsComplete(xs);
    assert [] + xs == xs;
    var i :| 0 <= i < |xs| && xs[i].kind == 0 && ListsHost(xs[i].body, names, host, isAddress);
    assert xs[i] == Extension(0, xs[i].body);
    FindExtensionExact(xs, xs[i].body);
    ServerNameComplete(xs[i].body, names, host, isAddress);
  }

  /** One body is the serialization of at most one ClientHello. */
  lemma SerializationIsUnique(
    body: seq<Byte>, o: Outline, xs: seq<Extension>, o': Outline, xs': seq<Extension>)
    requires IsOutline(o) && AreExtensions(xs) && o.extensions == ExtensionBytes(xs)
    requires IsOutline(o') && AreExtensions(xs') && o'.extensions == ExtensionBytes(xs')
    requires OutlineBytes(o) == OutlineBytes(o') == body
    ensures o == o' && xs == xs'
  {
    OutlineExact(body, o);
    OutlineExact(body, o');
    ExtensionsComplete(xs);
    ExtensionsComplete(xs');
  }

  // ------------------------------------------------------------------
  // Parsing with a cursor
  // ------------------------------------------------------------------

  class Cursor {
    const bytes: seq<Byte>
    var position: nat

    ghost predicate Valid()
      reads this
    {
      position <= |bytes|
    }

    ghost function Rest(): seq<Byte>
      requires Valid()
      reads this
    {
      bytes[position..]
    }

    constructor (b: seq<Byte>)
      ensures Valid() && Rest() == b
    {
      bytes, position := b, 0;
    }

    function Remaining(): (n: nat)
      requires Valid()
      reads this
      ensures n == |Rest()|
    {
      |bytes| - position
    }

    method Take(amount: nat) returns (value: Option<seq<Byte>>)
      requires Valid()
      modifies this
      ensures Valid()
      ensures value.Some? <==> amount <= |old(Rest())|
      ensures value.Some? ==> value.value == old(Rest())[..amount] && Rest() == old(Rest())[amount..]
    {
      if position + amount > |bytes| {
        return None;
      }
      value := Some(bytes[position..position + amount]);
      position := position + amount;
    }

    method TakeU8() returns (value: Option<Byte>)
      requires Valid()
      modifies this
      ensures Valid()
      ensures value.Some? <==> |old(Rest())| >= 1
      ensures value.Some? ==> value.value == old(Rest())[0] && Rest() == old(Rest())[1..]
    {
      var b := Take(1);
      return if b.Some? then Some(b.value[0]) else None;
    }

    method TakeU16() returns (value: Option<nat>)
      requires Valid()
      modifies this
      ensures Valid()
      ensures value.Some? <==> |old(Rest())| >= 2
      ensures value.Some? ==> value.value == Word(old(Rest())) && Rest() == old(Rest())[2..]
    {
      var b := Take(2);
      return if b.Some? then Some(Word(b.value)) else None;
    }

    /** A vector behind a one-byte length. */
    method TakeVec8() returns (value: Option<seq<Byte>>)
      requires Valid()
      modifies this
      ensures Valid()
      ensures value.Some? <==> Split8(old(Rest())).Some?
      ensures value.Some? ==> Split8(old(Rest())) == Some((value.value, Rest()))
    {
      ghost var before := Rest();
      var n := TakeU8();
      if n.None? {
        return None;
      }
      value := Take(n.value);
      if value.Some? {
        assert before[1..][..n.value] == before[1..1 + n.value as nat];
        assert before[1..][n.value..] == before[1 + n.value as nat..];
      }
    }

    /** A vector behind a two-byte length. */
    method TakeVec16() returns (value: Option<seq<Byte>>)
      requires Valid()
      modifies this
      ensures Valid()
      ensures value.Some? <==> Split16(old(Rest())).Some?
      ensures value.Some? ==> Split16(old(Rest())) == Some((value.value, Rest()))
    {
      ghost var before := Rest();
      var n := TakeU16();
      if n.None? {
        return None;
      }
      value := Take(n.value);
      if value.Some? {
        assert before[2..][..n.value] == before[2..2 + n.value];
        assert before[2..][n.value..] == before[2 + n.value..];
      }
    }
  }
}
