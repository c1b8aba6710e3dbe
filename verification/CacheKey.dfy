/**
 * The cache key of a request: which parts of it count, and how they are fed to
 * the hash. The hash itself is a parameter; everything here is about its input.
 */
module CacheKey {
  import opened Wrappers
  import opened Framing
  import opened NameOrder
  import CacheRuntime

  type Value = seq<Byte>

  const MAX_KEY_HEADER_BYTES: nat := 0x1_0000

  /** A header map: each name once, in no particular order, with its values in wire order. */
  datatype Entry = Entry(name: Name, values: seq<Value>)

  datatype Request = Request(
    method_: Name,
    scheme: Option<seq<Byte>>,
    tls: bool,
    authority: Option<seq<Byte>>,
    path: Option<seq<Byte>>,
    headers: seq<Entry>)

  predicate IsHeaderMap(headers: seq<Entry>) {
    && (forall i, j :: 0 <= i < j < |headers| ==> headers[i].name != headers[j].name)
    && (forall i :: 0 <= i < |headers| ==> headers[i].values != [] && FitsEntry(headers[i]))
  }

  /** Lengths and counts fit the machine word they are written as. */
  predicate FitsEntry(e: Entry) {
    |e.name| < U64 && |e.values| < U64 && Short(e.values)
  }

  function OrElse(value: Option<seq<Byte>>, default: seq<Byte>): seq<Byte> {
    if value.Some? then value.value else default
  }

  predicate IsRequest(r: Request) {
    && |r.method_| < U64
    && |OrElse(r.scheme, [])| < U64
    && |OrElse(r.authority, [])| < U64
    && |OrElse(r.path, [])| < U64
    && IsHeaderMap(r.headers)
  }

  // ------------------------------------------------------------------
  // Hop-by-hop fields (section 7.6.1 of RFC 9110)
  // ------------------------------------------------------------------

  const COMMA: Byte := 44
  const SPACE: Byte := 32
  const TAB: Byte := 9

  function Text(s: string): seq<Byte>
    requires forall i :: 0 <= i < |s| ==> s[i] < 128 as char
  {
    seq(|s|, i requires 0 <= i < |s| => s[i] as int as Byte)
  }

  const CONNECTION := Text("connection")

  const ALWAYS_HOP_BY_HOP: set<Name> := {
    Text("connection"), Text("keep-alive"), Text("proxy-connection"), Text("proxy-authenticate"),
    Text("proxy-authorization"), Text("te"), Text("trailer"), Text("transfer-encoding"), Text("upgrade")}

  /** Only visible characters, spaces and tabs read as text. */
  predicate IsText(value: Value) {
    forall i :: 0 <= i < |value| ==> value[i] == TAB || 32 <= value[i] < 127
  }

  predicate IsBlank(b: Byte) {
    b == SPACE || b == TAB
  }

  function Trim(value: seq<Byte>): seq<Byte>
    decreases |value|
  {
    if value == [] then []
    else if IsBlank(value[0]) then Trim(value[1..])
    else if IsBlank(value[|value| - 1]) then Trim(value[..|value| - 1])
    else value
  }

  predicate IsTokenByte(b: Byte) {
    || 48 <= b <= 57 || 65 <= b <= 90 || 97 <= b <= 122
    || b in {33, 35, 36, 37, 38, 39, 42, 43, 45, 46, 94, 95, 96, 124, 126}
  }

  /** Reading a token as a field name, which is in lower case. */
  function ParseName(token: seq<Byte>): Option<Name> {
    if 1 <= |token| <= 65535 && (forall i :: 0 <= i < |token| ==> IsTokenByte(token[i])) then
      Some(seq(|token|, i requires 0 <= i < |token| =>
        var b: Byte := token[i];
        if 65 <= b <= 90 then (b + 32) as Byte else b))
    else None
  }

  predicate AllBlank(value: seq<Byte>) {
    forall i :: 0 <= i < |value| ==> value[i] == 32 || value[i] == 9
  }

  /** Neither end is a space or a tab. */
  predicate IsTrimmed(value: seq<Byte>) {
    value != [] ==> value[0] != 32 && value[0] != 9 && value[|value| - 1] != 32 && value[|value| - 1] != 9
  }

  /** Trimming takes spaces and tabs off both ends and nothing else. */
  lemma {:induction false} TrimIsExact(value: seq<Byte>) returns (left: seq<Byte>, right: seq<Byte>)
    ensures value == left + Trim(value) + right && AllBlank(left) && AllBlank(right) && IsTrimmed(Trim(value))
    decreases |value|
  {
    if value == [] {
      left, right := [], [];
    } else if IsBlank(value[0]) {
      left, right := TrimIsExact(value[1..]);
      left := [value[0]] + left;
    } else if IsBlank(value[|value| - 1]) {
      left, right := TrimIsExact(value[..|value| - 1]);
      right := right + [value[|value| - 1]];
    } else {
      left, right := [], [];
    }
  }

  /** Nothing else is left of a value by taking blanks off its ends until neither end is one. */
  lemma {:induction false} TrimIsUnique(left: seq<Byte>, core: seq<Byte>, right: seq<Byte>)
    requires AllBlank(left) && AllBlank(right) && IsTrimmed(core)
    ensures Trim(left + core + right) == core
    decreases |left| + |right|
  {
    var value := left + core + right;
    if left != [] {
      TrimIsUnique(left[1..], core, right);
      assert value[1..] == left[1..] + core + right;
    } else if right != [] && core != [] {
      TrimIsUnique(left, core, right[..|right| - 1]);
      assert value[..|value| - 1] == left + core + right[..|right| - 1];
    } else if right != [] {
      TrimIsUnique(left, core, right[1..]);
      assert value[1..] == left + core + right[1..];
    } else {
      assert value == core;
    }
  }

  /** The characters of a token (section 5.6.2 of RFC 9110). */
  predicate IsTokenChar(c: char) {
    '0' <= c <= '9' || 'A' <= c <= 'Z' || 'a' <= c <= 'z' || c in "!#$%&'*+-.^_`|~"
  }

  predicate IsUpper(b: Byte) {
    'A' <= b as int as char <= 'Z'
  }

  /**
   * A token is a field name exactly if it has 1 to 65535 characters and each is a token character;
   * the name is the token with its capitals lowered, and reading it again changes nothing.
   */
  lemma NameIsLowered(token: seq<Byte>)
    ensures ParseName(token).Some? <==>
      1 <= |token| <= 65535 && forall i :: 0 <= i < |token| ==> IsTokenChar(token[i] as int as char)
    ensures ParseName(token).Some? ==>
      var name := ParseName(token).value;
      && |name| == |token|
      && (forall i :: 0 <= i < |token| ==>
            !IsUpper(name[i]) && name[i] as int == token[i] as int + if IsUpper(token[i]) then 'a' as int - 'A' as int else 0)
      && ParseName(name) == Some(name)
  {
    if ParseName(token).Some? {
      var name := ParseName(token).value;
      assert ParseName(name).Some? && ParseName(name).value == name;
    }
  }

  /** The pieces of a comma-separated list. */
  function Pieces(value: seq<Byte>): seq<seq<Byte>> {
    if value == [] then [[]]
    else
      var rest := Pieces(value[1..]);
      if value[0] == COMMA then [[]] + rest
      else if rest == [] then [[value[0]]]
      else [[value[0]] + rest[0]] + rest[1..]
  }

  function JoinCommas(pieces: seq<seq<Byte>>): seq<Byte>
    requires pieces != []
  {
    if |pieces| == 1 then pieces[0] else pieces[0] + [COMMA] + JoinCommas(pieces[1..])
  }

  lemma {:induction false} PiecesJoin(value: seq<Byte>)
    ensures Pieces(value) != [] && JoinCommas(Pieces(value)) == value
  {
    if value != [] {
      var pieces, rest := Pieces(value), Pieces(value[1..]);
      PiecesJoin(value[1..]);
      assert value == [value[0]] + value[1..];
      if value[0] == COMMA {
        assert pieces[1..] == rest;
      } else {
        assert pieces[1..] == rest[1..];
        assert JoinCommas(pieces) == [value[0]] + JoinCommas(rest);
      }
    }
  }

  /** Splitting loses nothing and leaves no comma inside a piece. */
  lemma {:induction false} PiecesAreExact(value: seq<Byte>)
    ensures Pieces(value) != [] && JoinCommas(Pieces(value)) == value
    ensures forall i :: 0 <= i < |Pieces(value)| ==> COMMA !in Pieces(value)[i]
  {
    PiecesJoin(value);
    if value != [] {
      PiecesAreExact(value[1..]);
    }
  }

  /** A field name that a Connection value declares to be hop-by-hop. */
  predicate Declares(value: Value, name: Name) {
    IsText(value) && exists piece :: piece in Pieces(value) && ParseName(Trim(piece)) == Some(name)
  }

  function ValuesOf(headers: seq<Entry>, name: Name): seq<Value> {
    if headers == [] then []
    else if headers[0].name == name then headers[0].values
    else ValuesOf(headers[1..], name)
  }

  ghost predicate HopByHop(headers: seq<Entry>, name: Name) {
    || name in ALWAYS_HOP_BY_HOP
    || exists value :: value in ValuesOf(headers, CONNECTION) && Declares(value, name)
  }

  method HopByHopNames(headers: seq<Entry>) returns (names: set<Name>)
    ensures forall name :: name in names <==> HopByHop(headers, name)
  {
    names := ALWAYS_HOP_BY_HOP;
    var values := ValuesOf(headers, CONNECTION);
    for i := 0 to |values|
      invariant forall name :: name in names <==>
        name in ALWAYS_HOP_BY_HOP || exists k :: 0 <= k < i && Declares(values[k], name)
    {
      if IsText(values[i]) {
        var declared := DeclaredNames(Pieces(values[i]));
        names := names + declared;
      }
    }
  }

  method DeclaredNames(pieces: seq<seq<Byte>>) returns (names: set<Name>)
    ensures forall name :: name in names <==> exists piece :: piece in pieces && ParseName(Trim(piece)) == Some(name)
  {
    names := {};
    for i := 0 to |pieces|
      invariant forall name :: name in names <==>
        exists k :: 0 <= k < i && ParseName(Trim(pieces[k])) == Some(name)
    {
      var name := ParseName(Trim(pieces[i]));
      if name.Some? {
        names := names + {name.value};
      }
    }
  }

  // ------------------------------------------------------------------
  // Normal form and preimage
  // ------------------------------------------------------------------

  /** Everything the key is to depend on, and nothing else. */
  datatype Normal = Normal(
    generation: nat,
    method_: Name,
    scheme: seq<Byte>,
    tls: bool,
    authority: seq<Byte>,
    path: seq<Byte>,
    fingerprint: seq<Byte>,
    backend: seq<Byte>,
    fields: map<Name, seq<Value>>)

  predicate FitsNormal(n: Normal) {
    && n.generation < U64
    && Short([n.method_, n.scheme, n.authority, n.path, n.fingerprint, n.backend])
    && (forall name :: name in n.fields ==> FitsEntry(Entry(name, n.fields[name])))
  }

  function NamesOf(headers: seq<Entry>): set<Name> {
    set e | e in headers :: e.name
  }

  /** The end-to-end fields, each with its values in order. */
  ghost function Fields(headers: seq<Entry>): map<Name, seq<Value>> {
    map name | name in NamesOf(headers) && !HopByHop(headers, name) :: ValuesOf(headers, name)
  }

  ghost function NormalForm(r: Request, fingerprint: seq<Byte>, backend: seq<Byte>, token: nat): Normal {
    Normal(
      CacheRuntime.GenerationOf(token), r.method_, OrElse(r.scheme, []), r.tls, OrElse(r.authority, []),
      OrElse(r.path, Text("/")), fingerprint, backend, Fields(r.headers))
  }

  const TAG := Text("hangang-cache-key-v2")

  function Flag(b: bool): seq<Byte> {
    [if b then 1 else 0]
  }

  function Head(n: Normal): seq<seq<Byte>> {
    [TAG, Number(n.generation), n.method_, n.scheme, Flag(n.tls), n.authority, n.path, n.fingerprint, n.backend]
  }

  function Group(name: Name, values: seq<Value>): seq<seq<Byte>> {
    [name, Number(|values|)] + values
  }

  function Groups(names: seq<Name>, fields: map<Name, seq<Value>>): seq<seq<Byte>>
    requires forall name :: name in names ==> name in fields
  {
    if names == [] then [] else Group(names[0], fields[names[0]]) + Groups(names[1..], fields)
  }

  ghost function SortedSet(names: set<Name>): (sorted: seq<Name>)
    ensures Ascending(sorted) && forall name :: name in sorted <==> name in names
  {
    if names == {} then []
    else
      var name :| name in names;
      var rest := SortedSet(names - {name});
      InsertKeeps(name, rest);
      Insert(name, rest)
  }

  ghost function Preimage(n: Normal): seq<Byte> {
    Stream(Head(n) + Groups(SortedSet(n.fields.Keys), n.fields))
  }

  // ------------------------------------------------------------------
  // The preimage determines the normal form
  // ------------------------------------------------------------------

  lemma GroupInjective(
    name: Name, values: seq<Value>, x: seq<seq<Byte>>, name': Name, values': seq<Value>, x': seq<seq<Byte>>)
    requires |values| < U64 && |values'| < U64
    requires Group(name, values) + x == Group(name', values') + x'
    ensures name == name' && values == values' && x == x'
  {
    var a, b := Group(name, values) + x, Group(name', values') + x';
    assert a[0] == name && b[0] == name' && a[1] == Number(|values|) && b[1] == Number(|values'|);
    NumberInjective(|values|, |values'|);
    assert a[2..2 + |values|] == values && b[2..2 + |values|] == values';
    assert a[2 + |values|..] == x && b[2 + |values|..] == x';
  }

  lemma {:induction false} GroupsInjective(
    names: seq<Name>, fields: map<Name, seq<Value>>, names': seq<Name>, fields': map<Name, seq<Value>>)
    requires forall name :: name in names ==> name in fields && |fields[name]| < U64
    requires forall name :: name in names' ==> name in fields' && |fields'[name]| < U64
    requires Groups(names, fields) == Groups(names', fields')
    ensures names == names'
    ensures forall name :: name in names ==> fields[name] == fields'[name]
  {
    if names == [] || names' == [] {
      assert |Groups(names, fields)| == |Groups(names', fields')|;
    } else {
      GroupInjective(
        names[0], fields[names[0]], Groups(names[1..], fields),
        names'[0], fields'[names'[0]], Groups(names'[1..], fields'));
      GroupsInjective(names[1..], fields, names'[1..], fields');
      assert names == [names[0]] + names[1..] && names' == [names'[0]] + names'[1..];
    }
  }

  lemma {:induction false} GroupsShort(names: seq<Name>, fields: map<Name, seq<Value>>)
    requires forall name :: name in names ==> name in fields && FitsEntry(Entry(name, fields[name]))
    ensures Short(Groups(names, fields))
  {
    if names != [] {
      GroupsShort(names[1..], fields);
      assert FitsEntry(Entry(names[0], fields[names[0]]));
    }
  }

  lemma HeadInjective(n: Normal, n': Normal)
    requires FitsNormal(n) && FitsNormal(n') && Head(n) == Head(n')
    ensures n == n'.(fields := n.fields)
  {
    var a, b := Head(n), Head(n');
    assert a[1] == b[1] && a[2] == b[2] && a[3] == b[3] && a[4] == b[4] && a[5] == b[5] && a[6] == b[6]
           && a[7] == b[7] && a[8] == b[8];
    assert Number(n.generation) == Number(n'.generation);
    NumberInjective(n.generation, n'.generation);
    assert Flag(n.tls)[0] == Flag(n'.tls)[0];
  }

  lemma HeadShort(n: Normal)
    requires FitsNormal(n)
    ensures Short(Head(n))
  {
    var parts := [n.method_, n.scheme, n.authority, n.path, n.fingerprint, n.backend];
    assert |parts[0]| < U64 && |parts[1]| < U64 && |parts[2]| < U64 && |parts[3]| < U64 && |parts[4]| < U64
           && |parts[5]| < U64;
  }

  /** Two keys are computed from the same bytes exactly when the normal forms agree in every part. */
  lemma PreimageIsCanonical(n: Normal, n': Normal)
    requires FitsNormal(n) && FitsNormal(n')
    ensures Preimage(n) == Preimage(n') <==> n == n'
  {
    if Preimage(n) == Preimage(n') {
      var names, names' := SortedSet(n.fields.Keys), SortedSet(n'.fields.Keys);
      var a, b := Head(n) + Groups(names, n.fields), Head(n') + Groups(names', n'.fields);
      HeadShort(n);
      HeadShort(n');
      GroupsShort(names, n.fields);
      GroupsShort(names', n'.fields);
      StreamInjective(a, b);
      assert a[..9] == Head(n) && b[..9] == Head(n');
      assert a[9..] == Groups(names, n.fields) && b[9..] == Groups(names', n'.fields);
      HeadInjective(n, n');
      GroupsInjective(names, n.fields, names', n'.fields);
      SameFields(n.fields, n'.fields, names);
    }
  }

  lemma SameFields(fields: map<Name, seq<Value>>, fields': map<Name, seq<Value>>, names: seq<Name>)
    requires forall name :: name in names <==> name in fields
    requires forall name :: name in names <==> name in fields'
    requires forall name :: name in names ==> fields[name] == fields'[name]
    ensures fields == fields'
  {
  }

  // ------------------------------------------------------------------
  // Computing the key
  // ------------------------------------------------------------------

  /** Name, value and two bytes of framing for each of the values. */
  function ValueBytes(name: Name, values: seq<Value>): nat {
    if values == [] then 0
    else ValueBytes(name, values[..|values| - 1]) + |name| + |values[|values| - 1]| + 2
  }

  function HeaderBytes(headers: seq<Entry>): nat {
    if headers == [] then 0
    else
      var last := headers[|headers| - 1];
      HeaderBytes(headers[..|headers| - 1]) + ValueBytes(last.name, last.values)
  }

  function Concat(values: seq<Value>): seq<Byte> {
    if values == [] then [] else Concat(values[..|values| - 1]) + values[|values| - 1]
  }

  /** Each value counts with its bytes, its name's and two more. */
  lemma {:induction false} ValueBytesExact(name: Name, values: seq<Value>)
    ensures ValueBytes(name, values) == |Concat(values)| + |values| * (|name| + 2)
  {
    if values != [] {
      var n, step := |values| - 1, |name| + 2;
      ValueBytesExact(name, values[..n]);
      assert (n + 1) * step == n * step + step;
    }
  }

  lemma {:induction false} PrefixBytes(name: Name, values: seq<Value>, k: nat)
    requires k <= |values|
    ensures ValueBytes(name, values[..k]) <= ValueBytes(name, values)
  {
    if k == |values| {
      assert values[..k] == values;
    } else {
      PrefixBytes(name, values[..|values| - 1], k);
      assert values[..|values| - 1][..k] == values[..k];
    }
  }

  lemma {:induction false} PrefixHeaders(headers: seq<Entry>, k: nat)
    requires k <= |headers|
    ensures HeaderBytes(headers[..k]) <= HeaderBytes(headers)
  {
    if k == |headers| {
      assert headers[..k] == headers;
    } else {
      PrefixHeaders(headers[..|headers| - 1], k);
      assert headers[..|headers| - 1][..k] == headers[..k];
    }
  }

  /** The running total after one more entry, or nothing once it passes the limit. */
  method AddEntry(total: nat, e: Entry) returns (sum: Option<nat>)
    ensures var all := total + ValueBytes(e.name, e.values);
            all <= MAX_KEY_HEADER_BYTES ==> sum == Some(all)
    ensures total <= MAX_KEY_HEADER_BYTES && total + ValueBytes(e.name, e.values) > MAX_KEY_HEADER_BYTES ==> sum == None
  {
    var bytes := total;
    for i := 0 to |e.values|
      invariant bytes == total + ValueBytes(e.name, e.values[..i])
      invariant bytes <= MAX_KEY_HEADER_BYTES || i == 0
    {
      assert e.values[..i + 1][..i] == e.values[..i];
      bytes := bytes + |e.name| + |e.values[i]| + 2;
      if bytes > MAX_KEY_HEADER_BYTES {
        PrefixBytes(e.name, e.values, i + 1);
        return None;
      }
    }
    assert e.values[..|e.values|] == e.values;
    return Some(bytes);
  }

  method WithinLimit(headers: seq<Entry>) returns (within: bool)
    ensures within <==> HeaderBytes(headers) <= 65536
  {
    var total := 0;
    for i := 0 to |headers|
      invariant total == HeaderBytes(headers[..i]) <= MAX_KEY_HEADER_BYTES
    {
      assert headers[..i + 1][..i] == headers[..i];
      var sum := AddEntry(total, headers[i]);
      if sum.None? {
        PrefixHeaders(headers, i + 1);
        return false;
      }
      total := sum.value;
    }
    assert headers[..|headers|] == headers;
    return true;
  }

  method KeptNames(headers: seq<Entry>, excluded: set<Name>) returns (names: seq<Name>)
    ensures Distinct(names)
    ensures forall name :: name in names <==> name in NamesOf(headers) && name !in excluded
  {
    names := [];
    for i := 0 to |headers|
      invariant Distinct(names)
      invariant forall name :: name in names <==> name in NamesOf(headers[..i]) && name !in excluded
    {
      var name := headers[i].name;
      assert headers[..i + 1] == headers[..i] + [headers[i]];
      if name !in excluded && name !in names {
        names := names + [name];
      }
    }
    assert headers[..|headers|] == headers;
  }

  lemma {:induction false} GroupsAppend(names: seq<Name>, name: Name, fields: map<Name, seq<Value>>)
    requires name in fields && forall n :: n in names ==> n in fields
    ensures Groups(names + [name], fields) == Groups(names, fields) + Group(name, fields[name])
  {
    if names == [] {
      assert [name][1..] == [] && names + [name] == [name];
    } else {
      assert (names + [name])[1..] == names[1..] + [name];
      GroupsAppend(names[1..], name, fields);
    }
  }

  lemma FedOneMore(start: seq<Byte>, names: seq<Name>, i: nat, fields: map<Name, seq<Value>>)
    requires i < |names| && forall name :: name in names ==> name in fields
    ensures start + Stream(Groups(names[..i + 1], fields)) ==
            start + Stream(Groups(names[..i], fields)) + Stream(Group(names[i], fields[names[i]]))
  {
    assert names[..i + 1] == names[..i] + [names[i]];
    GroupsAppend(names[..i], names[i], fields);
    StreamConcat(Groups(names[..i], fields), Group(names[i], fields[names[i]]));
  }

  method FeedFields(hash: Hasher, headers: seq<Entry>, names: seq<Name>, ghost fields: map<Name, seq<Value>>)
    requires forall name :: name in names ==> name in fields && fields[name] == ValuesOf(headers, name)
    modifies hash
    ensures hash.input == old(hash.input) + Stream(Groups(names, fields))
  {
    ghost var start := hash.input;
    for i := 0 to |names|
      invariant hash.input == start + Stream(Groups(names[..i], fields))
    {
      var values := ValuesOf(headers, names[i]);
      FedOneMore(start, names, i, fields);
      hash.FeedAll(Group(names[i], values));
    }
    assert names[..|names|] == names;
  }

  /**
   * The key is the digest of the normal form's preimage, whatever the order of
   * the header map; requests that are not GET, or whose headers are too large,
   * have none.
   */
  method Key(
    r: Request, fingerprint: seq<Byte>, backend: seq<Byte>, token: nat, digest: seq<Byte> -> seq<Byte>)
    returns (key: Option<seq<Byte>>)
    ensures key ==
            if r.method_ == Text("GET") && HeaderBytes(r.headers) <= 65536
            then Some(digest(Preimage(NormalForm(r, fingerprint, backend, token))))
            else None
  {
    if r.method_ != Text("GET") {
      return None;
    }
    var within := WithinLimit(r.headers);
    if !within {
      return None;
    }
    var excluded := HopByHopNames(r.headers);
    var kept := KeptNames(r.headers, excluded);
    var names := Sort(kept);
    ghost var n := NormalForm(r, fingerprint, backend, token);
    SortSorts(kept);
    AscendingIsUnique(names, SortedSet(n.fields.Keys));
    var hash := new Hasher();
    hash.FeedAll([
      TAG, Number(CacheRuntime.GenerationOf(token)), r.method_, OrElse(r.scheme, []), Flag(r.tls),
      OrElse(r.authority, []), OrElse(r.path, Text("/")), fingerprint, backend]);
    assert hash.input == Stream(Head(n));
    FeedFields(hash, r.headers, names, n.fields);
    StreamConcat(Head(n), Groups(names, n.fields));
    return Some(digest(hash.input));
  }

  /**
   * With a hash that does not collide, two keyed requests share a key exactly
   * when their normal forms are equal.
   */
  lemma KeysSeparate(n: Normal, n': Normal, digest: seq<Byte> -> seq<Byte>)
    requires FitsNormal(n) && FitsNormal(n')
    requires forall x, y :: digest(x) == digest(y) ==> x == y
    ensures digest(Preimage(n)) == digest(Preimage(n')) <==> n == n'
  {
    PreimageIsCanonical(n, n');
  }

  lemma {:induction false} ValuesFit(headers: seq<Entry>, name: Name)
    requires forall e :: e in headers ==> FitsEntry(e)
    requires name in NamesOf(headers)
    ensures FitsEntry(Entry(name, ValuesOf(headers, name)))
  {
    if headers[0].name != name {
      assert headers == [headers[0]] + headers[1..];
      ValuesFit(headers[1..], name);
    } else {
      assert headers[0] in headers && Entry(name, ValuesOf(headers, name)) == headers[0];
    }
  }

  /** Every request a connection can deliver has a normal form whose lengths fit their frames. */
  lemma NormalFormFits(r: Request, fingerprint: seq<Byte>, backend: seq<Byte>, token: nat)
    requires IsRequest(r) && |fingerprint| < U64 && |backend| < U64 && token < U64
    ensures FitsNormal(NormalForm(r, fingerprint, backend, token))
  {
    var n := NormalForm(r, fingerprint, backend, token);
    forall name | name in n.fields
      ensures FitsEntry(Entry(name, n.fields[name]))
    {
      ValuesFit(r.headers, name);
    }
    assert |Text("/")| == 1;
  }

  // ------------------------------------------------------------------
  // What two requests must agree on
  // ------------------------------------------------------------------

  /** The values a header map gives a name are those of its entry. */
  lemma {:induction false} ValuesAreTheEntrys(headers: seq<Entry>, i: nat)
    requires i < |headers| && forall k, j :: 0 <= k < j < |headers| ==> headers[k].name != headers[j].name
    ensures ValuesOf(headers, headers[i].name) == headers[i].values
  {
    if i > 0 {
      var rest := headers[1..];
      assert forall k, j :: 0 <= k < j < |rest| ==> rest[k].name != rest[j].name;
      ValuesAreTheEntrys(rest, i - 1);
    }
  }

  /** The names that never travel beyond one connection. */
  predicate IsConnectionName(name: Name) {
    || name == Text("connection") || name == Text("keep-alive") || name == Text("proxy-connection")
    || name == Text("proxy-authenticate") || name == Text("proxy-authorization") || name == Text("te")
    || name == Text("trailer") || name == Text("transfer-encoding") || name == Text("upgrade")
  }

  /** The field is there, does not belong to the connection by its name, and is not declared to. */
  ghost predicate EndToEnd(headers: seq<Entry>, name: Name) {
    && name in NamesOf(headers) && !IsConnectionName(name)
    && forall value :: value in ValuesOf(headers, Text("connection")) ==> !Declares(value, name)
  }

  ghost predicate SameEndToEnd(headers: seq<Entry>, headers': seq<Entry>) {
    forall name ::
      && (EndToEnd(headers, name) <==> EndToEnd(headers', name))
      && (EndToEnd(headers, name) ==> ValuesOf(headers, name) == ValuesOf(headers', name))
  }

  lemma FieldsAreEndToEnd(headers: seq<Entry>, name: Name)
    ensures name in Fields(headers) <==> EndToEnd(headers, name)
    ensures name in Fields(headers) ==> Fields(headers)[name] == ValuesOf(headers, name)
  {
  }

  lemma FieldsAgree(headers: seq<Entry>, headers': seq<Entry>)
    ensures Fields(headers) == Fields(headers') <==> SameEndToEnd(headers, headers')
  {
    forall name
      ensures name in Fields(headers) <==> EndToEnd(headers, name)
      ensures name in Fields(headers') <==> EndToEnd(headers', name)
    {
      FieldsAreEndToEnd(headers, name);
      FieldsAreEndToEnd(headers', name);
    }
    if SameEndToEnd(headers, headers') {
      assert Fields(headers).Keys == Fields(headers').Keys;
      assert Fields(headers) == Fields(headers');
    }
  }

  /** A target without a path asks for the root. */
  function PathOf(r: Request): seq<Byte> {
    if r.path.Some? then r.path.value else [47]
  }

  /**
   * With a hash that does not collide, two requests share a key exactly when they agree in the
   * generation half of the token, method, scheme, transport, authority, path, route and backend,
   * and in every end-to-end field with its values in order.
   */
  lemma KeysAgreeExactly(
    r: Request, fingerprint: seq<Byte>, backend: seq<Byte>, token: nat,
    r': Request, fingerprint': seq<Byte>, backend': seq<Byte>, token': nat, digest: seq<Byte> -> seq<Byte>)
    requires IsRequest(r) && |fingerprint| < U64 && |backend| < U64 && token < U64
    requires IsRequest(r') && |fingerprint'| < U64 && |backend'| < U64 && token' < U64
    requires forall x, y :: digest(x) == digest(y) ==> x == y
    ensures digest(Preimage(NormalForm(r, fingerprint, backend, token)))
            == digest(Preimage(NormalForm(r', fingerprint', backend', token'))) <==>
      && token / 0x1_0000_0000 == token' / 0x1_0000_0000
      && r.method_ == r'.method_ && OrElse(r.scheme, []) == OrElse(r'.scheme, []) && r.tls == r'.tls
      && OrElse(r.authority, []) == OrElse(r'.authority, []) && PathOf(r) == PathOf(r')
      && fingerprint == fingerprint' && backend == backend'
      && SameEndToEnd(r.headers, r'.headers)
  {
    var n, n' := NormalForm(r, fingerprint, backend, token), NormalForm(r', fingerprint', backend', token');
    NormalFormFits(r, fingerprint, backend, token);
    NormalFormFits(r', fingerprint', backend', token');
    KeysSeparate(n, n', digest);
    FieldsAgree(r.headers, r'.headers);
    assert Text("/") == [47];
  }
}
