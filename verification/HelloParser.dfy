/** The loops that walk a ClientHello body and its server-name extension. */
module HelloParser {
  import opened Wrappers
  import opened Hostname
  import opened HelloBody

  predicate AnyAscii(text: seq<Byte>) {
    forall i :: 0 <= i < |text| ==> text[i] < 128
  }

  // ------------------------------------------------------------------
  // Names
  // ------------------------------------------------------------------

  ghost predicate NamesSeen(names: seq<Name>, seen: set<Byte>) {
    && DistinctNames(names)
    && forall kind :: kind in seen <==> exists i :: 0 <= i < |names| && names[i].kind == kind
  }

  /** The host found so far is the acceptable one among the names read so far. */
  ghost predicate NameFound(names: seq<Name>, host: Option<seq<Byte>>, isAddress: seq<Byte> -> bool) {
    match FindName(names)
    case None => host == None
    case Some(text) => Acceptable(text, isAddress) && host == Some(Lower(text))
  }

  lemma {:induction false} FindNameAppend(a: seq<Name>, b: seq<Name>)
    ensures FindName(a + b) == if FindName(a).Some? then FindName(a) else FindName(b)
  {
    if a == [] {
      assert a + b == b;
    } else {
      assert (a + b)[1..] == a[1..] + b;
      FindNameAppend(a[1..], b);
    }
  }

  lemma NamesStep(names: seq<Name>, name: Name, seen: set<Byte>)
    requires NamesSeen(names, seen) && name.kind !in seen
    ensures NamesSeen(names + [name], seen + {name.kind})
  {
    var longer := names + [name];
    forall kind
      ensures kind in seen + {name.kind} <==> exists i :: 0 <= i < |longer| && longer[i].kind == kind
    {
      if kind == name.kind {
        assert longer[|names|].kind == kind;
      } else if kind in seen {
        var i :| 0 <= i < |names| && names[i].kind == kind;
        assert longer[i].kind == kind;
      }
    }
  }

  /** A repeated type cannot be repaired by what follows. */
  lemma RepeatedName(names: seq<Name>, name: Name, seen: set<Byte>, rest: seq<Byte>, isAddress: seq<Byte> -> bool)
    requires NamesSeen(names, seen) && name.kind in seen
    ensures NamesFrom(names + [name], rest, isAddress) == None
  {
    var i :| 0 <= i < |names| && names[i].kind == name.kind;
    if ParseNames(rest).Some? {
      var all := names + [name] + ParseNames(rest).value;
      assert all[i].kind == all[|names|].kind;
    }
  }

  /** Nor can a host name that is not acceptable. */
  lemma RejectedName(names: seq<Name>, name: Name, rest: seq<Byte>, isAddress: seq<Byte> -> bool)
    requires FindName(names).None? && name.kind == 0 && !Acceptable(name.text, isAddress)
    ensures NamesFrom(names + [name], rest, isAddress) == None
  {
    if ParseNames(rest).Some? {
      FindNameAppend(names, [name]);
      FindNameAppend(names + [name], ParseNames(rest).value);
    }
  }

  /** Reading one name moves it from what is to come to what has been read. */
  lemma ReadName(names: seq<Name>, rest: seq<Byte>, isAddress: seq<Byte> -> bool)
    requires rest != []
    ensures var first := SplitName(rest);
            NamesFrom(names, rest, isAddress) ==
              if first.None? then None else NamesFrom(names + [first.value.0], first.value.1, isAddress)
  {
    var first := SplitName(rest);
    if first.Some? && ParseNames(first.value.1).Some? {
      var more := ParseNames(first.value.1).value;
      assert names + ([first.value.0] + more) == names + [first.value.0] + more;
    }
  }

  lemma AcceptableIsAscii(text: seq<Byte>, isAddress: seq<Byte> -> bool)
    requires Acceptable(text, isAddress)
    ensures AnyAscii(text)
  {
    HostnameBySplitting(text);
    SplitJoins(text);
    EndsInLabel(Split(text));
  }

  lemma NoHostYet(names: seq<Name>, seen: set<Byte>)
    requires NamesSeen(names, seen) && 0 !in seen
    ensures FindName(names) == None
  {
    if FindName(names).Some? {
      FindNameExact(names, FindName(names).value);
      assert false;
    }
  }

  method ParseName(cursor: Cursor, seen: set<Byte>) returns (name: Option<Name>)
    requires cursor.Valid() && cursor.Rest() != []
    modifies cursor
    ensures cursor.Valid()
    ensures name.None? ==>
              old(cursor.Rest())[0] in seen || SplitName(old(cursor.Rest())).None?
    ensures name.Some? ==>
              name.value.kind !in seen && SplitName(old(cursor.Rest())) == Some((name.value, cursor.Rest()))
  {
    var kind := cursor.TakeU8();
    if kind.value in seen {
      return None;
    }
    var text := cursor.TakeVec16();
    if text.None? || text.value == [] {
      return None;
    }
    return Some(Name(kind.value, text.value));
  }

  method ParseNameList(list: seq<Byte>, isAddress: seq<Byte> -> bool) returns (server: Option<seq<Byte>>)
    ensures server == NamesFrom([], list, isAddress)
  {
    var cursor := new Cursor(list);
    var seen: set<Byte>, host := {}, None;
    ghost var names: seq<Name> := [];
    while cursor.Remaining() > 0
      invariant cursor.Valid()
      invariant NamesSeen(names, seen) && NameFound(names, host, isAddress)
      invariant NamesFrom([], list, isAddress) == NamesFrom(names, cursor.Rest(), isAddress)
      decreases cursor.Remaining()
    {
      ghost var rest := cursor.Rest();
      ReadName(names, rest, isAddress);
      var name := ParseName(cursor, seen);
      if name.None? {
        if SplitName(rest).Some? {
          var first := SplitName(rest).value;
          RepeatedName(names, first.0, seen, first.1, isAddress);
        }
        return None;
      }
      if name.value.kind == 0 {
        NoHostYet(names, seen);
        host := CheckHost(name.value.text, isAddress);
        if host.None? {
          RejectedName(names, name.value, cursor.Rest(), isAddress);
          return None;
        }
      }
      NamesStep(names, name.value, seen);
      FindNameAppend(names, [name.value]);
      names := names + [name.value];
      seen := seen + {name.value.kind};
    }
    assert names + [] == names;
    return host;
  }

  /** The single host name of a server-name extension, or nothing if any part of it is malformed. */
  method ParseServerName(value: seq<Byte>, isAddress: seq<Byte> -> bool) returns (server: Option<seq<Byte>>)
    ensures server == ServerName(value, isAddress)
  {
    var extension := new Cursor(value);
    var list := extension.TakeVec16();
    if list.None? || extension.Remaining() != 0 || list.value == [] {
      return None;
    }
    server := ParseNameList(list.value, isAddress);
  }

  method CheckHost(text: seq<Byte>, isAddress: seq<Byte> -> bool) returns (host: Option<seq<Byte>>)
    ensures host == if Acceptable(text, isAddress) then Some(Lower(text)) else None
  {
    if !AnyAscii(text) {
      if Acceptable(text, isAddress) {
        AcceptableIsAscii(text, isAddress);
      }
      return None;
    }
    host := CanonicalHostname(text, isAddress);
  }

  // ------------------------------------------------------------------
  // Extensions
  // ------------------------------------------------------------------

  ghost predicate ExtensionsSeen(xs: seq<Extension>, seen: set<nat>) {
    && DistinctExtensions(xs)
    && forall kind :: kind in seen <==> exists i :: 0 <= i < |xs| && xs[i].kind == kind
  }

  ghost predicate ServerFound(xs: seq<Extension>, server: Option<seq<Byte>>, isAddress: seq<Byte> -> bool) {
    match FindExtension(xs)
    case None => server == None
    case Some(body) => server.Some? && server == ServerName(body, isAddress)
  }

  lemma {:induction false} FindExtensionAppend(a: seq<Extension>, b: seq<Extension>)
    ensures FindExtension(a + b) == if FindExtension(a).Some? then FindExtension(a) else FindExtension(b)
  {
    if a == [] {
      assert a + b == b;
    } else {
      assert (a + b)[1..] == a[1..] + b;
      FindExtensionAppend(a[1..], b);
    }
  }

  lemma ExtensionsStep(xs: seq<Extension>, x: Extension, seen: set<nat>)
    requires ExtensionsSeen(xs, seen) && x.kind !in seen
    ensures ExtensionsSeen(xs + [x], seen + {x.kind})
  {
    var longer := xs + [x];
    forall kind
      ensures kind in seen + {x.kind} <==> exists i :: 0 <= i < |longer| && longer[i].kind == kind
    {
      if kind == x.kind {
        assert longer[|xs|].kind == kind;
      } else if kind in seen {
        var i :| 0 <= i < |xs| && xs[i].kind == kind;
        assert longer[i].kind == kind;
      }
    }
  }

  lemma RepeatedExtension(
    xs: seq<Extension>, x: Extension, seen: set<nat>, rest: seq<Byte>, isAddress: seq<Byte> -> bool)
    requires ExtensionsSeen(xs, seen) && x.kind in seen
    ensures ExtensionsFrom(xs + [x], rest, isAddress) == None
  {
    var i :| 0 <= i < |xs| && xs[i].kind == x.kind;
    if ParseExtensions(rest).Some? {
      var all := xs + [x] + ParseExtensions(rest).value;
      assert all[i].kind == all[|xs|].kind;
    }
  }

  lemma RejectedServer(xs: seq<Extension>, x: Extension, rest: seq<Byte>, isAddress: seq<Byte> -> bool)
    requires FindExtension(xs).None? && x.kind == 0 && ServerName(x.body, isAddress).None?
    ensures ExtensionsFrom(xs + [x], rest, isAddress) == None
  {
    if ParseExtensions(rest).Some? {
      FindExtensionAppend(xs, [x]);
      FindExtensionAppend(xs + [x], ParseExtensions(rest).value);
    }
  }

  lemma ReadExtension(xs: seq<Extension>, rest: seq<Byte>, isAddress: seq<Byte> -> bool)
    requires rest != []
    ensures var first := SplitExtension(rest);
            ExtensionsFrom(xs, rest, isAddress) ==
              if first.None? then None else ExtensionsFrom(xs + [first.value.0], first.value.1, isAddress)
  {
    var first := SplitExtension(rest);
    if first.Some? && ParseExtensions(first.value.1).Some? {
      var more := ParseExtensions(first.value.1).value;
      assert xs + ([first.value.0] + more) == xs + [first.value.0] + more;
    }
  }

  lemma NoServerYet(xs: seq<Extension>, seen: set<nat>)
    requires ExtensionsSeen(xs, seen) && 0 !in seen
    ensures FindExtension(xs) == None
  {
    if FindExtension(xs).Some? {
      FindExtensionExact(xs, FindExtension(xs).value);
      assert false;
    }
  }

  method ParseExtension(cursor: Cursor, seen: set<nat>) returns (x: Option<Extension>)
    requires cursor.Valid() && cursor.Rest() != []
    modifies cursor
    ensures cursor.Valid()
    ensures x.None? ==>
              SplitExtension(old(cursor.Rest())).None? || SplitExtension(old(cursor.Rest())).value.0.kind in seen
    ensures x.Some? ==>
              x.value.kind !in seen && SplitExtension(old(cursor.Rest())) == Some((x.value, cursor.Rest()))
  {
    var kind := cursor.TakeU16();
    if kind.None? || kind.value in seen {
      return None;
    }
    var body := cursor.TakeVec16();
    if body.None? {
      return None;
    }
    return Some(Extension(kind.value, body.value));
  }

  method ParseExtensionList(bytes: seq<Byte>, isAddress: seq<Byte> -> bool) returns (server: Option<seq<Byte>>)
    ensures server == ExtensionsFrom([], bytes, isAddress)
  {
    var cursor := new Cursor(bytes);
    var seen: set<nat> := {};
    server := None;
    ghost var xs: seq<Extension> := [];
    while cursor.Remaining() > 0
      invariant cursor.Valid()
      invariant ExtensionsSeen(xs, seen) && ServerFound(xs, server, isAddress)
      invariant ExtensionsFrom([], bytes, isAddress) == ExtensionsFrom(xs, cursor.Rest(), isAddress)
      decreases cursor.Remaining()
    {
      ghost var rest := cursor.Rest();
      ReadExtension(xs, rest, isAddress);
      var x := ParseExtension(cursor, seen);
      if x.None? {
        if SplitExtension(rest).Some? {
          var first := SplitExtension(rest).value;
          RepeatedExtension(xs, first.0, seen, first.1, isAddress);
        }
        return None;
      }
      if x.value.kind == 0 {
        NoServerYet(xs, seen);
        server := ParseServerName(x.value.body, isAddress);
        if server.None? {
          RejectedServer(xs, x.value, cursor.Rest(), isAddress);
          return None;
        }
      }
      ExtensionsStep(xs, x.value, seen);
      FindExtensionAppend(xs, [x.value]);
      xs := xs + [x.value];
      seen := seen + {x.value.kind};
    }
    assert xs + [] == xs;
  }

  /** Skips the version, the random and the session identifier. */
  method ParseHead(input: Cursor) returns (ok: bool)
    requires input.Valid()
    modifies input
    ensures input.Valid()
    ensures ok <==> SplitHead(old(input.Rest())).Some?
    ensures ok ==> input.Rest() == SplitHead(old(input.Rest())).value.1
  {
    ghost var body := input.Rest();
    var version := input.Take(2);
    if version.None? {
      return false;
    }
    var random := input.Take(32);
    if random.None? {
      return false;
    }
    assert input.Rest() == body[34..];
    var session := input.TakeVec8();
    return session.Some? && |session.value| <= 32;
  }

  /** Skips the cipher suites and the compression methods. */
  method ParseSuites(input: Cursor) returns (ok: bool)
    requires input.Valid()
    modifies input
    ensures input.Valid()
    ensures ok <==> SplitSuites(old(input.Rest())).Some?
    ensures ok ==> input.Rest() == SplitSuites(old(input.Rest())).value.1
  {
    var ciphers := input.TakeVec16();
    if ciphers.None? || |ciphers.value| < 2 || |ciphers.value| % 2 != 0 {
      return false;
    }
    var compressions := input.TakeVec8();
    return compressions.Some? && compressions.value != [];
  }

  /** The name a ClientHello body asks for; every malformed body is refused. */
  method ParseClientHello(body: seq<Byte>, isAddress: seq<Byte> -> bool) returns (server: Option<seq<Byte>>)
    ensures server == NameIn(body, isAddress)
  {
    var input := new Cursor(body);
    var ok := ParseHead(input);
    if !ok {
      return None;
    }
    ok := ParseSuites(input);
    if !ok {
      return None;
    }
    var extensions := input.TakeVec16();
    if extensions.None? || input.Remaining() != 0 {
      return None;
    }
    server := ParseExtensionList(extensions.value, isAddress);
  }
}
