/** Reading a ClientHello from a connection, byte by byte accounted for. */
module HelloReader {
  import opened Wrappers
  import opened Hostname
  import opened HelloBody
  import opened HelloParser
  import opened HelloRecords

  datatype ClientHello = ClientHello(serverName: seq<Byte>, consumed: seq<Byte>)

  /** The connection: everything the peer ever sends, and how far it has been read. */
  class Reader {
    const data: seq<Byte>
    var position: nat

    ghost predicate Valid()
      reads this
    {
      position <= |data|
    }

    ghost function Rest(): seq<Byte>
      requires Valid()
      reads this
    {
      data[position..]
    }

    constructor (bytes: seq<Byte>)
      ensures Valid() && Rest() == bytes
    {
      data, position := bytes, 0;
    }

    /** Reads all of `amount` bytes or reports the end of the stream. */
    method ReadExact(amount: nat) returns (bytes: Option<seq<Byte>>)
      requires Valid()
      modifies this
      ensures Valid()
      ensures bytes.Some? <==> amount <= |old(Rest())|
      ensures bytes.Some? ==> bytes.value == old(Rest())[..amount] && Rest() == old(Rest())[amount..]
    {
      if position + amount > |data| {
        position := |data|;
        return None;
      }
      bytes := Some(data[position..position + amount]);
      position := position + amount;
    }
  }

  /** Appends exactly `amount` bytes to `output` unless that would pass the limit or the stream ends. */
  method ReadBounded(reader: Reader, output: seq<Byte>, amount: nat, max: nat) returns (grown: Option<seq<Byte>>)
    requires reader.Valid()
    modifies reader
    ensures reader.Valid()
    ensures grown.Some? <==> |output| + amount <= max && amount <= |old(reader.Rest())|
    ensures grown.Some? ==>
              && grown.value == output + old(reader.Rest())[..amount]
              && reader.Rest() == old(reader.Rest())[amount..]
  {
    if |output| + amount > max {
      return None;
    }
    var bytes := reader.ReadExact(amount);
    return if bytes.None? then None else Some(output + bytes.value);
  }

  /** The stream does not go on with a record that fits into the limit. */
  ghost predicate Stuck(b: seq<Byte>, used: nat, max: nat) {
    SplitRecord(b).None? || used + 5 + |SplitRecord(b).value.0.payload| > max
  }

  /** Reads the record at the front of the stream, if it is one and fits into the limit. */
  method ReadRecord(reader: Reader, consumed: seq<Byte>, max: nat)
    returns (grown: seq<Byte>, payload: Option<seq<Byte>>, ghost r: Record)
    requires reader.Valid()
    modifies reader
    ensures reader.Valid()
    ensures payload.None? ==> Stuck(old(reader.Rest()), |consumed|, max)
    ensures payload.Some? ==>
              && IsRecord(r) && payload.value == r.payload
              && old(reader.Rest()) == RecordBytes(r) + reader.Rest()
              && grown == consumed + RecordBytes(r) && |grown| <= max
  {
    r := Record(0, []);
    ghost var b := reader.Rest();
    grown := consumed;
    var withHeader := ReadBounded(reader, consumed, 5, max);
    if withHeader.None? {
      return consumed, None, r;
    }
    var header := withHeader.value[|consumed|..];
    assert header == b[..5];
    if header[0] != 22 || header[1] != 3 || header[2] > 4 {
      return consumed, None, r;
    }
    var size := Size(header);
    if !(1 <= size <= MAX_RECORD_BYTES) {
      return consumed, None, r;
    }
    var withPayload := ReadBounded(reader, withHeader.value, size, max);
    if withPayload.None? {
      return consumed, None, r;
    }
    grown := withPayload.value;
    payload := Some(grown[|withHeader.value|..]);
    RecordJoins(b, consumed, size);
    r := SplitRecord(b).value.0;
  }

  lemma RecordJoins(b: seq<Byte>, consumed: seq<Byte>, size: nat)
    requires StartsRecord(b) && Size(b) == size
    ensures var first := SplitRecord(b).value;
            && IsRecord(first.0)
            && first.0.payload == b[5..][..size] && first.1 == b[5..][size..]
            && b == RecordBytes(first.0) + first.1
            && consumed + b[..5] + b[5..][..size] == consumed + RecordBytes(first.0)
  {
    var first := SplitRecord(b).value;
    RecordSound(b);
    assert b[5..][..size] == b[5..5 + size] && b[5..][size..] == b[5 + size..];
    assert b[..5 + size] == RecordBytes(first.0);
    assert b[..5] + b[5..5 + size] == b[..5 + size];
    Associative(consumed, b[..5], b[5..5 + size]);
  }

  /** The name found in a ClientHello body, as the parameter of the record layer. */
  ghost function Names(isAddress: seq<Byte> -> bool): Parser {
    body => NameIn(body, isAddress)
  }

  lemma {:induction false} AppendRecord(rs: seq<Record>, r: Record)
    requires AreRecords(rs) && IsRecord(r)
    ensures AreRecords(rs + [r])
    ensures Frames(rs + [r]) == Frames(rs) + RecordBytes(r)
    ensures Payloads(rs + [r]) == Payloads(rs) + r.payload
  {
    if rs == [] {
      assert rs + [r] == [r];
      OneRecord([], r);
    } else {
      assert (rs + [r])[1..] == rs[1..] + [r];
      AppendRecord(rs[1..], r);
      Associative(RecordBytes(rs[0]), Frames(rs[1..]), RecordBytes(r));
      Associative(rs[0].payload, Payloads(rs[1..]), r.payload);
    }
  }

  /** How far the message header is known. */
  function Expected(h: seq<Byte>): Option<nat> {
    if |h| >= 4 then Some(Total(h)) else None
  }

  // ------------------------------------------------------------------
  // Where the loop stands
  // ------------------------------------------------------------------

  /** These records have been read and nothing is decided yet. */
  ghost predicate Unfinished(rs: seq<Record>, handshake: seq<Byte>, budget: nat, max: nat) {
    && AreRecords(rs)
    && |Frames(rs)| <= budget
    && OpenBefore(rs, handshake)
    && !Complete(handshake + Payloads(rs))
    && !Refused(handshake + Payloads(rs), max)
  }

  lemma UnfinishedCons(r: Record, rs: seq<Record>, handshake: seq<Byte>, budget: nat, max: nat)
    requires !Complete(handshake) && Unfinished([r] + rs, handshake, budget, max)
    ensures 5 + |r.payload| <= budget
    ensures Unfinished(rs, handshake + r.payload, budget - 5 - |r.payload|, max)
    ensures !Complete(handshake + r.payload) && !Refused(handshake + r.payload, max)
  {
    AreRecordsCons(r, rs);
    ConsFrames(r, rs);
    ConsPayloads(handshake, r, rs);
    OpenBeforeCons(r, rs, handshake);
    var more := handshake + r.payload;
    if |more| >= 4 {
      HeaderDecides(more, Payloads(rs), max);
    }
    if rs == [] {
      assert more + Payloads(rs) == more;
    } else {
      assert !CompleteAfter(rs, more, 0);
      assert rs[..0] == [] && more + [] == more;
    }
  }

  lemma ReadOne(r: Record, tail: seq<Record>, handshake: seq<Byte>, budget: nat, max: nat, parse: Parser)
    requires 5 + |r.payload| <= budget
    requires !Complete(handshake + r.payload) && !Refused(handshake + r.payload, max)
    ensures ReadRecords([r] + tail, handshake, budget, max, parse) ==
            Then([r], ReadRecords(tail, handshake + r.payload, budget - 5 - |r.payload|, max, parse))
  {
    assert ([r] + tail)[1..] == tail;
  }

  /** Reading past undecided records leaves the decision to what follows. */
  lemma {:induction false} ReadPast(
    rs: seq<Record>, extra: seq<Record>, handshake: seq<Byte>, budget: nat, max: nat, parse: Parser)
    requires !Complete(handshake) && Unfinished(rs, handshake, budget, max)
    ensures ReadRecords(rs + extra, handshake, budget, max, parse) ==
            Then(rs, ReadRecords(extra, handshake + Payloads(rs), budget - |Frames(rs)|, max, parse))
  {
    if rs == [] {
      assert rs + extra == extra && handshake + [] == handshake;
      PastNothing(ReadRecords(extra, handshake, budget, max, parse));
    } else {
      var r, later := rs[0], rs[1..];
      assert rs == [r] + later && rs + extra == [r] + (later + extra);
      UnfinishedCons(r, later, handshake, budget, max);
      ConsPayloads(handshake, r, later);
      ReadPast(later, extra, handshake + r.payload, budget - 5 - |r.payload|, max, parse);
      var rest := ReadRecords(extra, handshake + Payloads(rs), budget - |Frames(rs)|, max, parse);
      ReadOne(r, later + extra, handshake, budget, max, parse);
      ThenThen([r], later, rest);
    }
  }

  lemma PastNothing(later: Option<Reading>)
    ensures Then([], later) == later
  {
    if later.Some? {
      assert [] + later.value.records == later.value.records;
    }
  }

  lemma ThenThen(rs: seq<Record>, rs': seq<Record>, later: Option<Reading>)
    ensures Then(rs, Then(rs', later)) == Then(rs + rs', later)
  {
    if later.Some? {
      assert rs + (rs' + later.value.records) == rs + rs' + later.value.records;
    }
  }

  lemma ReadOn(rs: seq<Record>, rest: seq<Byte>, max: nat, parse: Parser)
    requires |rs| <= MAX_HANDSHAKE_RECORDS && Unfinished(rs, [], max, max)
    ensures var extra := SplitRecords(rest, MAX_HANDSHAKE_RECORDS - |rs|);
            Read(Frames(rs) + rest, max, parse) ==
              Then(rs, ReadRecords(extra, [] + Payloads(rs), max - |Frames(rs)|, max, parse))
  {
    var extra := SplitRecords(rest, MAX_HANDSHAKE_RECORDS - |rs|);
    assert SplitRecords(Frames(rs) + rest, MAX_HANDSHAKE_RECORDS) == rs + extra by {
      FramesSplit(rs, rest, MAX_HANDSHAKE_RECORDS);
    }
    ReadPast(rs, extra, [], max, max, parse);
  }

  /** Without a further record that fits, nothing is found. */
  lemma NothingFound(rs: seq<Record>, rest: seq<Byte>, max: nat, parse: Parser)
    requires |rs| <= MAX_HANDSHAKE_RECORDS && Unfinished(rs, [], max, max)
    requires |rs| == MAX_HANDSHAKE_RECORDS || Stuck(rest, |Frames(rs)|, max)
    ensures Read(Frames(rs) + rest, max, parse) == None
  {
    ReadOn(rs, rest, max, parse);
  }

  lemma RefusedFirst(rs: seq<Record>, handshake: seq<Byte>, budget: nat, max: nat, parse: Parser)
    requires rs != [] && Refused(handshake + rs[0].payload, max)
    ensures ReadRecords(rs, handshake, budget, max, parse) == None
  {
  }

  lemma RefusedLater(rs: seq<Record>, r: Record, extra: seq<Record>, max: nat, parse: Parser)
    requires Unfinished(rs, [], max, max) && Refused(Payloads(rs) + r.payload, max)
    ensures ReadRecords(rs + [r] + extra, [], max, max, parse) == None
  {
    assert rs + [r] + extra == rs + ([r] + extra);
    assert [] + Payloads(rs) == Payloads(rs);
    ReadPast(rs, [r] + extra, [], max, max, parse);
    RefusedFirst([r] + extra, Payloads(rs), max - |Frames(rs)|, max, parse);
  }

  /** A header that is refused ends the reading as well. */
  lemma NothingAccepted(rs: seq<Record>, r: Record, rest: seq<Byte>, max: nat, parse: Parser)
    requires |rs| < MAX_HANDSHAKE_RECORDS && Unfinished(rs, [], max, max) && AreRecords(rs + [r])
    requires Refused(Payloads(rs) + r.payload, max)
    ensures Read(Frames(rs + [r]) + rest, max, parse) == None
  {
    FramesSplit(rs + [r], rest, MAX_HANDSHAKE_RECORDS);
    RefusedLater(rs, r, SplitRecords(rest, MAX_HANDSHAKE_RECORDS - |rs + [r]|), max, parse);
  }

  /** One more record either completes the message or leaves everything as undecided as before. */
  lemma OneMore(rs: seq<Record>, r: Record, max: nat)
    requires Unfinished(rs, [], max, max) && IsRecord(r) && |Frames(rs)| + |RecordBytes(r)| <= max
    ensures AreRecords(rs + [r]) && Frames(rs + [r]) == Frames(rs) + RecordBytes(r)
    ensures Payloads(rs + [r]) == Payloads(rs) + r.payload
    ensures !Refused(Payloads(rs + [r]), max) ==>
              if Complete(Payloads(rs + [r])) then Completes(rs + [r], [], max, max)
              else Unfinished(rs + [r], [], max, max)
  {
    var all := rs + [r];
    AppendRecord(rs, r);
    assert [] + Payloads(all) == Payloads(all) && [] + Payloads(rs) == Payloads(rs);
    forall k | 0 <= k < |all|
      ensures !CompleteAfter(all, [], k)
    {
      if k < |rs| {
        assert all[..k] == rs[..k];
        assert !CompleteAfter(rs, [], k);
      } else {
        assert all[..k] == rs;
      }
    }
  }

  /** Asks only for the body itself. */
  function Whole(): Parser {
    body => Some(body)
  }

  ghost predicate Standing(
    start: seq<Byte>, rest: seq<Byte>, rs: seq<Record>, consumed: seq<Byte>, handshake: seq<Byte>, max: nat) {
    && |rs| <= MAX_HANDSHAKE_RECORDS && Unfinished(rs, [], max, max)
    && consumed == Frames(rs) && handshake == Payloads(rs)
    && start == consumed + rest
  }

  lemma StandingStarts(start: seq<Byte>, max: nat)
    ensures Standing(start, start, [], [], [], max)
  {
    assert [] + start == start;
  }

  lemma StandingEnds(
    start: seq<Byte>, rest: seq<Byte>, rs: seq<Record>, consumed: seq<Byte>, handshake: seq<Byte>, max: nat)
    requires Standing(start, rest, rs, consumed, handshake, max)
    requires |rs| == MAX_HANDSHAKE_RECORDS || Stuck(rest, |consumed|, max)
    ensures Read(start, max, Whole()) == None
  {
    NothingFound(rs, rest, max, Whole());
  }

  /** One more record, whatever it leads to. */
  lemma StandingMoves(
    start: seq<Byte>, b: seq<Byte>, rs: seq<Record>, consumed: seq<Byte>, handshake: seq<Byte>, max: nat,
    r: Record, rest: seq<Byte>)
    requires Standing(start, b, rs, consumed, handshake, max) && |rs| < MAX_HANDSHAKE_RECORDS
    requires IsRecord(r) && b == RecordBytes(r) + rest && |consumed| + |RecordBytes(r)| <= max
    ensures var grown, more := consumed + RecordBytes(r), handshake + r.payload;
            && AreRecords(rs + [r]) && grown == Frames(rs + [r]) && start == grown + rest
            && (if Refused(more, max) then Read(start, max, Whole()) == None
                else if Complete(more) then Read(start, max, Whole()) == Outcome(Named(more, Whole()), rs + [r])
                else Standing(start, rest, rs + [r], grown, more, max))
  {
    var grown, more := consumed + RecordBytes(r), handshake + r.payload;
    OneMore(rs, r, max);
    Associative(consumed, RecordBytes(r), rest);
    if Refused(more, max) {
      NothingAccepted(rs, r, rest, max, Whole());
    } else if Complete(more) {
      ReadStream(rs + [r], rest, max, Whole());
      assert [] + more == more;
    }
  }

  /** The record layer does not look at what the body says. */
  lemma {:induction false} ParsedAfterwards(
    rs: seq<Record>, handshake: seq<Byte>, budget: nat, max: nat, parse: Parser)
    ensures var whole := ReadRecords(rs, handshake, budget, max, Whole());
            ReadRecords(rs, handshake, budget, max, parse) ==
              if whole.None? then None else Outcome(parse(whole.value.name), whole.value.records)
  {
    if rs != [] && 5 + |rs[0].payload| <= budget {
      ParsedAfterwards(rs[1..], handshake + rs[0].payload, budget - 5 - |rs[0].payload|, max, parse);
    }
  }

  /** Reads complete records until they complete a ClientHello, and returns its body. */
  method CollectHello(reader: Reader, max: nat) returns (body: seq<Byte>, consumed: seq<Byte>, ok: bool)
    requires reader.Valid()
    modifies reader
    ensures reader.Valid()
    ensures var found := Read(old(reader.Rest()), max, Whole());
            && (ok <==> found.Some?)
            && (ok ==> body == found.value.name && AreRecords(found.value.records)
                       && consumed == Frames(found.value.records))
    ensures ok ==> old(reader.Rest()) == consumed + reader.Rest() && |consumed| <= max
  {
    ghost var start := reader.Rest();
    ghost var rs: seq<Record> := [];
    var handshake: seq<Byte>, expected := [], None;
    body, consumed := [], [];
    StandingStarts(start, max);
    for count := 0 to MAX_HANDSHAKE_RECORDS
      invariant reader.Valid()
      invariant |rs| == count && Standing(start, reader.Rest(), rs, consumed, handshake, max)
      invariant expected == Expected(handshake)
    {
      ghost var b, before := reader.Rest(), handshake;
      var grown, payload, r := ReadRecord(reader, consumed, max);
      if payload.None? {
        StandingEnds(start, b, rs, consumed, handshake, max);
        return body, consumed, false;
      }
      StandingMoves(start, b, rs, consumed, handshake, max, r, reader.Rest());
      consumed, handshake, rs := grown, handshake + payload.value, rs + [r];
      if |handshake| >= 4 && expected.None? {
        if handshake[0] != 1 || Total(handshake) > max {
          return body, consumed, false;
        }
        expected := Some(Total(handshake));
      } else if |before| >= 4 {
        HeaderDecides(before, payload.value, max);
      }
      if expected.Some? && |handshake| >= expected.value {
        return handshake[4..expected.value], consumed, true;
      }
    }
    StandingEnds(start, reader.Rest(), rs, consumed, handshake, max);
    return body, consumed, false;
  }

  /**
   * Success, the name and the consumed bytes are exactly those of `Read`; the
   * stream is left at the end of the last record consumed.
   */
  method ReadClientHello(reader: Reader, max: nat, isAddress: seq<Byte> -> bool) returns (hello: Option<ClientHello>)
    requires reader.Valid()
    modifies reader
    ensures reader.Valid()
    ensures var found := Read(old(reader.Rest()), max, Names(isAddress));
            && (hello.None? <==> found.None?)
            && (hello.Some? ==>
                  AreRecords(found.value.records)
                  && hello.value == ClientHello(found.value.name, Frames(found.value.records)))
    ensures hello.Some? ==>
              && old(reader.Rest()) == hello.value.consumed + reader.Rest()
              && |hello.value.consumed| <= max
  {
    ParsedAfterwards(
      SplitRecords(reader.Rest(), MAX_HANDSHAKE_RECORDS), [], max, max, Names(isAddress));
    var body, consumed, ok := CollectHello(reader, max);
    if !ok {
      return None;
    }
    var name := ParseClientHello(body, isAddress);
    return if name.None? then None else Some(ClientHello(name.value, consumed));
  }

  function NameOf(found: Option<Reading>): Option<seq<Byte>> {
    if found.None? then None else Some(found.value.name)
  }

  /**
   * Two connections that carry the same message, cut into records in any two
   * ways within their limits and followed by anything, are given the same name.
   */
  lemma FramingsAgree(
    body: seq<Byte>, rs: seq<Record>, max: nat, rest: seq<Byte>, rs': seq<Record>, max': nat, rest': seq<Byte>,
    isAddress: seq<Byte> -> bool)
    requires |body| < 0x100_0000 && IsFraming(rs, body, max) && IsFraming(rs', body, max')
    ensures NameOf(Read(Frames(rs) + rest, max, Names(isAddress))) == NameIn(body, isAddress)
    ensures NameOf(Read(Frames(rs') + rest', max', Names(isAddress))) == NameIn(body, isAddress)
  {
    FramingIsTransparent(rs, body, max, rest, Names(isAddress));
    FramingIsTransparent(rs', body, max', rest', Names(isAddress));
  }

  // ------------------------------------------------------------------
  // Records and body together
  // ------------------------------------------------------------------

  lemma Digits(high: nat, middle: nat, low: nat)
    requires high < 256 && middle < 256 && low < 256
    ensures var n := high * 0x1_0000 + middle * 0x100 + low;
            n < 0x100_0000 && n / 0x1_0000 == high && n / 0x100 % 0x100 == middle && n % 0x100 == low
  {
  }

  /** What completes a handshake starts with the message its header announces. */
  lemma StartsWithMessage(h: seq<Byte>)
    requires Complete(h) && h[0] == 1
    ensures |h[4..Total(h)]| < 0x100_0000 && Message(h[4..Total(h)]) <= h
  {
    var total, body := Total(h), h[4..Total(h)];
    Digits(h[1], h[2], h[3]);
    assert Message(body) == [h[0], h[1], h[2], h[3]] + body;
    assert h == [h[0], h[1], h[2], h[3]] + body + h[total..];
  }

  /** Records that complete a handshake, no earlier than with the last one, frame its message. */
  lemma CompletesIsFraming(rs: seq<Record>, max: nat)
    requires |rs| <= MAX_HANDSHAKE_RECORDS && Completes(rs, [], max, max)
    ensures var h := Payloads(rs);
            Complete(h) && |h[4..Total(h)]| < 0x100_0000 && IsFraming(rs, h[4..Total(h)], max)
  {
    var h, k := Payloads(rs), |rs| - 1;
    assert [] + h == h;
    StartsWithMessage(h);
    PayloadsSplit(rs, k);
    var part := Payloads(rs[..k]);
    assert [] + part == part;
    assert !CompleteAfter(rs, [], k);
    MessageHeader(h[4..Total(h)], part);
  }

  /** The stream starts with a framing of the serialization of a hello that asks for `host`. */
  ghost predicate CarriesHello(
    b: seq<Byte>, max: nat, isAddress: seq<Byte> -> bool, rs: seq<Record>, body: seq<Byte>, host: seq<Byte>) {
    && |body| < 0x100_0000 && IsFraming(rs, body, max) && Frames(rs) <= b
    && exists o, xs, names :: Serializes(body, o, xs, names, host, isAddress)
  }

  lemma AcceptedBody(b: seq<Byte>, max: nat, isAddress: seq<Byte> -> bool, name: seq<Byte>, rs: seq<Record>)
    returns (body: seq<Byte>)
    requires Read(b, max, Names(isAddress)) == Some(Reading(name, rs))
    ensures |body| < 0x100_0000 && AreRecords(rs) && IsFraming(rs, body, max) && Frames(rs) <= b
    ensures NameIn(body, isAddress) == Some(name)
  {
    ReadIsExact(b, max, Names(isAddress), Reading(name, rs));
    CompletesIsFraming(rs, max);
    var h := Payloads(rs);
    assert [] + h == h;
    body := h[4..Total(h)];
  }

  lemma AcceptedSound(b: seq<Byte>, max: nat, isAddress: seq<Byte> -> bool, name: seq<Byte>, rs: seq<Record>)
    returns (body: seq<Byte>, host: seq<Byte>)
    requires Read(b, max, Names(isAddress)) == Some(Reading(name, rs))
    ensures CarriesHello(b, max, isAddress, rs, body, host) && name == Lower(host)
  {
    body := AcceptedBody(b, max, isAddress, name, rs);
    var o, xs, names, found := NameSound(body, isAddress);
    host := found;
  }

  lemma ReadFramed(b: seq<Byte>, max: nat, rs: seq<Record>, body: seq<Byte>, parse: Parser)
    requires |body| < 0x100_0000 && IsFraming(rs, body, max) && Frames(rs) <= b
    ensures Read(b, max, parse) == Outcome(parse(body), rs)
  {
    var rest := b[|Frames(rs)|..];
    assert b == Frames(rs) + rest;
    FramingIsTransparent(rs, body, max, rest, parse);
  }

  lemma CarriedName(
    b: seq<Byte>, max: nat, isAddress: seq<Byte> -> bool, rs: seq<Record>, body: seq<Byte>, host: seq<Byte>)
    requires CarriesHello(b, max, isAddress, rs, body, host)
    ensures Names(isAddress)(body) == Some(Lower(host))
  {
    var o, xs, names :| Serializes(body, o, xs, names, host, isAddress);
    NameComplete(body, o, xs, names, host, isAddress);
  }

  lemma AcceptedComplete(
    b: seq<Byte>, max: nat, isAddress: seq<Byte> -> bool, rs: seq<Record>, body: seq<Byte>, host: seq<Byte>)
    requires CarriesHello(b, max, isAddress, rs, body, host)
    ensures Read(b, max, Names(isAddress)) == Some(Reading(Lower(host), rs))
  {
    CarriedName(b, max, isAddress, rs, body, host);
    ReadFramed(b, max, rs, body, Names(isAddress));
  }

  /**
   * A stream is accepted exactly when it starts with a framing, within the
   * limits, of the serialization of a ClientHello that asks for one acceptable
   * host; the result is that host in lower case and exactly those records.
   */
  lemma AcceptedExactly(
    b: seq<Byte>, max: nat, isAddress: seq<Byte> -> bool, name: seq<Byte>, rs: seq<Record>)
    ensures Read(b, max, Names(isAddress)) == Some(Reading(name, rs)) <==>
            exists body, host :: CarriesHello(b, max, isAddress, rs, body, host) && name == Lower(host)
  {
    if Read(b, max, Names(isAddress)) == Some(Reading(name, rs)) {
      var body, host := AcceptedSound(b, max, isAddress, name, rs);
    }
    if exists body, host :: CarriesHello(b, max, isAddress, rs, body, host) && name == Lower(host) {
      var body, host :| CarriesHello(b, max, isAddress, rs, body, host) && name == Lower(host);
      AcceptedComplete(b, max, isAddress, rs, body, host);
    }
  }
}
