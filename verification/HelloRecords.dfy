/**
 * Collecting the first ClientHello from plaintext TLS records (section 5.1 of
 * RFC 8446) without reading past the record that completes it.
 */
module HelloRecords {
  import opened Wrappers
  import opened HelloBody

  const MAX_RECORD_BYTES: nat := 16384
  const MAX_HANDSHAKE_RECORDS: nat := 256

  /** Extracts the name from the body of a complete message. */
  type Parser = seq<Byte> -> Option<seq<Byte>>

  datatype Record = Record(minor: Byte, payload: seq<Byte>)

  predicate IsRecord(r: Record) {
    r.minor <= 4 && 1 <= |r.payload| <= 16384
  }

  predicate AreRecords(rs: seq<Record>) {
    forall i :: 0 <= i < |rs| ==> IsRecord(rs[i])
  }

  function RecordBytes(r: Record): (b: seq<Byte>)
    requires IsRecord(r)
    ensures |b| == 5 + |r.payload|
  {
    [22, 3, r.minor] + Vec16(r.payload)
  }

  /** The records as they travel. */
  function Frames(rs: seq<Record>): seq<Byte>
    requires AreRecords(rs)
  {
    if rs == [] then [] else RecordBytes(rs[0]) + Frames(rs[1..])
  }

  /** The handshake bytes the records carry. */
  function Payloads(rs: seq<Record>): seq<Byte> {
    if rs == [] then [] else rs[0].payload + Payloads(rs[1..])
  }

  /** A handshake message: type, three-byte length, body. */
  function Total(h: seq<Byte>): nat
    requires |h| >= 4
  {
    var high: nat, middle: nat, low: nat := h[1], h[2], h[3];
    4 + high * 0x1_0000 + middle * 0x100 + low
  }

  predicate Complete(h: seq<Byte>) {
    |h| >= 4 && |h| >= Total(h)
  }

  predicate Refused(h: seq<Byte>, max: nat) {
    |h| >= 4 && (h[0] != 1 || Total(h) > max)
  }

  // ------------------------------------------------------------------
  // Reading, as a function
  // ------------------------------------------------------------------

  /** The length a record header announces. */
  function Size(b: seq<Byte>): nat
    requires |b| >= 5
  {
    var high: nat, low: nat := b[3], b[4];
    high * 256 + low
  }

  predicate StartsRecord(b: seq<Byte>) {
    && |b| >= 5
    && b[0] == 22 && b[1] == 3 && b[2] <= 4
    && 1 <= Size(b) <= MAX_RECORD_BYTES && 5 + Size(b) <= |b|
  }

  function SplitRecord(b: seq<Byte>): Option<(Record, seq<Byte>)> {
    if StartsRecord(b) then Some((Record(b[2], b[5..5 + Size(b)]), b[5 + Size(b)..])) else None
  }

  lemma RecordSound(b: seq<Byte>)
    requires StartsRecord(b)
    ensures var r := Record(b[2], b[5..5 + Size(b)]);
            IsRecord(r) && b == RecordBytes(r) + b[5 + Size(b)..]
  {
    var size := Size(b);
    assert U16(size) == [b[3], b[4]];
    assert b == [b[0], b[1], b[2]] + ([b[3], b[4]] + b[5..5 + size]) + b[5 + size..];
  }

  lemma RecordComplete(r: Record, rest: seq<Byte>)
    requires IsRecord(r)
    ensures SplitRecord(RecordBytes(r) + rest) == Some((r, rest))
  {
    var b := RecordBytes(r) + rest;
    assert b[3] == |r.payload| / 256 && b[4] == |r.payload| % 256;
    assert b[5..5 + |r.payload|] == r.payload && b[5 + |r.payload|..] == rest;
  }

  lemma RecordExact(b: seq<Byte>, r: Record, rest: seq<Byte>)
    ensures SplitRecord(b) == Some((r, rest)) <==> IsRecord(r) && b == RecordBytes(r) + rest
  {
    if StartsRecord(b) {
      RecordSound(b);
    }
    if IsRecord(r) && b == RecordBytes(r) + rest {
      RecordComplete(r, rest);
    }
  }

  /** The records at the front of the stream, up to `left` of them. */
  function SplitRecords(b: seq<Byte>, left: nat): (rs: seq<Record>)
    ensures |rs| <= left && AreRecords(rs)
    decreases |b|
  {
    if left == 0 || SplitRecord(b).None? then []
    else
      var first := SplitRecord(b).value;
      [first.0] + SplitRecords(first.1, left - 1)
  }

  datatype Reading = Reading(name: seq<Byte>, records: seq<Record>)

  function Outcome(name: Option<seq<Byte>>, rs: seq<Record>): Option<Reading> {
    if name.None? then None else Some(Reading(name.value, rs))
  }

  function Then(rs: seq<Record>, later: Option<Reading>): Option<Reading> {
    if later.None? then None else Some(Reading(later.value.name, rs + later.value.records))
  }

  /** What the records say, with `handshake` collected so far and `budget` bytes still allowed. */
  function ReadRecords(rs: seq<Record>, handshake: seq<Byte>, budget: nat, max: nat, parse: Parser): Option<Reading> {
    if rs == [] || 5 + |rs[0].payload| > budget then None
    else
      var more := handshake + rs[0].payload;
      if Refused(more, max) then None
      else if Complete(more) then Outcome(Named(more, parse), [rs[0]])
      else Then([rs[0]], ReadRecords(rs[1..], more, budget - 5 - |rs[0].payload|, max, parse))
  }

  function Named(h: seq<Byte>, parse: Parser): Option<seq<Byte>>
    requires Complete(h)
  {
    parse(h[4..Total(h)])
  }

  function Read(b: seq<Byte>, max: nat, parse: Parser): Option<Reading> {
    ReadRecords(SplitRecords(b, MAX_HANDSHAKE_RECORDS), [], max, max, parse)
  }

  // ------------------------------------------------------------------
  // What is found, said without reading
  // ------------------------------------------------------------------

  /** The records complete the handshake with their last one, within the limits. */
  ghost predicate Completes(rs: seq<Record>, handshake: seq<Byte>, budget: nat, max: nat) {
    && rs != []
    && AreRecords(rs)
    && |Frames(rs)| <= budget
    && Complete(handshake + Payloads(rs))
    && !Refused(handshake + Payloads(rs), max)
    && OpenBefore(rs, handshake)
  }

  /** No proper prefix of the records completes the handshake. */
  ghost predicate OpenBefore(rs: seq<Record>, handshake: seq<Byte>) {
    forall k :: 0 <= k < |rs| ==> !CompleteAfter(rs, handshake, k)
  }

  predicate CompleteAfter(rs: seq<Record>, handshake: seq<Byte>, k: nat)
    requires k <= |rs|
  {
    Complete(handshake + Payloads(rs[..k]))
  }

  /** The stream starts with records that complete a message, and the message names `reading.name`. */
  ghost predicate Found(reading: Reading, b: seq<Byte>, max: nat, parse: Parser) {
    && |reading.records| <= MAX_HANDSHAKE_RECORDS
    && Completes(reading.records, [], max, max)
    && Frames(reading.records) <= b
    && Named([] + Payloads(reading.records), parse) == Some(reading.name)
  }

  /** A message is judged alike by every prefix that shows its header. */
  lemma HeaderDecides(h: seq<Byte>, more: seq<Byte>, max: nat)
    requires |h| >= 4
    ensures Total(h + more) == Total(h) && Refused(h + more, max) == Refused(h, max)
  {
  }

  // ------------------------------------------------------------------
  // One record at a time
  // ------------------------------------------------------------------

  lemma ConsPayloads(handshake: seq<Byte>, r: Record, rs: seq<Record>)
    ensures handshake + Payloads([r] + rs) == handshake + r.payload + Payloads(rs)
  {
    assert ([r] + rs)[1..] == rs;
    Associative(handshake, r.payload, Payloads(rs));
  }

  lemma ConsFrames(r: Record, rs: seq<Record>)
    requires IsRecord(r) && AreRecords(rs)
    ensures AreRecords([r] + rs) && Frames([r] + rs) == RecordBytes(r) + Frames(rs)
  {
    assert ([r] + rs)[1..] == rs;
  }

  lemma OneRecord(handshake: seq<Byte>, r: Record)
    ensures Payloads([r]) == r.payload
    ensures IsRecord(r) ==> Frames([r]) == RecordBytes(r)
    ensures CompleteAfter([r], handshake, 0) == Complete(handshake)
  {
    assert [r][1..] == [] && [r][..0] == [];
    assert handshake + [] == handshake;
  }

  lemma OpenBeforeCons(r: Record, rs: seq<Record>, handshake: seq<Byte>)
    requires !Complete(handshake)
    ensures OpenBefore([r] + rs, handshake) <==> OpenBefore(rs, handshake + r.payload)
  {
    var all := [r] + rs;
    assert CompleteAfter(all, handshake, 0) == Complete(handshake) by {
      assert all[..0] == [] && handshake + [] == handshake;
    }
    forall k | 0 <= k < |rs|
      ensures CompleteAfter(all, handshake, k + 1) == CompleteAfter(rs, handshake + r.payload, k)
    {
      assert all[..k + 1] == [r] + rs[..k];
      ConsPayloads(handshake, r, rs[..k]);
    }
    if OpenBefore(all, handshake) {
      forall k | 0 <= k < |rs|
        ensures !CompleteAfter(rs, handshake + r.payload, k)
      {
        assert !CompleteAfter(all, handshake, k + 1);
      }
    }
    if OpenBefore(rs, handshake + r.payload) {
      forall k | 0 <= k < |all|
        ensures !CompleteAfter(all, handshake, k)
      {
        if k > 0 {
          assert !CompleteAfter(rs, handshake + r.payload, k - 1);
        }
      }
    }
  }

  lemma AreRecordsCons(r: Record, rs: seq<Record>)
    ensures AreRecords([r] + rs) <==> IsRecord(r) && AreRecords(rs)
  {
    var all := [r] + rs;
    assert all[0] == r;
    assert forall i :: 0 <= i < |rs| ==> all[i + 1] == rs[i];
  }

  /** A first record that does not complete the handshake only moves the question on. */
  lemma CompletesCons(r: Record, rs: seq<Record>, handshake: seq<Byte>, budget: nat, max: nat)
    requires IsRecord(r) && !Complete(handshake) && rs != []
    ensures Completes([r] + rs, handshake, budget, max) <==>
            5 + |r.payload| <= budget && Completes(rs, handshake + r.payload, budget - 5 - |r.payload|, max)
  {
    AreRecordsCons(r, rs);
    OpenBeforeCons(r, rs, handshake);
    ConsPayloads(handshake, r, rs);
    if AreRecords(rs) {
      ConsFrames(r, rs);
    }
  }

  lemma CompletesOne(r: Record, handshake: seq<Byte>, budget: nat, max: nat)
    requires IsRecord(r) && !Complete(handshake)
    ensures Completes([r], handshake, budget, max) <==>
            5 + |r.payload| <= budget && Complete(handshake + r.payload) && !Refused(handshake + r.payload, max)
  {
    OneRecord(handshake, r);
  }

  /** The reading consists of leading records that complete the handshake, and of the name they give. */
  ghost predicate ReadsFrom(reading: Reading, rs: seq<Record>, handshake: seq<Byte>, budget: nat, max: nat, parse: Parser) {
    && Completes(reading.records, handshake, budget, max)
    && reading.records <= rs
    && Named(handshake + Payloads(reading.records), parse) == Some(reading.name)
  }

  lemma ReadsFromCons(
    r: Record, later: Reading, rs: seq<Record>, handshake: seq<Byte>, budget: nat, max: nat, parse: Parser)
    requires IsRecord(r) && !Complete(handshake) && 5 + |r.payload| <= budget
    requires ReadsFrom(later, rs, handshake + r.payload, budget - 5 - |r.payload|, max, parse)
    ensures ReadsFrom(later.(records := [r] + later.records), [r] + rs, handshake, budget, max, parse)
  {
    ConsPayloads(handshake, r, later.records);
    CompletesCons(r, later.records, handshake, budget, max);
  }

  lemma ReadsFromOne(
    r: Record, name: seq<Byte>, rs: seq<Record>, handshake: seq<Byte>, budget: nat, max: nat, parse: Parser)
    requires IsRecord(r) && !Complete(handshake) && 5 + |r.payload| <= budget
    requires Complete(handshake + r.payload) && !Refused(handshake + r.payload, max)
    requires Named(handshake + r.payload, parse) == Some(name)
    ensures ReadsFrom(Reading(name, [r]), [r] + rs, handshake, budget, max, parse)
  {
    OneRecord(handshake, r);
    CompletesOne(r, handshake, budget, max);
  }

  lemma {:induction false} ReadSound(rs: seq<Record>, handshake: seq<Byte>, budget: nat, max: nat, parse: Parser)
    requires AreRecords(rs) && !Complete(handshake)
    requires ReadRecords(rs, handshake, budget, max, parse).Some?
    ensures ReadsFrom(ReadRecords(rs, handshake, budget, max, parse).value, rs, handshake, budget, max, parse)
  {
    var r, tail := rs[0], rs[1..];
    var more := handshake + r.payload;
    assert [r] + tail == rs;
    if Complete(more) {
      var name := Named(more, parse).value;
      assert ReadRecords(rs, handshake, budget, max, parse).value == Reading(name, [r]);
      ReadsFromOne(r, name, tail, handshake, budget, max, parse);
    } else {
      var budget' := budget - 5 - |r.payload|;
      var later := ReadRecords(tail, more, budget', max, parse).value;
      assert ReadRecords(rs, handshake, budget, max, parse).value == later.(records := [r] + later.records);
      ReadSound(tail, more, budget', max, parse);
      ReadsFromCons(r, later, tail, handshake, budget, max, parse);
    }
  }

  lemma PrefixOpens(r: Record, later: seq<Record>, handshake: seq<Byte>, max: nat)
    requires later != [] && !Complete(handshake)
    requires OpenBefore([r] + later, handshake) && !Refused(handshake + Payloads([r] + later), max)
    ensures !Complete(handshake + r.payload) && !Refused(handshake + r.payload, max)
  {
    var more := handshake + r.payload;
    OpenBeforeCons(r, later, handshake);
    assert !CompleteAfter(later, more, 0);
    assert later[..0] == [] && more + [] == more;
    if |more| >= 4 {
      HeaderDecides(more, Payloads(later), max);
      ConsPayloads(handshake, r, later);
    }
  }

  /** Where records complete the handshake, reading ends with them and with the name of the message. */
  lemma {:induction false} ReadThrough(
    rs: seq<Record>, extra: seq<Record>, handshake: seq<Byte>, budget: nat, max: nat, parse: Parser)
    requires !Complete(handshake) && Completes(rs, handshake, budget, max)
    ensures ReadRecords(rs + extra, handshake, budget, max, parse)
            == Outcome(Named(handshake + Payloads(rs), parse), rs)
  {
    var r, later := rs[0], rs[1..];
    assert rs == [r] + later;
    assert (rs + extra)[1..] == later + extra;
    if later == [] {
      assert rs == [r];
      OneRecord(handshake, r);
    } else {
      PrefixOpens(r, later, handshake, max);
      CompletesCons(r, later, handshake, budget, max);
      ConsPayloads(handshake, r, later);
      ReadThrough(later, extra, handshake + r.payload, budget - 5 - |r.payload|, max, parse);
    }
  }

  // ------------------------------------------------------------------
  // Streams
  // ------------------------------------------------------------------

  lemma SplitFirst(b: seq<Byte>, r: Record, rest: seq<Byte>, left: nat)
    requires IsRecord(r) && left >= 1 && b == RecordBytes(r) + rest
    ensures SplitRecords(b, left) == [r] + SplitRecords(rest, left - 1)
  {
    RecordComplete(r, rest);
  }

  lemma FramesCons(rs: seq<Record>, rest: seq<Byte>)
    requires AreRecords(rs) && rs != []
    ensures Frames(rs) + rest == RecordBytes(rs[0]) + (Frames(rs[1..]) + rest)
  {
    Associative(RecordBytes(rs[0]), Frames(rs[1..]), rest);
  }

  lemma PushBack(rs: seq<Record>, extra: seq<Record>)
    requires rs != []
    ensures [rs[0]] + (rs[1..] + extra) == rs + extra
  {
  }

  lemma SplitPastFirst(rs: seq<Record>, rest: seq<Byte>, left: nat)
    requires AreRecords(rs) && rs != [] && left >= 1
    ensures SplitRecords(Frames(rs) + rest, left) == [rs[0]] + SplitRecords(Frames(rs[1..]) + rest, left - 1)
  {
    FramesCons(rs, rest);
    SplitFirst(Frames(rs) + rest, rs[0], Frames(rs[1..]) + rest, left);
  }

  /** The records in front of a stream are found again, and then those of the rest. */
  lemma {:induction false} FramesSplit(rs: seq<Record>, rest: seq<Byte>, left: nat)
    requires AreRecords(rs) && |rs| <= left
    ensures SplitRecords(Frames(rs) + rest, left) == rs + SplitRecords(rest, left - |rs|)
    decreases |rs|
  {
    var extra := SplitRecords(rest, left - |rs|);
    if rs == [] {
      assert Frames(rs) + rest == rest;
      assert rs + extra == extra;
    } else {
      var later := SplitRecords(Frames(rs[1..]) + rest, left - 1);
      assert SplitRecords(Frames(rs) + rest, left) == [rs[0]] + later by {
        SplitPastFirst(rs, rest, left);
      }
      assert later == rs[1..] + extra by {
        FramesSplit(rs[1..], rest, left - 1);
      }
      PushBack(rs, extra);
    }
  }

  lemma {:induction false} SplitFrames(b: seq<Byte>, left: nat, rs: seq<Record>)
    requires rs <= SplitRecords(b, left)
    ensures AreRecords(rs) && Frames(rs) <= b
    decreases left
  {
    if rs != [] {
      var first := SplitRecord(b).value;
      var later := rs[1..];
      assert rs == [first.0] + later;
      SplitFrames(first.1, left - 1, later);
      ConsFrames(first.0, later);
      RecordExact(b, first.0, first.1);
    }
  }

  lemma ReadStream(rs: seq<Record>, rest: seq<Byte>, max: nat, parse: Parser)
    requires |rs| <= MAX_HANDSHAKE_RECORDS && Completes(rs, [], max, max)
    ensures Read(Frames(rs) + rest, max, parse) == Outcome(Named([] + Payloads(rs), parse), rs)
  {
    var extra := SplitRecords(rest, MAX_HANDSHAKE_RECORDS - |rs|);
    assert SplitRecords(Frames(rs) + rest, MAX_HANDSHAKE_RECORDS) == rs + extra by {
      FramesSplit(rs, rest, MAX_HANDSHAKE_RECORDS);
    }
    ReadThrough(rs, extra, [], max, max, parse);
  }

  // ------------------------------------------------------------------
  // Theorems
  // ------------------------------------------------------------------

  /**
   * Reading succeeds exactly when the stream starts with at most 256 well-formed
   * records of at most `max` bytes whose last one completes a ClientHello that
   * names a host; it then reports that name and exactly those records.
   */
  lemma ReadIsExact(b: seq<Byte>, max: nat, parse: Parser, reading: Reading)
    ensures Read(b, max, parse) == Some(reading) <==> Found(reading, b, max, parse)
  {
    var all := SplitRecords(b, MAX_HANDSHAKE_RECORDS);
    if Read(b, max, parse) == Some(reading) {
      ReadSound(all, [], max, max, parse);
      SplitFrames(b, MAX_HANDSHAKE_RECORDS, reading.records);
    }
    if Found(reading, b, max, parse) {
      var rest := b[|Frames(reading.records)|..];
      assert b == Frames(reading.records) + rest;
      ReadStream(reading.records, rest, max, parse);
    }
  }

  /** The handshake message with the given ClientHello body. */
  function Message(body: seq<Byte>): seq<Byte>
    requires |body| < 0x100_0000
  {
    [1, |body| / 0x1_0000, |body| / 0x100 % 0x100, |body| % 0x100] + body
  }

  /** The records carry the message, start to end, and end no later than with the record that completes it. */
  ghost predicate IsFraming(rs: seq<Record>, body: seq<Byte>, max: nat)
    requires |body| < 0x100_0000
  {
    && 1 <= |rs| <= 256
    && AreRecords(rs)
    && |Frames(rs)| <= max
    && Message(body) <= Payloads(rs)
    && |Payloads(rs[..|rs| - 1])| < |Message(body)|
  }

  lemma {:induction false} PayloadsSplit(rs: seq<Record>, k: nat)
    requires k <= |rs|
    ensures Payloads(rs) == Payloads(rs[..k]) + Payloads(rs[k..])
  {
    if k == 0 {
      assert rs[..0] == [] && rs[0..] == rs;
    } else {
      PayloadsSplit(rs[1..], k - 1);
      assert rs[1..][..k - 1] == rs[..k][1..] && rs[1..][k - 1..] == rs[k..];
      Associative(rs[0].payload, Payloads(rs[1..k]), Payloads(rs[k..]));
    }
  }

  lemma {:induction false} FramesCoverPayloads(rs: seq<Record>)
    requires AreRecords(rs)
    ensures |Payloads(rs)| <= |Frames(rs)|
  {
    if rs != [] {
      FramesCoverPayloads(rs[1..]);
    }
  }

  lemma MessageHeader(body: seq<Byte>, h: seq<Byte>)
    requires |body| < 0x100_0000
    requires h <= Message(body) || Message(body) <= h
    ensures |h| >= 4 ==> h[0] == 1 && Total(h) == |Message(body)|
    ensures Complete(h) <==> |h| >= |Message(body)|
    ensures Complete(h) ==> h[4..Total(h)] == body
  {
    var message := Message(body);
    assert Total(message) == |message|;
    if |h| >= 4 {
      assert forall i :: 0 <= i < 4 ==> h[i] == message[i];
    }
    if |h| >= |message| {
      assert h[..|message|] == message;
      assert h[4..|message|] == message[4..];
    }
  }

  lemma PrefixesOpen(rs: seq<Record>, body: seq<Byte>, max: nat)
    requires |body| < 0x100_0000 && IsFraming(rs, body, max)
    ensures OpenBefore(rs, [])
  {
    forall k | 0 <= k < |rs|
      ensures !CompleteAfter(rs, [], k)
    {
      var part := Payloads(rs[..k]);
      PayloadsSplit(rs[..|rs| - 1], k);
      assert rs[..|rs| - 1][..k] == rs[..k];
      PayloadsSplit(rs, k);
      assert [] + part == part;
      MessageHeader(body, part);
    }
  }

  lemma FramingCompletes(rs: seq<Record>, body: seq<Byte>, max: nat, parse: Parser)
    requires |body| < 0x100_0000 && IsFraming(rs, body, max)
    ensures Completes(rs, [], max, max) && Named([] + Payloads(rs), parse) == parse(body)
  {
    var payloads := Payloads(rs);
    assert [] + payloads == payloads;
    PrefixesOpen(rs, body, max);
    MessageHeader(body, payloads);
    FramesCoverPayloads(rs);
  }

  /** However a message is cut into records within the limits, the same name is found after the same records. */
  lemma FramingIsTransparent(rs: seq<Record>, body: seq<Byte>, max: nat, rest: seq<Byte>, parse: Parser)
    requires |body| < 0x100_0000 && IsFraming(rs, body, max)
    ensures Read(Frames(rs) + rest, max, parse) == Outcome(parse(body), rs)
  {
    FramingCompletes(rs, body, max, parse);
    ReadStream(rs, rest, max, parse);
  }
}
