/**
 * The streaming cache capture: a body that forwards its inner frames while it
 * buffers them, racing a deadline task that may discard the shared state at any
 * moment. Clock readings and the inner body's answers are inputs.
 */
module Capture {
  import opened Wrappers

  datatype Frame = Data(bytes: seq<Byte>) | Trailers

  /** What polling the inner body yields; `last` is its end-of-stream flag after the frame. */
  datatype Polled = Pending | Ready(frame: Frame, last: bool) | Failed | Ended

  // ------------------------------------------------------------------
  // Admission
  // ------------------------------------------------------------------

  datatype Header = Header(name: seq<Byte>, value: seq<Byte>, text: bool)

  const PAIR_SIZE: nat := 48
  const FIXED_OVERHEAD: nat := 256

  function HeaderWeight(headers: seq<Header>): nat {
    if headers == [] then 0
    else
      var h := headers[|headers| - 1];
      HeaderWeight(headers[..|headers| - 1]) + |h.name| + |h.value| + PAIR_SIZE
  }

  /** The metadata a stored object of this response weighs, body apart. */
  function Overhead(headers: seq<Header>, key: seq<Byte>): nat {
    HeaderWeight(headers) + |key| + FIXED_OVERHEAD
  }

  /** All names and values, one after the other. */
  function HeaderText(headers: seq<Header>): seq<Byte> {
    if headers == [] then [] else headers[0].name + headers[0].value + HeaderText(headers[1..])
  }

  lemma {:induction false} HeaderTextAppend(headers: seq<Header>, h: Header)
    ensures |HeaderText(headers + [h])| == |HeaderText(headers)| + |h.name| + |h.value|
  {
    if headers == [] {
      assert (headers + [h])[1..] == [];
    } else {
      assert (headers + [h])[1..] == headers[1..] + [h];
      HeaderTextAppend(headers[1..], h);
    }
  }

  lemma {:induction false} WeightIsText(headers: seq<Header>)
    ensures HeaderWeight(headers) == |HeaderText(headers)| + 48 * |headers|
  {
    if headers != [] {
      var before, h := headers[..|headers| - 1], headers[|headers| - 1];
      WeightIsText(before);
      HeaderTextAppend(before, h);
      assert headers == before + [h];
    }
  }

  /** The metadata of a stored object is every byte of its names, values and key, 48 a pair and 256 more. */
  lemma OverheadIsExact(headers: seq<Header>, key: seq<Byte>)
    ensures Overhead(headers, key) == |HeaderText(headers)| + |key| + 48 * |headers| + 256
  {
    WeightIsText(headers);
  }

  datatype Disposition = Passthrough | PublishEmpty | Start(limit: nat)

  /** Only text headers can be stored, and the object must have room for the body's known part. */
  predicate Capturable(headers: seq<Header>, key: seq<Byte>, maxObjectBytes: nat, lowerHint: nat) {
    && (forall i :: 0 <= i < |headers| ==> headers[i].text)
    && Overhead(headers, key) + lowerHint <= maxObjectBytes
  }

  /** What is to happen to a response: the limit is exactly what its metadata leaves of the object. */
  predicate Disposes(
    headers: seq<Header>, key: seq<Byte>, maxObjectBytes: nat, lowerHint: nat, atEnd: bool, r: Disposition) {
    match r
    case Passthrough => !Capturable(headers, key, maxObjectBytes, lowerHint)
    case PublishEmpty => Capturable(headers, key, maxObjectBytes, lowerHint) && atEnd
    case Start(limit) =>
      Capturable(headers, key, maxObjectBytes, lowerHint) && !atEnd && Overhead(headers, key) + limit == maxObjectBytes
  }

  /** Decide whether a response is captured, and with what body limit. */
  method PrepareCapture(headers: seq<Header>, key: seq<Byte>, maxObjectBytes: nat, lowerHint: nat, atEnd: bool)
    returns (r: Disposition)
    ensures Disposes(headers, key, maxObjectBytes, lowerHint, atEnd, r)
    ensures !r.Passthrough? <==>
      && (forall i :: 0 <= i < |headers| ==> headers[i].text)
      && |HeaderText(headers)| + |key| + 48 * |headers| + 256 + lowerHint <= maxObjectBytes
    ensures !r.Passthrough? ==> (r.PublishEmpty? <==> atEnd)
  {
    OverheadIsExact(headers, key);
    var weight := 0;
    for i := 0 to |headers|
      invariant weight == HeaderWeight(headers[..i])
      invariant forall j :: 0 <= j < i ==> headers[j].text
    {
      if !headers[i].text {
        return Passthrough;
      }
      assert headers[..i + 1][..i] == headers[..i];
      weight := weight + |headers[i].name| + |headers[i].value| + PAIR_SIZE;
    }
    assert headers[..|headers|] == headers;
    var overhead := weight + |key| + FIXED_OVERHEAD;
    if maxObjectBytes < overhead {
      return Passthrough;
    }
    var limit := maxObjectBytes - overhead;
    if lowerHint > limit {
      return Passthrough;
    }
    if atEnd {
      return PublishEmpty;
    }
    return Start(limit);
  }

  // ------------------------------------------------------------------
  // The capture as a value
  // ------------------------------------------------------------------

  /** `armed` says the shared state still owns the fill and its entry; `published` is what was handed to publication. */
  datatype View = View(
    armed: bool,
    buffer: seq<Byte>,
    deadline: nat,
    limit: nat,
    capturing: bool,
    guarded: bool,
    ended: bool,
    published: Option<seq<Byte>>)

  function Begun(limit: nat, deadline: nat): View {
    View(true, [], deadline, limit, true, true, false, None)
  }

  function Taken(v: View): View {
    v.(armed := false, buffer := [])
  }

  function Abandoned(v: View): View {
    if v.capturing then Taken(v).(capturing := false, guarded := false) else v
  }

  /** What is left of the limit, saturating at zero. */
  function Room(limit: nat, used: nat): nat {
    if used <= limit then limit - used else 0
  }

  function Pushed(v: View, data: seq<Byte>, now: nat): View {
    if !v.capturing then v
    else if now >= v.deadline || !v.armed || |data| > Room(v.limit, |v.buffer|) then Abandoned(v)
    else v.(buffer := v.buffer + data)
  }

  function Finished(v: View, now: nat): View {
    if !v.capturing then v.(ended := true)
    else
      Taken(v).(capturing := false, guarded := false, ended := true,
                published := if now < v.deadline && v.armed then Some(v.buffer) else v.published)
  }

  /** The deadline task fires, unless its guard was dropped before. */
  function Fired(v: View): View {
    if v.guarded then Taken(v) else v
  }

  /**
   * One poll. A last frame is pushed and finished in two critical sections, each
   * with its own clock reading; the deadline task may run in between.
   */
  function Polls(v: View, p: Polled, now: nat, interrupted: bool, later: nat): View {
    if v.ended then v
    else
      match p
      case Pending => v
      case Ready(frame, last) =>
        var v1 := if frame.Data? then Pushed(v, frame.bytes, now) else Abandoned(v);
        if !last then v1 else Finished(if interrupted then Fired(v1) else v1, later)
      case Failed => Abandoned(v).(ended := true)
      case Ended => Finished(v, now)
  }

  // ------------------------------------------------------------------
  // The objects
  // ------------------------------------------------------------------

  /** Shared by the body and its deadline task. */
  class CaptureState {
    var armed: bool
    var buffer: seq<Byte>
    const deadline: nat

    constructor (deadline: nat)
      ensures armed && buffer == [] && this.deadline == deadline
    {
      armed, buffer := true, [];
      this.deadline := deadline;
    }

    /** Take fill, entry and bytes out at once, as the deadline task does. */
    method Take() returns (had: bool, bytes: seq<Byte>)
      modifies this
      ensures had == old(armed) && bytes == old(buffer)
      ensures !armed && buffer == []
    {
      had, bytes := armed, buffer;
      armed, buffer := false, [];
    }
  }

  class CaptureBody {
    const state: CaptureState
    const limit: nat
    var capturing: bool
    var guarded: bool
    var ended: bool
    var published: Option<seq<Byte>>

    function Value(): (v: View)
      reads this, state
    {
      View(state.armed, state.buffer, state.deadline, limit, capturing, guarded, ended, published)
    }

    constructor (limit: nat, deadline: nat)
      ensures Value() == Begun(limit, deadline) && fresh(state)
    {
      state := new CaptureState(deadline);
      this.limit := limit;
      capturing, guarded, ended, published := true, true, false, None;
    }

    method Finish(now: nat)
      modifies this, state
      ensures Value() == Finished(old(Value()), now)
    {
      ended := true;
      if !capturing {
        return;
      }
      capturing := false;
      var expired := now >= state.deadline;
      var had, bytes := state.Take();
      if !expired && had {
        published := Some(bytes);
      }
      guarded := false;
    }

    method Abandon()
      modifies this, state
      ensures Value() == Abandoned(old(Value()))
    {
      if !capturing {
        return;
      }
      capturing := false;
      var _, _ := state.Take();
      guarded := false;
    }

    method Push(data: seq<Byte>, now: nat)
      modifies this, state
      ensures Value() == Pushed(old(Value()), data, now)
    {
      if !capturing {
        return;
      }
      if now >= state.deadline || !state.armed {
        Abandon();
      } else if |data| > Room(limit, |state.buffer|) {
        Abandon();
      } else {
        state.buffer := state.buffer + data;
      }
    }

    /**
     * The inner body is asked only while the capture has not ended, and its answer is passed on as it is.
     * `interrupted` says that the deadline task runs between pushing a last frame and finishing.
     */
    method PollFrame(inner: Polled, now: nat, interrupted: bool, later: nat) returns (out: Polled)
      modifies this, state
      ensures out == if old(ended) then Ended else inner
      ensures Value() == Polls(old(Value()), inner, now, interrupted, later)
    {
      if ended {
        return Ended;
      }
      match inner {
        case Pending =>
        case Ready(frame, last) =>
          if capturing {
            if frame.Data? {
              Push(frame.bytes, now);
            } else {
              Abandon();
            }
          }
          if last {
            if interrupted && guarded {
              DeadlineFires();
            }
            Finish(later);
          }
        case Failed =>
          Abandon();
          ended := true;
        case Ended =>
          Finish(now);
      }
      return inner;
    }

    /** The deadline task fires; it never touches the body's own fields. */
    method DeadlineFires()
      requires guarded
      modifies state
      ensures Value() == Taken(old(Value()))
    {
      var _, _ := state.Take();
    }
  }

  // ------------------------------------------------------------------
  // Runs of a capture
  // ------------------------------------------------------------------

  /** Polls, the deadline task firing, and the response being dropped. */
  datatype Event = Poll(inner: Polled, now: nat, interrupted: bool, later: nat) | Fire(now: nat) | Drop(now: nat)

  function Step(v: View, e: Event): View {
    match e
    case Poll(inner, now, interrupted, later) => Polls(v, inner, now, interrupted, later)
    case Fire(_) => Fired(v)
    case Drop(_) => Abandoned(v).(ended := true)
  }

  function Replay(limit: nat, deadline: nat, events: seq<Event>): View {
    if events == [] then Begun(limit, deadline)
    else Step(Replay(limit, deadline, events[..|events| - 1]), events[|events| - 1])
  }

  /** What the inner body delivered, told without reference to the capture. */
  datatype End = Open | Clean(at: nat) | Broken
  datatype Log = Log(frames: seq<Frame>, end: End)

  function Logged(log: Log, e: Event): Log {
    if !log.end.Open? then log
    else
      match e
      case Fire(_) => log
      case Drop(_) => log.(end := Broken)
      case Poll(Pending, _, _, _) => log
      case Poll(Ready(frame, last), _, _, later) => Log(log.frames + [frame], if last then Clean(later) else Open)
      case Poll(Failed, _, _, _) => log.(end := Broken)
      case Poll(Ended, now, _, _) => log.(end := Clean(now))
  }

  function LogOf(events: seq<Event>): Log {
    if events == [] then Log([], Open) else Logged(LogOf(events[..|events| - 1]), events[|events| - 1])
  }

  predicate AllData(frames: seq<Frame>) {
    forall i :: 0 <= i < |frames| ==> frames[i].Data?
  }

  function Body(frames: seq<Frame>): seq<Byte> {
    if frames == [] then []
    else
      var f := frames[|frames| - 1];
      Body(frames[..|frames| - 1]) + (if f.Data? then f.bytes else [])
  }

  /** The frames the client saw: every poll answered by the capture, in order. */
  function Forwarded(limit: nat, deadline: nat, events: seq<Event>): seq<Frame> {
    if events == [] then []
    else
      var before := events[..|events| - 1];
      var e := events[|events| - 1];
      Forwarded(limit, deadline, before) +
      (if e.Poll? && e.inner.Ready? && !Replay(limit, deadline, before).ended then [e.inner.frame] else [])
  }

  predicate Storable(log: Log, limit: nat) {
    AllData(log.frames) && |Body(log.frames)| <= limit
  }

  /** How the capture stands to what was delivered. */
  predicate Tracks(v: View, log: Log) {
    && v.ended == !log.end.Open?
    && (v.armed ==> v.capturing && !v.ended && v.buffer == Body(log.frames) && Storable(log, v.limit))
    && (v.capturing == v.guarded)
    && (v.capturing ==> !v.ended)
    && (!v.armed ==> v.buffer == [])
    && (v.published.Some? ==>
          && log.end.Clean? && log.end.at < v.deadline
          && Storable(log, v.limit) && v.published.value == Body(log.frames))
  }

  lemma BodyAppend(frames: seq<Frame>, f: Frame)
    ensures Body(frames + [f]) == Body(frames) + (if f.Data? then f.bytes else [])
    ensures AllData(frames + [f]) == (AllData(frames) && f.Data?)
  {
    assert (frames + [f])[..|frames|] == frames;
    assert (frames + [f])[|frames|] == f;
  }

  lemma StepTracks(v: View, log: Log, e: Event)
    requires Tracks(v, log)
    ensures Tracks(Step(v, e), Logged(log, e))
  {
    if e.Poll? && e.inner.Ready? {
      BodyAppend(log.frames, e.inner.frame);
    }
  }

  lemma {:induction false} ReplayTracks(limit: nat, deadline: nat, events: seq<Event>)
    ensures Tracks(Replay(limit, deadline, events), LogOf(events))
    ensures Replay(limit, deadline, events).limit == limit && Replay(limit, deadline, events).deadline == deadline
  {
    if events != [] {
      var before := events[..|events| - 1];
      ReplayTracks(limit, deadline, before);
      StepTracks(Replay(limit, deadline, before), LogOf(before), events[|events| - 1]);
    }
  }

  /**
   * Whatever the frames, the clock and the deadline task do, a publication is exactly the whole
   * body of a response that ended cleanly in time, without trailers and within the limit.
   */
  lemma PublicationIsExact(limit: nat, deadline: nat, events: seq<Event>)
    requires Replay(limit, deadline, events).published.Some?
    ensures var log := LogOf(events);
      && log.end.Clean? && log.end.at < deadline
      && AllData(log.frames) && |Body(log.frames)| <= limit
      && Replay(limit, deadline, events).published.value == Body(log.frames)
  {
    ReplayTracks(limit, deadline, events);
  }

  /** A stored object, metadata and body together, never exceeds the configured size. */
  lemma ObjectFits(
    headers: seq<Header>, key: seq<Byte>, maxObjectBytes: nat, lowerHint: nat, atEnd: bool, r: Disposition,
    deadline: nat, events: seq<Event>)
    requires Disposes(headers, key, maxObjectBytes, lowerHint, atEnd, r)
    ensures var metadata := |HeaderText(headers)| + |key| + 48 * |headers| + 256;
      && (r.PublishEmpty? ==> metadata <= maxObjectBytes)
      && (r.Start? && Replay(r.limit, deadline, events).published.Some? ==>
            metadata + |Replay(r.limit, deadline, events).published.value| <= maxObjectBytes)
  {
    OverheadIsExact(headers, key);
    if r.Start? && Replay(r.limit, deadline, events).published.Some? {
      PublicationIsExact(r.limit, deadline, events);
    }
  }

  lemma StepForwards(log: Log, e: Event)
    ensures Logged(log, e).frames == log.frames + (if e.Poll? && e.inner.Ready? && log.end.Open? then [e.inner.frame] else [])
  {
  }

  /** The client sees the inner body's frames, unchanged and in order, captured or not. */
  lemma {:induction false} FramesAreForwarded(limit: nat, deadline: nat, events: seq<Event>)
    ensures Forwarded(limit, deadline, events) == LogOf(events).frames
  {
    if events != [] {
      var before := events[..|events| - 1];
      var log := LogOf(before);
      FramesAreForwarded(limit, deadline, before);
      ReplayTracks(limit, deadline, before);
      assert Replay(limit, deadline, before).ended == !log.end.Open?;
      assert LogOf(events) == Logged(log, events[|events| - 1]);
      StepForwards(log, events[|events| - 1]);
    }
  }

  // ------------------------------------------------------------------
  // Nothing publishable is lost
  // ------------------------------------------------------------------

  /** The deadline task runs inside a poll. */
  predicate Interrupted(e: Event) {
    e.Poll? && e.inner.Ready? && e.inner.last && e.interrupted
  }

  /** When an event is over. */
  function Over(e: Event): nat {
    if e.Poll? && e.inner.Ready? && e.inner.last then e.later else e.now
  }

  /** The clock never goes back and the deadline task does not fire early. */
  predicate Timely(events: seq<Event>, deadline: nat) {
    && (forall i :: 0 <= i < |events| ==> events[i].now <= Over(events[i]))
    && (forall i, j :: 0 <= i < j < |events| ==> Over(events[i]) <= events[j].now)
    && (forall i :: 0 <= i < |events| && events[i].Fire? ==> deadline <= events[i].now)
    && (forall i :: 0 <= i < |events| && Interrupted(events[i]) ==> deadline <= events[i].later)
  }

  /** Data that keeps the response storable, in time, is buffered. */
  lemma ArmedPush(v: View, log: Log, data: seq<Byte>, now: nat)
    requires Tracks(v, log) && v.armed && now < v.deadline
    requires Storable(log.(frames := log.frames + [Data(data)]), v.limit)
    ensures Pushed(v, data, now).armed
  {
    BodyAppend(log.frames, Data(data));
  }

  /** A step that leaves the response open and storable, in time, leaves the capture armed. */
  lemma ArmedStep(v: View, log: Log, e: Event)
    requires Tracks(v, log) && v.armed && e.now < v.deadline && !e.Fire?
    requires Logged(log, e).end.Open? && Storable(Logged(log, e), v.limit)
    ensures Step(v, e).armed
  {
    if e.Poll? && e.inner.Ready? {
      var f := e.inner.frame;
      assert Logged(log, e).frames == log.frames + [f];
      assert (log.frames + [f])[|log.frames|] == f;
      assert f == Data(f.bytes);
      ArmedPush(v, log, f.bytes, e.now);
    }
  }

  /** What may still be stored was so before. */
  lemma StorableBefore(log: Log, e: Event, limit: nat)
    requires Logged(log, e).end.Open? && Storable(Logged(log, e), limit)
    ensures log.end.Open? && Storable(log, limit)
  {
    if e.Poll? && e.inner.Ready? {
      BodyAppend(log.frames, e.inner.frame);
    }
  }

  /** A prefix that could still end as a publication keeps the capture armed. */
  lemma {:induction false} StaysArmed(limit: nat, deadline: nat, events: seq<Event>)
    requires LogOf(events).end.Open? && Storable(LogOf(events), limit)
    requires Timely(events, deadline) && (events != [] ==> Over(events[|events| - 1]) < deadline)
    ensures Replay(limit, deadline, events).armed
  {
    if events != [] {
      var before, e := events[..|events| - 1], events[|events| - 1];
      assert Logged(LogOf(before), e) == LogOf(events);
      StorableBefore(LogOf(before), e, limit);
      StaysArmed(limit, deadline, before);
      ReplayTracks(limit, deadline, before);
      ArmedStep(Replay(limit, deadline, before), LogOf(before), e);
    }
  }

  lemma NothingAfterTheEnd(v: View, log: Log, e: Event)
    requires Tracks(v, log) && !log.end.Open?
    ensures Step(v, e).published == v.published && Logged(log, e) == log
  {
  }

  lemma StorableBeforeEnd(log: Log, e: Event, limit: nat)
    requires log.end.Open? && Logged(log, e).end.Clean? && Storable(Logged(log, e), limit)
    ensures Storable(log, limit)
  {
    if e.inner.Ready? {
      BodyAppend(log.frames, e.inner.frame);
    }
  }

  lemma LastFramePublishes(v: View, log: Log, e: Event)
    requires Tracks(v, log) && v.armed && Logged(log, e).end.Clean? && Storable(Logged(log, e), v.limit)
    requires e.Poll? && e.inner.Ready? && e.now <= Over(e) < v.deadline && !Interrupted(e)
    ensures Step(v, e).published.Some?
  {
    var f := e.inner.frame;
    assert (log.frames + [f])[|log.frames|] == f;
    assert f == Data(f.bytes);
    ArmedPush(v, log, f.bytes, e.now);
  }

  /** An armed capture whose response ends cleanly, in time and storable, is published. */
  lemma CleanEndPublishes(v: View, log: Log, e: Event)
    requires Tracks(v, log) && v.armed && Logged(log, e).end.Clean? && Storable(Logged(log, e), v.limit)
    requires e.now <= Over(e) < v.deadline && !Interrupted(e)
    ensures Step(v, e).published.Some?
  {
    if e.inner.Ready? {
      LastFramePublishes(v, log, e);
    }
  }

  /**
   * With a clock that never goes back and a deadline task that is never early, a publication
   * happens exactly when the response ends cleanly in time, without trailers and within the limit.
   */
  lemma {:induction false} PublishedExactlyWhenStorable(limit: nat, deadline: nat, events: seq<Event>)
    requires Timely(events, deadline)
    ensures Replay(limit, deadline, events).published.Some? <==>
      LogOf(events).end.Clean? && LogOf(events).end.at < deadline && Storable(LogOf(events), limit)
  {
    ReplayTracks(limit, deadline, events);
    if events != [] {
      var before := events[..|events| - 1];
      var e := events[|events| - 1];
      var log := LogOf(before);
      assert Logged(log, e) == LogOf(events);
      ReplayTracks(limit, deadline, before);
      PublishedExactlyWhenStorable(limit, deadline, before);
      if !log.end.Open? {
        NothingAfterTheEnd(Replay(limit, deadline, before), log, e);
      } else if LogOf(events).end.Clean? && Over(e) < deadline && Storable(LogOf(events), limit) {
        StorableBeforeEnd(log, e, limit);
        StaysArmed(limit, deadline, before);
        CleanEndPublishes(Replay(limit, deadline, before), log, e);
      }
    }
  }
}
