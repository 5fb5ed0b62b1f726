/** The adapter that turns a WebSocket's messages into the byte stream SSH reads. */
module WsConn {
  import opened Wrappers

  type Byte = x: int | 0 <= x < 256

  /** The error half of Go's (n, err): nil, io.EOF, or anything else. */
  datatype Status = Ok | Eof | Failed

  /** The io.Reader contract for a reader holding `avail` undelivered bytes, asked for
      `len` bytes: some bytes, or end of file at the end, or a failure after any bytes. */
  predicate ReaderMay(avail: nat, len: nat, n: nat, err: Status) {
    && n <= avail && n <= len
    && (err == Eof ==> n == avail)
    && (err == Ok && len > 0 ==> n > 0)
  }

  /** The reader of one message; which of the permitted answers it gives is open. */
  class MessageReader {
    const ws: WebSocket
    var rest: seq<Byte>
    ghost var done: bool  // has reported the end of the message

    constructor (ws: WebSocket, message: seq<Byte>)
      ensures this.ws == ws && rest == message && !done
    {
      this.ws, rest, done := ws, message, false;
    }

    method Read(b: array<Byte>) returns (n: nat, err: Status)
      modifies this, b, ws`faults
      ensures ReaderMay(|old(rest)|, b.Length, n, err)
      ensures b[..n] == old(rest)[..n] && rest == old(rest)[n..]
      ensures done == (old(done) || err == Eof)
      ensures ws.faults == old(ws.faults) + (if err == Failed then 1 else 0)
    {
      var m: nat, e: Status :| ReaderMay(|rest|, b.Length, m, e);
      assert ReaderMay(|rest|, b.Length, m, e);
      for i := 0 to m
        invariant rest == old(rest) && done == old(done) && ws.faults == old(ws.faults)
        invariant b[..i] == rest[..i]
      {
        b[i] := rest[i];
      }
      n, err := m, e;
      rest := rest[n..];
      done := done || err == Eof;
      if err == Failed {
        ws.faults := ws.faults + 1;
      }
    }
  }

  /** The connection below: the messages the peer has sent and nobody has opened yet, and
      how often a call below failed although there was something to read. */
  class WebSocket {
    var queue: seq<seq<Byte>>
    ghost var current: MessageReader?
    ghost var faults: nat

    constructor (messages: seq<seq<Byte>>)
      ensures queue == messages && current == null && faults == 0
    {
      queue, current, faults := messages, null, 0;
    }

    /** Opens the next message.  The library demands that the one before was read to its
        end; with no message left it fails, and it may fail otherwise. */
    method Reader() returns (r: MessageReader?)
      requires current == null || current.done
      modifies this
      ensures r == null ==> queue == old(queue) && current == old(current)
      ensures r != null ==> fresh(r) && !r.done && current == r && r.ws == this
      ensures r != null ==> old(queue) == [r.rest] + queue
      ensures faults == old(faults) + (if r == null && queue != [] then 1 else 0)
    {
      if queue == [] {
        return null;
      }
      var available: bool := *;
      if !available {
        faults := faults + 1;
        return null;
      }
      r := new MessageReader(this, queue[0]);
      queue, current := queue[1..], r;
    }
  }

  /** What is still to be delivered: the open message, if any, and the queue behind it. */
  datatype State = State(open: Option<seq<Byte>>, queue: seq<seq<Byte>>)

  class WsNetConn {
    const ws: WebSocket
    var reader: MessageReader?

    ghost predicate Valid()
      reads this, ws, ws.current
    {
      if reader != null then ws.current == reader && reader.ws == ws else ws.current == null || ws.current.done
    }

    ghost function Value(): State
      reads this, ws, reader
    {
      State(if reader == null then None else Some(reader.rest), ws.queue)
    }

    constructor (ws: WebSocket)
      requires ws.current == null
      ensures Valid() && this.ws == ws && Value() == State(None, ws.queue)
    {
      this.ws, reader := ws, null;
    }

    /** One step of the stream.  It fails exactly if a call below does, or if all is read
        and there is no message left; so the end of a message by itself never fails. */
    method Read(b: array<Byte>) returns (n: nat, err: Status)
      requires Valid()
      modifies this, ws, reader, b
      ensures Valid()
      ensures reader == old(reader) || reader == null || fresh(reader)
      ensures n <= b.Length && ReadStep(old(Value()), b.Length, b[..n], err, Value())
      ensures ws.faults >= old(ws.faults) && (ws.faults != old(ws.faults) ==> err == Failed)
      ensures err == Failed ==> ws.faults != old(ws.faults) || AtEnd(old(Value()))
    {
      if reader != null {
        n, err := reader.Read(b);
        if err == Eof {
          reader := null;
          if n > 0 {
            return n, Ok;
          }
        } else if err != Ok {
          return n, err;
        } else {
          return n, Ok;
        }
      }
      var next := ws.Reader();
      if next == null {
        return 0, Failed;
      }
      reader := next;
      ghost var message := reader.rest;
      n, err := reader.Read(b);
      assert message == b[..n] + reader.rest;
      assert old(Value()).open.Some? ==> old(Value()).open.value == [];
    }

    /** A caller that reads until nothing comes any more, whatever end of file it is shown on
        the way: unless a call below fails, it gets every byte of every message, in order. */
    method ReadAll(b: array<Byte>) returns (data: seq<Byte>)
      requires Valid() && b.Length > 0
      modifies this, ws, reader, b
      ensures Valid()
      ensures data <= old(Pending(Value()))
      ensures ws.faults == old(ws.faults) ==> data == old(Pending(Value()))
    {
      data := [];
      var err := Ok;
      while err != Failed
        invariant Valid() && (reader == old(reader) || reader == null || fresh(reader))
        invariant data + Pending(Value()) == old(Pending(Value()))
        invariant ws.faults >= old(ws.faults)
        invariant err == Failed && ws.faults == old(ws.faults) ==> Pending(Value()) == []
        decreases err != Failed, Remaining(Value())
      {
        ghost var before, faults := Value(), ws.faults;
        var n;
        n, err := Read(b);
        ghost var e := Event(b.Length, b[..n], err);
        StepConserves(before, e, Value());
        assert data + (e.data + Pending(Value())) == (data + e.data) + Pending(Value());
        if err != Failed {
          StepProgress(before, e, Value());
        } else if ws.faults == faults {
          EndStays(before, e, Value());
        }
        data := data + b[..n];
      }
    }
  }

  // ----- one Read, as a relation on what is still to be delivered

  ghost predicate ReadStep(s: State, len: nat, data: seq<Byte>, err: Status, s': State) {
    ReadsOpen(s, len, data, err, s') || ReadsNext(s, len, data, err, s')
  }

  /** Served by the message already open; its end is not reported to the caller. */
  ghost predicate ReadsOpen(s: State, len: nat, data: seq<Byte>, err: Status, s': State) {
    && s.open.Some? && s'.queue == s.queue && err != Eof
    && data <= s.open.value
    && match s'.open
       case Some(rest) => s.open.value == data + rest && ReaderMay(|s.open.value|, len, |data|, err)
       case None => data == s.open.value != [] && |data| <= len && err == Ok
  }

  /** The open message is used up, so the next one is opened and read once. */
  ghost predicate ReadsNext(s: State, len: nat, data: seq<Byte>, err: Status, s': State) {
    && Exhausted(s)
    && match s'.open
       case None => data == [] && err == Failed && s'.queue == s.queue
       case Some(rest) => s.queue == [data + rest] + s'.queue && ReaderMay(|data + rest|, len, |data|, err)
  }

  predicate Exhausted(s: State) {
    s.open == None || s.open == Some([])
  }

  function Flatten(queue: seq<seq<Byte>>): seq<Byte> {
    if queue == [] then [] else queue[0] + Flatten(queue[1..])
  }

  function Pending(s: State): seq<Byte> {
    (if s.open.Some? then s.open.value else []) + Flatten(s.queue)
  }

  /** Everything is read. */
  predicate AtEnd(s: State) {
    Exhausted(s) && s.queue == []
  }

  lemma EndStays(s: State, e: Event, s': State)
    requires ReadStep(s, e.len, e.data, e.err, s') && AtEnd(s)
    ensures e.data == [] && Pending(s') == [] == Pending(s)
  {
  }

  // ----- runs of Reads with any buffer sizes

  datatype Event = Event(len: nat, data: seq<Byte>, err: Status)

  /** `states` lists the states before and after each event. */
  ghost predicate Run(states: seq<State>, events: seq<Event>) {
    && |states| == |events| + 1
    && forall i :: 0 <= i < |events| ==>
         ReadStep(states[i], events[i].len, events[i].data, events[i].err, states[i + 1])
  }

  function Delivered(events: seq<Event>): seq<Byte> {
    if events == [] then [] else events[0].data + Delivered(events[1..])
  }

  lemma StepConserves(s: State, e: Event, s': State)
    requires ReadStep(s, e.len, e.data, e.err, s')
    ensures e.data + Pending(s') == Pending(s)
  {
    if ReadsNext(s, e.len, e.data, e.err, s') && s'.open.Some? {
      assert Flatten(s.queue) == (e.data + s'.open.value) + Flatten(s'.queue) by {
        assert s.queue[0] == e.data + s'.open.value && s.queue[1..] == s'.queue;
      }
    }
  }

  /** No byte is lost, repeated or reordered, whatever the buffer sizes, the reader's
      answers and the failures on the way. */
  lemma {:induction false} StreamConserved(states: seq<State>, events: seq<Event>)
    requires Run(states, events)
    ensures Delivered(events) + Pending(states[|events|]) == Pending(states[0])
  {
    if events != [] {
      StepConserves(states[0], events[0], states[1]);
      StreamConserved(states[1..], events[1..]);
      assert events[0].data + (Delivered(events[1..]) + Pending(states[|events|])) == Pending(states[0]);
    }
  }

  /** Two runs over the same messages deliver the same stream, as far as both got. */
  lemma SchedulesAgree(s1: seq<State>, e1: seq<Event>, s2: seq<State>, e2: seq<Event>)
    requires Run(s1, e1) && Run(s2, e2) && s1[0] == s2[0]
    ensures Delivered(e1) <= Delivered(e2) || Delivered(e2) <= Delivered(e1)
    ensures Pending(s1[|e1|]) == Pending(s2[|e2|]) == [] ==> Delivered(e1) == Delivered(e2)
  {
    StreamConserved(s1, e1);
    StreamConserved(s2, e2);
    var whole := Pending(s1[0]);
    assert Delivered(e1) == whole[..|Delivered(e1)|] && Delivered(e2) == whole[..|Delivered(e2)|];
  }

  // ----- message boundaries

  /** The reader never returns bytes together with io.EOF on a message it has just opened. */
  predicate Lazy(e: Event) {
    e.err == Eof ==> e.data == []
  }

  /** A message-level end of file leaks out exactly when an empty message is opened. */
  lemma EofIffEmptyMessage(s: State, e: Event, s': State)
    requires ReadStep(s, e.len, e.data, e.err, s') && Lazy(e) && e.len > 0 && e.err != Failed
    ensures e.err == Eof <==> Exhausted(s) && s.queue != [] && s.queue[0] == []
  {
    if ReadsNext(s, e.len, e.data, e.err, s') {
      assert s.queue[0] == e.data + s'.open.value;
    }
  }

  /** Whatever the reader does, an end of file that reaches the caller comes with a whole
      message: nothing of it is left behind. */
  lemma EofDeliversWhole(s: State, e: Event, s': State)
    requires ReadStep(s, e.len, e.data, e.err, s') && e.err == Eof
    ensures Exhausted(s) && s.queue == [e.data] + s'.queue && Pending(s') == Flatten(s'.queue)
  {
    assert s'.open == Some([]) && e.data + [] == e.data;
  }

  lemma QueueShrinks(s: State, e: Event, s': State)
    requires ReadStep(s, e.len, e.data, e.err, s')
    ensures s'.queue == s.queue || (s.queue != [] && s'.queue == s.queue[1..])
  {
  }

  predicate SomeEof(events: seq<Event>) {
    exists i :: 0 <= i < |events| && events[i].err == Eof
  }

  /** The messages a run opened up to a point are a prefix of its initial queue. */
  lemma {:induction false} OpenedPrefix(states: seq<State>, events: seq<Event>, i: nat)
    requires Run(states, events) && i <= |events|
    ensures |states[i].queue| <= |states[0].queue|
    ensures states[i].queue == states[0].queue[|states[0].queue| - |states[i].queue|..]
  {
    if i > 0 {
      OpenedPrefix(states, events, i - 1);
      QueueShrinks(states[i - 1], events[i - 1], states[i]);
    }
  }

  lemma {:induction false} QueueFalls(states: seq<State>, events: seq<Event>, i: nat)
    requires Run(states, events) && i <= |events|
    ensures |states[|events|].queue| <= |states[i].queue|
    decreases |events| - i
  {
    if i < |events| {
      QueueShrinks(states[i], events[i], states[i + 1]);
      QueueFalls(states, events, i + 1);
    }
  }

  /** Whatever fails and however small the buffers are: io.EOF never reaches the caller
      unless one of the opened messages was empty. */
  lemma EofNeedsEmptyMessage(states: seq<State>, events: seq<Event>)
    requires Run(states, events)
    requires forall i :: 0 <= i < |events| ==> Lazy(events[i])
    ensures |states[|events|].queue| <= |states[0].queue|
    ensures SomeEof(events) ==> [] in states[0].queue[..|states[0].queue| - |states[|events|].queue|]
    ensures [] !in states[0].queue ==> !SomeEof(events)
  {
    OpenedPrefix(states, events, |events|);
    if SomeEof(events) {
      var i :| 0 <= i < |events| && events[i].err == Eof;
      EofDeliversWhole(states[i], events[i], states[i + 1]);
      OpenedPrefix(states, events, i);
      QueueFalls(states, events, i + 1);
      assert states[0].queue[|states[0].queue| - |states[i].queue|] == states[i].queue[0] == [];
    }
  }

  /** Over a run without failures: io.EOF reached the caller iff one of the opened
      messages was empty. */
  lemma {:induction false} BoundariesInvisible(states: seq<State>, events: seq<Event>)
    requires Run(states, events)
    requires forall i :: 0 <= i < |events| ==> Lazy(events[i]) && events[i].len > 0 && events[i].err != Failed
    ensures |states[|events|].queue| <= |states[0].queue|
    ensures SomeEof(events) <==> [] in states[0].queue[..|states[0].queue| - |states[|events|].queue|]
  {
    OpenedPrefix(states, events, |events|);
    if events != [] {
      var s, s', last := states[0], states[1], states[|events|];
      EofIffEmptyMessage(s, events[0], s');
      QueueShrinks(s, events[0], s');
      BoundariesInvisible(states[1..], events[1..]);
      assert SomeEof(events) <==> events[0].err == Eof || SomeEof(events[1..]) by {
        assert forall i :: 0 <= i < |events[1..]| ==> events[1..][i] == events[i + 1];
        if SomeEof(events[1..]) {
          var i :| 0 <= i < |events[1..]| && events[1..][i].err == Eof;
          assert events[i + 1].err == Eof;
        }
      }
      OpenedPrefix(states[1..], events[1..], |events| - 1);
      var k := |last.queue|;
      if s'.queue != s.queue {
        var before := s.queue[..|s.queue| - k];
        assert before == [s.queue[0]] + s'.queue[..|s'.queue| - k];
        assert ReadsNext(s, events[0].len, events[0].data, events[0].err, s');
      }
    }
  }

  // ----- progress

  /** Bytes and messages still to come. */
  function Remaining(s: State): nat {
    |Pending(s)| + |s.queue|
  }

  lemma StepProgress(s: State, e: Event, s': State)
    requires ReadStep(s, e.len, e.data, e.err, s') && e.len > 0 && e.err != Failed
    ensures Remaining(s') < Remaining(s)
    ensures [] !in s.queue ==> |Pending(s')| < |Pending(s)|
  {
    StepConserves(s, e, s');
    if e.data == [] {
      assert ReadsNext(s, e.len, e.data, e.err, s');
      assert s.queue[0] == e.data + s'.open.value;
    }
  }

  /** A caller that keeps reading with non-empty buffers meets a failure after finitely
      many Reads; non-empty messages need at most one Read per byte. */
  lemma {:induction false} DrainTerminates(states: seq<State>, events: seq<Event>)
    requires Run(states, events)
    requires forall i :: 0 <= i < |events| ==> events[i].len > 0 && events[i].err != Failed
    ensures |events| + Remaining(states[|events|]) <= Remaining(states[0])
    ensures [] !in states[0].queue ==> |events| + |Pending(states[|events|])| <= |Pending(states[0])|
  {
    if events != [] {
      StepProgress(states[0], events[0], states[1]);
      QueueShrinks(states[0], events[0], states[1]);
      DrainTerminates(states[1..], events[1..]);
    }
  }

  /** And that failure comes only when every byte is delivered, unless a call below fails. */
  lemma DrainDelivers(states: seq<State>, events: seq<Event>)
    requires Run(states, events) && events != [] && AtEnd(states[|events| - 1])
    ensures Delivered(events) == Pending(states[0])
  {
    var last := |events| - 1;
    StreamConserved(states, events);
    EndStays(states[last], events[last], states[last + 1]);
    assert Delivered(events) + [] == Delivered(events);
  }

  /** The guard is needed: an empty message does leak io.EOF to the caller. */
  lemma EmptyMessageLeaksEof(tail: seq<seq<Byte>>, len: nat)
    ensures ReadStep(State(None, [[]] + tail), len, [], Eof, State(Some([]), tail))
  {
    assert [[]] + tail == [[] + []] + tail;
  }
}
