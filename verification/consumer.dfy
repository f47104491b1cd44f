/**
 The asynchronous HTTP consumer as a state machine over its buffer and its
 log: `send` turns its input into a payload and offers it to the buffer
 without blocking; the delivery worker removes the oldest payload and hands
 it to the transport, whose outcome never puts anything back.
 */
module HttpConsumer {
  import opened Records
  import opened Validator
  import opened Buffer

  /** The buffer size a consumer gets when none is given. */
  const DefaultBufferSize: int := 1024

  /** Everything of a consumer that the model observes: the pending payloads,
      the informational events logged so far, and whether the delivery worker
      is still running its loop. */
  datatype State = State(buffer: BoundedQueue<Payload>, log: seq<Event>, worker: bool)

  /** The buffer never holds more payloads than it was sized for. */
  predicate Valid(s: State) {
    WithinBound(s.buffer)
  }

  /** A freshly constructed consumer: empty buffer of the given size, empty
      log, worker started. */
  function New(bufferSize: int): (s: State)
    ensures s.buffer.items == [] && s.buffer.maxsize == bufferSize
    ensures s.log == []
    ensures s.worker
    ensures Valid(s)
  {
    State(BoundedQueue([], bufferSize), [], true)
  }

  /** The value cannot be written into a byte-string log message: it is text
      with a character outside ASCII. Dicts and lists are printed through
      their (always ASCII) representation and never fall in this case. */
  predicate Unprintable(data: Value) {
    data.Str? && !Ascii(data.s)
  }

  /** What the dispatch of `send` comes to: the payload to offer and the
      events logged while building it, or the encoding error raised while
      formatting the wrong-shape message, which escapes `send`. */
  datatype Dispatch = Ready(payload: Payload, events: seq<Event>) | EncodeError

  /** The input dispatch of `send`. A dict becomes a one-record batch when it
      is flat and an empty batch when it is not; a list becomes the batch of
      its flat records in order; anything else is logged as having the wrong
      shape and is still passed on, unchanged, as the payload, unless it is
      text the log message cannot hold, in which case `send` raises. */
  function Prepare(data: Value): (d: Dispatch)
    requires WellShaped(data)
    ensures data.Map? && Flat(data.fields) ==> d == Ready(Batch([data.fields]), [])
    ensures data.Map? && !Flat(data.fields) ==>
              d == Ready(Batch([]), [ValidationReject(data.fields)])
    ensures data.List? ==> d.Ready? && d.payload.Batch? && FilterSpec(Fields(data.items), d.payload.records, d.events)
    ensures data.List? ==> d.Ready? && |d.payload.records| <= |data.items|
    ensures !data.Map? && !data.List? && !Unprintable(data) ==> d == Ready(Raw(data), [ShapeReject(data)])
    ensures d.EncodeError? <==> Unprintable(data)
    ensures d.Ready? ==> forall i | 0 <= i < |d.events| :: !d.events[i].Dropped? && !d.events[i].UploadError?
  {
    match data
    case Map(r) =>
      var c := Validate(r);
      Ready(Batch(if c.ok then [r] else []), c.events)
    case List(items) =>
      var f := FilterRecords(Fields(items));
      Ready(Batch(f.kept), f.events)
    case _ =>
      if Unprintable(data) then EncodeError else Ready(Raw(data), [ShapeReject(data)])
  }

  /** The non-blocking enqueue of `send`: on room, the payload goes to the
      back and the log is untouched; when full, the buffer is left exactly as
      it was and one drop is logged (the newest payload is the one lost). */
  function Offer(s: State, p: Payload): (s': State)
    ensures s'.buffer.maxsize == s.buffer.maxsize && s'.worker == s.worker
    ensures !Full(s.buffer) ==> s'.buffer.items == s.buffer.items + [p] && s'.log == s.log
    ensures Full(s.buffer) ==> s'.buffer == s.buffer && s'.log == s.log + [Dropped(p)]
    ensures Valid(s) ==> Valid(s')
  {
    match TryPut(s.buffer, p)
    case Stored(q) => State(q, s.log, s.worker)
    case Rejected => State(s.buffer, s.log + [Dropped(p)], s.worker)
  }

  /** `send(data)`: dispatch, then offer the payload. The validation events
      come first in the log, then the drop if the buffer was full. When the
      dispatch raises, the exception reaches the caller before anything is
      logged or queued. */
  function Send(s: State, data: Value): (s': State)
    requires WellShaped(data)
    ensures s'.buffer.maxsize == s.buffer.maxsize && s'.worker == s.worker
    ensures Valid(s) ==> Valid(s')
    ensures Unprintable(data) ==> s' == s
    ensures !Unprintable(data) && !Full(s.buffer) ==>
              s'.buffer.items == s.buffer.items + [Prepare(data).payload]
              && s'.log == s.log + Prepare(data).events
    ensures !Unprintable(data) && Full(s.buffer) ==>
              s'.buffer == s.buffer
              && s'.log == s.log + Prepare(data).events + [Dropped(Prepare(data).payload)]
  {
    match Prepare(data)
    case EncodeError => s
    case Ready(p, events) => Offer(State(s.buffer, s.log + events, s.worker), p)
  }

  /** What the transport call did with one payload: it returned, or it
      raised an exception whose message is `detail`. */
  datatype Outcome = Delivered | Failed(detail: string)

  /** One step of the worker: the payload it removed and the state after. */
  datatype Step = Step(payload: Payload, next: State)

  /** The worker's `get`: remove the oldest payload. */
  function Take(s: State): (st: Step)
    requires |s.buffer.items| > 0
    ensures st.payload == s.buffer.items[0]
    ensures st.next.buffer.items == s.buffer.items[1..]
    ensures st.next.buffer.maxsize == s.buffer.maxsize
    ensures st.next.log == s.log && st.next.worker == s.worker
    ensures Valid(s) ==> Valid(st.next)
  {
    var t := Get(s.buffer);
    Step(t.item, State(t.rest, s.log, s.worker))
  }

  /** One iteration of the worker loop: take the oldest payload and post it.
      Whatever the transport does, the payload has left the buffer for good;
      a failure only adds an upload-error event to the log, unless its message
      is text the log message cannot hold: then formatting it raises inside
      the handler, nothing is logged, and the worker loop ends. */
  function UploadOnce(s: State, outcome: Outcome): (st: Step)
    requires |s.buffer.items| > 0
    ensures st.payload == s.buffer.items[0]
    ensures st.next.buffer.items == s.buffer.items[1..]
    ensures st.next.buffer.maxsize == s.buffer.maxsize
    ensures outcome.Delivered? ==> st.next.log == s.log && st.next.worker == s.worker
    ensures outcome.Failed? && Ascii(outcome.detail) ==>
              st.next.log == s.log + [UploadError(outcome.detail)] && st.next.worker == s.worker
    ensures outcome.Failed? && !Ascii(outcome.detail) ==> st.next.log == s.log && !st.next.worker
    ensures Valid(s) ==> Valid(st.next)
  {
    var st := Take(s);
    match outcome
    case Delivered => st
    case Failed(detail) =>
      if Ascii(detail) then Step(st.payload, State(st.next.buffer, st.next.log + [UploadError(detail)], s.worker))
      else Step(st.payload, State(st.next.buffer, st.next.log, false))
  }

  /** A flat dict sent to a consumer with room is queued as a one-record
      batch holding exactly that record. */
  lemma SendFlatRecord(s: State, r: Record)
    requires Flat(r) && !Full(s.buffer)
    ensures Send(s, Map(r)).buffer.items == s.buffer.items + [Batch([r])]
    ensures Send(s, Map(r)).log == s.log
  {
  }

  /** A dict with a nested mapping still puts an (empty) batch on a buffer
      with room, and logs one rejection. */
  lemma SendNestedRecord(s: State, r: Record)
    requires !Flat(r) && !Full(s.buffer)
    ensures Send(s, Map(r)).buffer.items == s.buffer.items + [Batch([])]
    ensures Send(s, Map(r)).log == s.log + [ValidationReject(r)]
  {
  }

  /** The mixed list `[{"a": 1}, {"b": {"c": 1}}]` is queued as the batch
      `[{"a": 1}]`. */
  lemma SendMixedList()
    ensures
      var good := map["a" := Num(1)];
      var bad := map["b" := Map(map["c" := Num(1)])];
      Send(New(DefaultBufferSize), List([Map(good), Map(bad)])).buffer.items == [Batch([good])]
  {
    var good := map["a" := Num(1)];
    var bad := map["b" := Map(map["c" := Num(1)])];
    assert Flat(good) by {
      forall v | v in good.Values
        ensures !v.Map?
      {
        assert v == Num(1);
      }
    }
    assert !Flat(bad) by {
      assert bad["b"] in bad.Values;
    }
    var items := Fields([Map(good), Map(bad)]);
    assert items == [good, bad];
    assert items == [good] + [bad];
    FilterAppend([good], [bad]);
    assert [good] == [good] + [];
    FilterCons(good, []);
    assert [bad] == [bad] + [];
    FilterCons(bad, []);
  }

  /** Text with and without characters outside ASCII, sent where there is
      room: the first is queued as it is after its shape is logged, the
      second raises out of `send` and changes nothing. */
  lemma SendText(s: State, t: string)
    requires !Full(s.buffer)
    ensures Ascii(t) ==>
              Send(s, Str(t)).buffer.items == s.buffer.items + [Raw(Str(t))]
              && Send(s, Str(t)).log == s.log + [ShapeReject(Str(t))]
    ensures !Ascii(t) ==> Send(s, Str(t)) == s
  {
  }

  /** With a buffer of one and no worker progress, two sends that return
      normally leave one payload queued and log the drop of the second. */
  lemma CapacityOneTwoSends(a: Value, b: Value)
    requires WellShaped(a) && WellShaped(b)
    ensures |Send(Send(New(1), a), b).buffer.items| == (if Unprintable(a) && Unprintable(b) then 0 else 1)
    ensures !Unprintable(a) && !Unprintable(b) ==> Dropped(Prepare(b).payload) in Send(Send(New(1), a), b).log
  {
    var s := Send(Send(New(1), a), b);
    if !Unprintable(a) && !Unprintable(b) {
      assert s.log[|s.log| - 1] == Dropped(Prepare(b).payload);
    }
  }
}
