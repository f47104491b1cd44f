/**
 Runs of the consumer: an interleaving of caller sends and worker steps,
 with what was accepted onto the buffer and what the worker took off it and
 handed to the transport. It states the ordering guarantee of the pipeline:
 payloads leave in the order they were accepted, none is lost once accepted,
 none comes back, and every send is accepted, logged as a drop, or raises.
 */
module Pipeline {
  import opened Records
  import opened Sequences
  import opened Buffer
  import opened HttpConsumer

  /** One thing that can happen next: a caller's `send`, or one iteration of
      the worker loop with the transport outcome it meets. */
  datatype Op = SendOp(data: Value) | UploadOp(outcome: Outcome)

  /** Every send in the run has an input `send` can dispatch: a list input
      holds only dicts. */
  predicate Callable(ops: seq<Op>) {
    forall i | 0 <= i < |ops| :: ops[i].SendOp? ==> WellShaped(ops[i].data)
  }

  /** The number of sends in a run. */
  function Sends(ops: seq<Op>): nat {
    if |ops| == 0 then 0 else (if ops[0].SendOp? then 1 else 0) + Sends(ops[1..])
  }

  /** The number of sends in a run that raise the encoding error. */
  function Raised(ops: seq<Op>): nat {
    if |ops| == 0 then 0
    else (if ops[0].SendOp? && Unprintable(ops[0].data) then 1 else 0) + Raised(ops[1..])
  }

  /** The payloads the sends of a run build, in order, whether or not the
      buffer then has room for them; a send that raises builds none. */
  function Prepared(ops: seq<Op>): seq<Payload>
    requires Callable(ops)
  {
    if |ops| == 0 then []
    else match ops[0]
      case SendOp(data) =>
        (match Prepare(data)
         case Ready(p, _) => [p]
         case EncodeError => []) + Prepared(ops[1..])
      case UploadOp(_) => Prepared(ops[1..])
  }

  /** The end of a run: the final state, the payloads the buffer accepted
      and the payloads the worker took off it and handed to the transport,
      whether or not the post succeeded, each in the order it happened. */
  datatype Run = Run(final: State, accepted: seq<Payload>, taken: seq<Payload>)

  /** Execute a run. A worker step on an empty buffer is the worker still
      waiting in its blocking `get`, and changes nothing; once the worker
      loop has ended, worker steps no longer happen at all. */
  function Exec(s: State, ops: seq<Op>): (r: Run)
    requires Callable(ops)
    ensures r.final.buffer.maxsize == s.buffer.maxsize
    ensures Valid(s) ==> Valid(r.final)
    ensures r.taken + r.final.buffer.items == s.buffer.items + r.accepted
    ensures Drops(r.final.log) + |r.accepted| + Raised(ops) == Drops(s.log) + Sends(ops)
    ensures SubseqOf(r.accepted, Prepared(ops))
    ensures !s.worker ==> !r.final.worker && r.taken == []
    decreases |ops|
  {
    if |ops| == 0 then Run(s, [], [])
    else
      match ops[0]
      case SendOp(data) =>
        var next := Send(s, data);
        var rest := Exec(next, ops[1..]);
        SendAccounting(s, data);
        if Prepare(data).EncodeError? then
          assert Prepared(ops) == Prepared(ops[1..]);
          Run(rest.final, rest.accepted, rest.taken)
        else
          var p := Prepare(data).payload;
          assert Prepared(ops) == [p] + Prepared(ops[1..]);
          if Full(s.buffer) then
            SubseqSkip(p, rest.accepted, Prepared(ops[1..]));
            Run(rest.final, rest.accepted, rest.taken)
          else
            SubseqBoth(p, rest.accepted, Prepared(ops[1..]));
            SnocRegroup(s.buffer.items, p, rest.taken, rest.final.buffer.items, rest.accepted);
            Run(rest.final, [p] + rest.accepted, rest.taken)
      case UploadOp(outcome) =>
        assert Prepared(ops) == Prepared(ops[1..]);
        if |s.buffer.items| == 0 || !s.worker then
          Exec(s, ops[1..])
        else
          var st := UploadOnce(s, outcome);
          var rest := Exec(st.next, ops[1..]);
          UploadAccounting(s, outcome);
          assert s.buffer.items == [st.payload] + st.next.buffer.items;
          ConsRegroup(st.payload, st.next.buffer.items, rest.taken, rest.final.buffer.items, rest.accepted);
          Run(rest.final, rest.accepted, [st.payload] + rest.taken)
  }

  /** A send adds exactly one drop to the log when it returns normally on a
      full buffer, and none otherwise. */
  lemma SendAccounting(s: State, data: Value)
    requires WellShaped(data)
    ensures Drops(Send(s, data).log) ==
            Drops(s.log) + (if !Unprintable(data) && Full(s.buffer) then 1 else 0)
  {
    match Prepare(data)
    case EncodeError =>
    case Ready(p, events) =>
      DropsNone(events);
      DropsAppend(s.log, events);
      if Full(s.buffer) {
        DropsAppend(s.log + events, [Dropped(p)]);
      }
  }

  /** A worker step never logs a drop. */
  lemma UploadAccounting(s: State, outcome: Outcome)
    requires |s.buffer.items| > 0
    ensures Drops(UploadOnce(s, outcome).next.log) == Drops(s.log)
  {
    if outcome.Failed? && Ascii(outcome.detail) {
      DropsAppend(s.log, [UploadError(outcome.detail)]);
    }
  }

  /** From a freshly constructed consumer, the worker hands payloads to the
      transport in exactly the order the buffer accepted them: what it has
      taken is a prefix of what was accepted, and the rest is what is still
      queued. */
  lemma TakenInAcceptedOrder(bufferSize: int, ops: seq<Op>)
    requires Callable(ops)
    ensures Exec(New(bufferSize), ops).taken <= Exec(New(bufferSize), ops).accepted
    ensures Exec(New(bufferSize), ops).accepted ==
              Exec(New(bufferSize), ops).taken + Exec(New(bufferSize), ops).final.buffer.items
  {
    var r := Exec(New(bufferSize), ops);
    assert r.accepted == [] + r.accepted;
    assert r.accepted == r.taken + r.final.buffer.items;
    assert r.accepted[..|r.taken|] == r.taken;
  }

  /** Starting from an empty buffer, the worker only ever hands the transport
      payloads that sends built, in the order they were sent. */
  lemma TakenFromSends(s: State, ops: seq<Op>)
    requires Callable(ops) && |s.buffer.items| == 0
    ensures SubseqOf(Exec(s, ops).taken, Prepared(ops))
  {
    var r := Exec(s, ops);
    assert r.accepted == r.taken + r.final.buffer.items;
    assert r.accepted[..|r.taken|] == r.taken;
    SubseqPrefix(r.taken, r.accepted, Prepared(ops));
  }

  /** A transport failure whose message the log cannot hold ends the worker
      loop: the payload it was posting is the last one taken off the buffer,
      whatever happens afterwards, and every later payload stays queued. */
  lemma UnprintableFailureStopsWorker(s: State, detail: string, ops: seq<Op>)
    requires Callable(ops) && s.worker && |s.buffer.items| > 0 && !Ascii(detail)
    ensures Exec(s, [UploadOp(Failed(detail))] + ops).taken == [s.buffer.items[0]]
    ensures !Exec(s, [UploadOp(Failed(detail))] + ops).final.worker
  {
    var all := [UploadOp(Failed(detail))] + ops;
    assert all[0] == UploadOp(Failed(detail));
    assert all[1..] == ops;
    assert Callable(all) by {
      forall i | 0 <= i < |all| && all[i].SendOp?
        ensures WellShaped(all[i].data)
      {
        assert all[i] == ops[i - 1];
      }
    }
  }
}
