/**
 The data that flows through the HTTP log consumer: JSON-like values, the
 flat records callers submit, the payloads placed on the buffer, and the
 abstract events the consumer writes to its log.
 */
module Records {

  /** A JSON-like value as a caller hands it to `send`. Floating-point
      numbers are not modelled; integers stand for all numbers. */
  datatype Value =
    | Null
    | Bool(b: bool)
    | Num(n: int)
    | Str(s: string)
    | List(items: seq<Value>)
    | Map(fields: map<string, Value>)

  /** One log statement: a key-value mapping (a Python dict). */
  type Record = map<string, Value>

  /** What is put on the buffer. A dict or list input becomes a `Batch` of
      records (possibly empty); any other input that `send` does not raise on
      is passed on unchanged as `Raw`, because the enqueue step runs whatever
      shape the input had. */
  datatype Payload =
    | Batch(records: seq<Record>)
    | Raw(value: Value)

  /** The informational log events, each carrying what its message prints. */
  datatype Event =
    | ValidationReject(record: Record)   // a record held a nested mapping
    | ShapeReject(data: Value)           // the input was neither dict nor list
    | Dropped(payload: Payload)          // the buffer was full
    | UploadError(detail: string)        // the transport raised

  /** Text made of ASCII characters only: what Python 2 can write into a
      byte-string message without an encoding error. */
  predicate Ascii(s: string) {
    forall i | 0 <= i < |s| :: s[i] as int < 128
  }

  /** A record is flat when none of its values is itself a mapping. Lists are
      values like any other: what they contain is not looked at. */
  predicate Flat(r: Record) {
    forall v | v in r.Values :: !v.Map?
  }

  /** Every element of a list input is a dict; the source calls `.items()`
      on each element, so any other element raises out of `send`. */
  predicate RecordList(items: seq<Value>) {
    forall i | 0 <= i < |items| :: items[i].Map?
  }

  /** The inputs `send` handles without raising. */
  predicate WellShaped(data: Value) {
    data.List? ==> RecordList(data.items)
  }

  /** The records of a list input, in order. */
  function Fields(items: seq<Value>): (rs: seq<Record>)
    requires RecordList(items)
    ensures |rs| == |items|
    ensures forall i | 0 <= i < |items| :: items[i] == Map(rs[i])
  {
    seq(|items|, i requires 0 <= i < |items| => items[i].fields)
  }

  /** The number of buffer-full drops recorded in a log. */
  function Drops(log: seq<Event>): nat {
    if |log| == 0 then 0
    else (if log[0].Dropped? then 1 else 0) + Drops(log[1..])
  }

  lemma {:induction false} DropsAppend(a: seq<Event>, b: seq<Event>)
    ensures Drops(a + b) == Drops(a) + Drops(b)
    decreases |a|
  {
    if |a| == 0 {
      assert a + b == b;
    } else {
      assert (a + b)[1..] == a[1..] + b;
      DropsAppend(a[1..], b);
    }
  }

  /** Counting drops over the events of a list that has no drop in it. */
  lemma {:induction false} DropsNone(log: seq<Event>)
    requires forall i | 0 <= i < |log| :: !log[i].Dropped?
    ensures Drops(log) == 0
    decreases |log|
  {
    if |log| > 0 {
      DropsNone(log[1..]);
    }
  }
}
