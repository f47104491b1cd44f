# dnif-logger asynchronous HTTP consumer, modelled in Dafny

This project models `AsyncHttpConsumer`, the client-side log shipper of
dnif-logger. Callers hand `send` a record, which is a flat key-value dict.
They can also hand it a list of records. `send` checks that no record holds
a nested mapping and builds a payload. It then offers the payload to a
bounded in-memory queue without blocking. A background worker takes payloads
from the front of the queue and POSTs each one to the collection endpoint.
Nothing is retried. A failure ends up as an informational log line, unless
formatting that line itself raises (see below).

The model is functional. The consumer is a value `HttpConsumer.State`
holding the buffer (`Buffer.BoundedQueue`: the pending payloads and the
queue's `maxsize`), the log (an abstract sequence of `Records.Event`) and
whether the worker loop is still running. `send` and one iteration of the
worker loop are pure state transitions. `Pipeline.Exec` runs any
interleaving of sends and worker steps. It records what the buffer accepted
and what the worker took off it and handed to the transport, whether or not
the post then succeeded.

Modules, leaves first:

- `Records` (`records.dfy`): JSON-like values, records, payloads and log
  events. It also holds the shallow flatness predicate `Flat`.
- `Validator` (`validator.dfy`): the check on one record (`_validate`) and
  the list filter inside `send`. The filter is specified by `FilterSpec`: the
  list splits into flat and rejected records, each part keeping its order.
  The specification is proved to have exactly one solution.
- `Buffer` (`buffer.dfy`): `Queue(maxsize=...)` with a non-blocking put and
  a get from the front.
- `HttpConsumer` (`consumer.dfy`): construction, input dispatch, `send`,
  and the worker's take-and-upload step.
- `Sequences` (`sequences.dfy`): the order-preserving subsequence relation
  and its step lemmas, shared by the filter and the run properties.
- `Pipeline` (`pipeline.dfy`): whole runs. It proves FIFO conservation and
  that every send is accepted, logged as a drop, or raises.

Behaviour kept as the code has it:

- A dict that fails validation still puts an empty batch `[]` on the queue.
- An input that is neither a dict nor a list is logged as the wrong shape.
  Unless that message raises (next item), the input is then still put on
  the queue unchanged (`Payload.Raw`), because the `put` at
  dnif/consumer.py:56-57 runs whatever branch was taken before it.
  The message logged at dnif/consumer.py:54 says the packet is being
  skipped, yet nothing on that path returns before the `put` at :57.
- The code is Python 2 (dnif/consumer.py:3 imports the `Queue` module).
  The wrong-shape message at :54 is a byte string formatted with the input
  itself. For `unicode` text with a character outside ASCII, that formatting
  raises `UnicodeEncodeError` before the log call. `send` then raises to
  its caller with nothing logged and nothing queued (`HttpConsumer.Unprintable`,
  the `EncodeError` dispatch). Dicts and lists are formatted through their
  ASCII representation, so the messages at :39 and :59 never raise.
- The upload-error message at :68 is formatted with the exception in the
  same way. When the exception's message is text outside ASCII, the
  formatting raises inside the `except` clause, nothing is logged, and the
  exception ends the worker loop (`State.worker` becomes false). The payload
  being posted has already left the queue, later payloads stay queued, and
  `send` keeps queuing until the buffer is full.
- Lists are never looked inside. A list value that contains mappings does
  not make its record invalid.
- The queue's `maxsize` is an arbitrary integer. In Python's `Queue`, a
  `maxsize` of zero or less means no bound, so `Full` holds only when
  `0 < maxsize <= size`. The default buffer size is 1024.
- When the queue is full, the newest payload is dropped. No queued payload
  is evicted.

## Model

| member | source | states |
|---|---|---|
| Validator.Validate | dnif/consumer.py:35-41 | a record is accepted iff none of its top-level values is a mapping; a rejection logs exactly one event carrying the record, an acceptance logs nothing |
| Validator.ValidateScan | dnif/consumer.py:35-41 | the loop over the entries that stops at the first mapping value gives the verdict "no value is a mapping", and the single rejection event, whatever order it visits the keys in |
| Validator.NestedMapRejected | dnif/consumer.py:37-40 | putting a mapping under any key makes the record invalid |
| Validator.ListsNotInspected | dnif/consumer.py:36-38 | setting a key to a list, whatever the list contains, validates exactly as the record without that key: lists never cause rejection |
| Validator.FilterRecords | dnif/consumer.py:52 | the input splits into the kept records, all flat, and one rejection event per remaining record, none flat; both parts are subsequences of the input in its order, and their lengths add up to the input's |
| Validator.FilterSpecUnique | dnif/consumer.py:52 | the split above is unique: two results that both meet it are equal, so every flat record is kept and every other one rejected, in order |
| Validator.FilterCharacterized | dnif/consumer.py:52 | a candidate result meets the filter specification if and only if it is what the filter returns |
| Validator.FilterKeepsFlat | dnif/consumer.py:52 | a list whose records are all flat passes the filter whole, with no events |
| Validator.FilterIdempotent | dnif/consumer.py:52 | filtering an already filtered batch returns it unchanged and logs nothing |
| Validator.FilterAppend | dnif/consumer.py:52 | filtering a concatenation is the concatenation of the filtered parts, for the kept records and for the rejection events |
| Buffer.TryPut | dnif/consumer.py:57-58 | the put is refused iff the queue has a positive bound and has reached it; otherwise the item is appended at the back and every earlier entry keeps its place; the bound is preserved |
| Buffer.Get | dnif/consumer.py:64 | get removes the oldest entry: that entry followed by the remaining queue is the old queue; afterwards a bounded queue has room |
| Buffer.PutGetEmpty | dnif/consumer.py:27-64 | an item put on an empty queue of any size is accepted and is what the next get returns, leaving the queue empty |
| Buffer.PutThenGet | dnif/consumer.py:57-64 | a put at the back does not change which entry the next get returns; the new item stays behind the remaining entries |
| HttpConsumer.New | dnif/consumer.py:18-28 | a new consumer has an empty buffer of the given size and an empty log, and satisfies the capacity invariant |
| HttpConsumer.Prepare | dnif/consumer.py:49-54 | a flat dict gives the batch holding just that dict; a dict with a nested mapping gives the empty batch and one rejection; a list gives a batch meeting the filter specification (never longer than the list); anything else gives the input itself as payload with one shape rejection, except that dispatch raises exactly when the input is text outside ASCII; dispatch never logs a drop or an upload error |
| HttpConsumer.Offer | dnif/consumer.py:56-59 | with room, the payload is appended at the back and the log is untouched; when full, the buffer is exactly unchanged and one drop event carrying the payload is logged; the capacity bound is preserved |
| HttpConsumer.Send | dnif/consumer.py:43-59 | when dispatch raises, send changes nothing; otherwise it appends the dispatched payload when there is room, and when there is none it leaves the buffer unchanged and logs the drop after the validation events; it never changes the buffer size or the worker, and preserves "size at most the bound" |
| HttpConsumer.Take | dnif/consumer.py:64 | the worker's get returns the oldest payload and leaves the rest of the queue in order, with the log unchanged |
| HttpConsumer.UploadOnce | dnif/consumer.py:61-68 | one worker iteration removes the oldest payload for good; a delivery leaves the log alone; a transport failure adds one upload-error event, or, when its message is text outside ASCII, logs nothing and ends the worker loop |
| HttpConsumer.SendFlatRecord | dnif/consumer.py:49-57 | sending a flat dict to a consumer with room queues the one-record batch holding exactly that dict and logs nothing |
| HttpConsumer.SendNestedRecord | dnif/consumer.py:49-57 | sending a dict with a nested mapping to a consumer with room still queues an empty batch and logs one rejection |
| HttpConsumer.SendMixedList | dnif/consumer.py:51-57 | sending `[{"a": 1}, {"b": {"c": 1}}]` to a new consumer queues exactly the batch `[{"a": 1}]` |
| HttpConsumer.SendText | dnif/consumer.py:53-57 | on a buffer with room, ASCII text is logged as the wrong shape and queued unchanged, while text outside ASCII raises and leaves the consumer exactly as it was |
| HttpConsumer.CapacityOneTwoSends | dnif/consumer.py:54-59 | with a buffer of one and no worker step, two sends leave one payload queued unless both raise, and when neither raises the second one's drop is logged |
| Pipeline.Exec | dnif/consumer.py:43-68 | over any run, what the worker took and handed to the transport (whether or not the post succeeded), followed by what is still queued, equals what was queued at the start followed by what was accepted; the capacity invariant holds throughout; drops logged plus payloads accepted plus sends that raised equals the number of sends; the accepted payloads are, in order, a subsequence of the payloads the sends dispatched; once the worker loop has ended, nothing more is taken |
| Pipeline.SendAccounting | dnif/consumer.py:54-59 | a send adds exactly one drop event when it does not raise and the buffer is full, and none otherwise |
| Pipeline.UploadAccounting | dnif/consumer.py:64-68 | a worker step never logs a drop |
| Pipeline.TakenInAcceptedOrder | dnif/consumer.py:56-68 | from a fresh consumer, the payloads the worker took and handed to the transport, whether or not the post succeeded, are a prefix of the accepted ones, in the same order, and the rest of the accepted ones are exactly the queue |
| Pipeline.TakenFromSends | dnif/consumer.py:49-68 | from any state whose buffer is empty, such as a fresh consumer, the payloads the worker took and handed to the transport are, in order, a subsequence of the payloads the sends dispatched: nothing is posted that no send built, and nothing out of send order |
| Pipeline.UnprintableFailureStopsWorker | dnif/consumer.py:61-68 | a transport failure whose message is text outside ASCII ends the worker loop: the payload being posted is the last one ever taken, whatever the run does next |

## Left out

- The background thread and its daemon flag are not modelled (dnif/consumer.py:30-33). Neither is the blocking wait of the worker's `get`. Concurrency is replaced by explicit interleavings in `Pipeline.Exec`. There, a worker step on an empty buffer stands for the worker still waiting and changes nothing. `HttpConsumer.Take` and `HttpConsumer.UploadOnce` require a non-empty buffer. Each send is one atomic step of a run. In the program, the validation and shape log lines (dnif/consumer.py:39, 54) of one caller can interleave with another caller's send or with the worker, so the order of events in the log can differ from a run's. The buffer contents and the drop count cannot, because the `put` at :57 is atomic and the dispatch before it never reads the queue.
- `requests.post`, JSON encoding, the target URL and the 15-second timeout are not modelled (dnif/consumer.py:25-26, 66). They are a foreign network call. The transport's effect is reduced to an `Outcome` parameter, `Delivered` or `Failed(detail)`. `Delivered` means the call returned, and `detail` is the text of the exception's message. Its formatting at :68 is modelled only as far as ASCII or not (see above).
- The `logging` module and the exact message texts are not modelled. The log is a sequence of events, and each event carries the value its message would print.
- A list element that is not a dict is not modelled. The source calls `.items()` on each element, and for any other element that raises `AttributeError` out of `send`. `Records.WellShaped` is therefore a precondition of `Prepare`, `Send` and `Exec`.
- Floating-point numbers are not modelled. `Records.Value` has integers only. JSON values other than mappings are never inspected by the source, so this changes no branch.
- Python dict iteration order is not modelled. The record's verdict does not depend on it, and `Validator.ValidateScan` visits keys in an arbitrary order.
- `Queue`'s internal locking and the abstract `Consumer` base class are not modelled (dnif/consumer.py:8-10). Beyond what is modelled here, they have no behaviour.
- Aliasing is not modelled. Values are immutable here, and the queue holds copies. The program queues the caller's own dict or list (dnif/consumer.py:50, 52-54), so a caller that mutates it after `send` changes what the worker later posts (:66). The model assumes callers hand their records over and do not touch them again.
- Python 2 byte strings are not modelled apart from `unicode` text. `Records.Value.Str` stands for `unicode` text, and `Records.Ascii` decides whether formatting it into the messages at :54 and :68 raises. A byte string with bytes outside ASCII formats without error and would be queued as `Raw`. The model has no value for it.
- Printing the traceback of the exception that ends the worker thread is not modelled. It goes to standard error, not to the logger.
